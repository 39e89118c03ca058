/**
 * The 8259A interrupt-controller mask (kern/drivers/pic.c).
 *
 * `irq_mask` holds one bit per IRQ line, 1 meaning masked.  Every change of
 * the mask is written to the two controllers' mask registers, the low byte
 * to the master's and the high byte to the slave's; those writes are
 * recorded in order as a trace of port events.
 */
module Pic {
  import opened PortIo

  /** Interrupt mask register of the master controller (IRQs 0-7). */
  const PIC1_IMR: nat := 0x21
  /** Interrupt mask register of the slave controller (IRQs 8-15). */
  const PIC2_IMR: nat := 0xA1
  /** The master's IRQ line the slave controller is wired to. */
  const IRQ_SLAVE: bv16 := 2

  /** The low byte of a mask: the master's eight lines. */
  function Lo(m: bv16): (b: nat)
    ensures b < 256
  {
    (m & 0xFF) as nat
  }

  /** The high byte of a mask: the slave's eight lines. */
  function Hi(m: bv16): (b: nat)
    ensures b < 256
  {
    (m >> 8) as nat
  }

  /** Whether bit i of a mask is set. */
  predicate Bit(m: bv16, i: bv16)
    requires i < 16
  {
    m & (1 << i) != 0
  }

  /**
   * The mask pic_enable(irq) computes: `irq_mask & ~(1 << irq)` in int,
   * truncated to 16 bits, so a line number from 16 to 31 changes nothing.
   * A shift by 32 or more is undefined in C, hence irq < 32; the line
   * number is held in 16 bits, which is enough for that range.
   */
  function Enabled(m: bv16, irq: bv16): bv16
    requires irq < 32
  {
    if irq < 16 then m & !(1 << irq) else m
  }

  /** Clearing bit j of a mask keeps every other bit. */
  lemma ClearBit(m: bv16, j: bv16, i: bv16)
    requires j < 16 && i < 16
    ensures Bit(m & !(1 << j), i) <==> Bit(m, i) && i != j
  {
  }

  /** pic_enable clears exactly the bit of its line and keeps every other bit. */
  lemma EnabledBit(m: bv16, irq: bv16, i: bv16)
    requires irq < 32 && i < 16
    ensures Bit(Enabled(m, irq), i) <==> Bit(m, i) && i != irq
  {
    if irq < 16 {
      ClearBit(m, irq, i);
    }
  }

  /** Unmasking a line twice is unmasking it once. */
  lemma EnabledIdempotent(m: bv16, irq: bv16)
    requires irq < 32
    ensures Enabled(Enabled(m, irq), irq) == Enabled(m, irq)
  {
  }

  /** Unmasking never masks a line: bits only go from 1 to 0. */
  lemma EnabledMonotone(m: bv16, irq: bv16, i: bv16)
    requires irq < 32 && i < 16
    ensures Bit(Enabled(m, irq), i) ==> Bit(m, i)
  {
    EnabledBit(m, irq, i);
  }

  class Controller {
    var irqMask: bv16
    /** The port writes issued so far, oldest first. */
    var trace: seq<Event>

    /** The boot state: every line masked, nothing written. */
    constructor ()
      ensures irqMask == 0xFFFF && trace == []
    {
      irqMask := 0xFFFF;
      trace := [];
    }

    /** pic_setmask: store the mask and write its two bytes to the two controllers. */
    method SetMask(mask: bv16)
      modifies this
      ensures irqMask == mask
      ensures trace == old(trace) + [OutB(PIC1_IMR, Lo(mask)), OutB(PIC2_IMR, Hi(mask))]
    {
      irqMask := mask;
      trace := trace + [OutB(PIC1_IMR, Lo(mask))];
      trace := trace + [OutB(PIC2_IMR, Hi(mask))];
    }

    /** pic_enable: clear the line's bit and write the new mask out. */
    method Enable(irq: bv16)
      requires irq < 32
      modifies this
      ensures irqMask == Enabled(old(irqMask), irq)
      ensures trace == old(trace) + [OutB(PIC1_IMR, Lo(irqMask)), OutB(PIC2_IMR, Hi(irqMask))]
    {
      SetMask(Enabled(irqMask, irq));
    }

    /** pic_init: unmask the cascade line, the only line open at boot. */
    method Init()
      modifies this
      ensures irqMask == Enabled(old(irqMask), IRQ_SLAVE)
      ensures old(irqMask) == 0xFFFF ==> irqMask == 0xFFFB
      ensures trace == old(trace) + [OutB(PIC1_IMR, Lo(irqMask)), OutB(PIC2_IMR, Hi(irqMask))]
    {
      Enable(IRQ_SLAVE);
    }
  }
}
