/**
 * Gate descriptors (include/kernel/desc.h).
 *
 * A gate_desc is nine bit-fields in two 32-bit words; SET_GATE fills them
 * from a type, a selector, a DPL and a handler address.  A value stored in a
 * bit-field keeps only the field's width, so each store is written out as
 * a reduction modulo 2^width.  The words are laid out as in section 6.11
 * (interrupt and trap gates) of the Intel SDM, Volume 3A.
 */
module Desc {
  import X86Asm

  const U32: nat := 0x1_0000_0000
  /** 32-bit trap gate. */
  const STS_TG32: nat := 0xF
  const DPL_KERNEL: nat := 0
  const DPL_USER: nat := 3
  /** The kernel code segment's selector: GDT entry SEG_KTEXT = 1, shifted past the RPL and TI bits. */
  const SEG_KTEXT: nat := 1
  const GD_KTEXT: nat := SEG_KTEXT * 8

  /** struct gate_desc, its fields listed from bit 0 of the first word up. */
  datatype GateDesc = GateDesc(
    off15_0: nat,   // 16 bits
    ss: nat,        // 16 bits
    args: nat,      // 5 bits
    rsv1: nat,      // 3 bits
    gateType: nat,  // 4 bits
    s: nat,         // 1 bit
    dpl: nat,       // 2 bits
    p: nat,         // 1 bit
    off31_16: nat)  // 16 bits

  /** Every field holds no more bits than its width. */
  predicate FieldsFit(g: GateDesc) {
    g.off15_0 < 0x1_0000 && g.ss < 0x1_0000 && g.args < 0x20 && g.rsv1 < 8 &&
    g.gateType < 0x10 && g.s < 2 && g.dpl < 4 && g.p < 2 && g.off31_16 < 0x1_0000
  }

  /**
   * SET_GATE(gate, type, sel, dpl, addr): offset bits 0-15 and 16-31 of
   * (uint32_t)addr, the selector, type and DPL as given, no arguments,
   * system segment, present.
   */
  function SetGate(gateType: nat, sel: nat, dpl: nat, addr: nat): (g: GateDesc)
    ensures FieldsFit(g)
  {
    GateDesc(
      off15_0 := addr % U32 % 0x1_0000,
      ss := sel % 0x1_0000,
      args := 0,
      rsv1 := 0,
      gateType := gateType % 0x10,
      s := 0,
      dpl := dpl % 4,
      p := 1,
      off31_16 := addr % U32 / 0x1_0000)
  }

  /** SET_TRAP_GATE: a 32-bit trap gate into kernel code, callable from ring 0 only. */
  function TrapGate(addr: nat): GateDesc {
    SetGate(STS_TG32, GD_KTEXT, DPL_KERNEL, addr)
  }

  /** SET_SYS_GATE: the same gate, callable from user mode. */
  function SysGate(addr: nat): GateDesc {
    SetGate(STS_TG32, GD_KTEXT, DPL_USER, addr)
  }

  /** The handler offset a gate holds: its two halves put back together. */
  function Offset(g: GateDesc): nat {
    g.off15_0 + g.off31_16 * 0x1_0000
  }

  /** The first 32-bit word of a gate: offset bits 0-15, then the selector. */
  function LowWord(g: GateDesc): nat {
    g.off15_0 + g.ss * 0x1_0000
  }

  /** The second 32-bit word: args, reserved, type, S, DPL, P, then offset bits 16-31. */
  function HighWord(g: GateDesc): nat {
    g.args + g.rsv1 * 0x20 + g.gateType * 0x100 + g.s * 0x1000 + g.dpl * 0x2000 + g.p * 0x8000 +
    g.off31_16 * 0x1_0000
  }

  /** The gate's two halves of the offset put back together give (uint32_t)addr. */
  lemma OffsetRoundTrip(gateType: nat, sel: nat, dpl: nat, addr: nat)
    ensures Offset(SetGate(gateType, sel, dpl, addr)) == addr % U32
  {
    var a := addr % U32;
    assert a == a / 0x1_0000 * 0x1_0000 + a % 0x1_0000;
  }

  /**
   * SET_GATE's fixed fields, and the given selector, type and DPL kept as
   * they are when they fit their fields.
   */
  lemma SetGateFields(gateType: nat, sel: nat, dpl: nat, addr: nat)
    requires gateType < 0x10 && sel < 0x1_0000 && dpl < 4
    ensures var g := SetGate(gateType, sel, dpl, addr);
      g.p == 1 && g.s == 0 && g.args == 0 && g.rsv1 == 0 &&
      g.ss == sel && g.gateType == gateType && g.dpl == dpl
  {
  }

  /**
   * The gate's words are 32-bit values, and the low half of the second word
   * is exactly what GATE_DESC(type, dpl) computes: the bit-field form and
   * the assembler form agree.
   */
  lemma HighWordIsGateDesc(gateType: nat, sel: nat, dpl: nat, addr: nat)
    requires gateType < 0x10 && dpl < 4
    ensures var g := SetGate(gateType, sel, dpl, addr);
      LowWord(g) < U32 && HighWord(g) < U32 &&
      HighWord(g) % 0x1_0000 == X86Asm.GateDescWord(gateType, dpl) &&
      HighWord(g) / 0x1_0000 == g.off31_16 && LowWord(g) / 0x1_0000 == g.ss
  {
    var g := SetGate(gateType, sel, dpl, addr);
    var lo := g.gateType * 0x100 + g.dpl * 0x2000 + 0x8000;
    assert lo < 0x1_0000;
    assert HighWord(g) == lo + g.off31_16 * 0x1_0000;
  }

  /** A system-call gate is a trap gate that user mode may also use: only the DPL differs. */
  lemma SysIsUserTrap(addr: nat)
    ensures SysGate(addr) == TrapGate(addr).(dpl := DPL_USER)
    ensures TrapGate(addr).dpl == DPL_KERNEL
  {
  }
}
