/**
 * Reading the real-time clock and programming the interval timer at boot
 * (kern/driver/time.c).
 *
 * time_init samples six CMOS clock registers until the seconds register
 * reads the same before and after the sample, converts them from BCD, sets
 * the 8253 timer to 100 Hz and unmasks the timer line.  The clock is an
 * oracle: `rtc(k)` is the byte the k-th read of the CMOS data port returns.
 * Port writes are returned as a trace.
 */
module Time {
  import opened PortIo
  import Pic

  const IO_TIMER1: nat := 0x40
  const TIMER_MODE: nat := IO_TIMER1 + 3
  const TIMER_SEL0: bv8 := 0x00
  const TIMER_RATEGEN: bv8 := 0x04
  const TIMER_16BIT: bv8 := 0x30
  const TIMER_FREQ: nat := 1193180
  const CMOS_ADDR: nat := 0x70
  const CMOS_DATA: nat := 0x71
  const IRQ_TIMER: bv16 := 0

  /** TIMER_DIV: the 8253 divisor for a rate of x interrupts per second. */
  function TimerDiv(x: nat): nat
    requires x > 0
  {
    TIMER_FREQ / x
  }

  /** The two bytes written to counter 0, low first, put the divisor back together. */
  lemma TimerBytes()
    ensures TimerDiv(100) == 11931
    ensures TimerDiv(100) % 256 == 0x9B && TimerDiv(100) / 256 == 0x2E
    ensures TimerDiv(100) % 256 + 256 * (TimerDiv(100) / 256) == TimerDiv(100)
  {
  }

  /** The mode byte: counter 0, rate generator, 16-bit access low byte first. */
  lemma ModeByte()
    ensures TIMER_SEL0 | TIMER_RATEGEN | TIMER_16BIT == 0x34
  {
  }

  /**
   * BCD_TO_BIN on a byte: low nibble plus ten times the high nibble
   * (`v & 0xF` and `v >> 4` written as remainder and quotient by 16).
   */
  function BcdToBin(v: nat): (r: nat)
    requires v < 256
    ensures r <= 15 + 15 * 10
  {
    v % 16 + (v / 16) * 10
  }

  /** A byte holding two BCD digits. */
  predicate IsBcd(v: nat) {
    v < 256 && v % 16 <= 9 && v / 16 <= 9
  }

  /** The BCD byte for a number below 100: its tens digit in the high nibble. */
  function BinToBcd(n: nat): (v: nat)
    requires n < 100
    ensures IsBcd(v)
  {
    (n / 10) * 16 + n % 10
  }

  /** On a valid BCD byte the conversion is the two-digit decimal reading, below 100, and BinToBcd undoes it. */
  lemma BcdRoundTrip(v: nat)
    requires IsBcd(v)
    ensures BcdToBin(v) == 10 * (v / 16) + v % 16 && BcdToBin(v) < 100
    ensures BinToBcd(BcdToBin(v)) == v
  {
    var n := BcdToBin(v);
    assert n / 10 == v / 16 && n % 10 == v % 16;
  }

  /** Every number below 100 comes back from its BCD byte. */
  lemma BinRoundTrip(n: nat)
    requires n < 100
    ensures BcdToBin(BinToBcd(n)) == n
  {
    var v := BinToBcd(n);
    assert v % 16 == n % 10 && v / 16 == n / 10;
  }

  /** The calendar fields time_init fills in. */
  datatype Tm = Tm(sec: nat, min: nat, hour: nat, mday: nat, mon: nat, year: nat)

  /** CMOS registers sampled in one round, in order; the round then re-reads register 0. */
  const SAMPLED: seq<nat> := [0, 2, 4, 7, 8, 9]

  /**
   * CMOS_READ's address write: the register number with the NMI-disable
   * bit 0x80 set; for a register below 0x80 the or is a sum.
   */
  function Select(addr: nat): Event
    requires addr < 0x80
  {
    OutB(CMOS_ADDR, 0x80 + addr)
  }

  /** Setting bit 7 of a register number below 0x80 adds 0x80. */
  lemma SelectOr(addr: bv8)
    requires addr < 0x80
    ensures (0x80 | addr) as nat == 0x80 + addr as nat
  {
  }

  /** The address writes of one sampling round: the six registers, then register 0 again. */
  function RoundWrites(): (w: seq<Event>)
    ensures |w| == 7
  {
    [Select(0), Select(2), Select(4), Select(7), Select(8), Select(9), Select(0)]
  }

  /** A round selects the six sampled registers in order, then the seconds register again. */
  lemma RoundOrder()
    ensures RoundWrites()[6] == Select(0)
    ensures forall j :: 0 <= j < 6 ==> RoundWrites()[j] == Select(SAMPLED[j])
  {
  }

  /** The address writes of n sampling rounds. */
  function Rounds(n: nat): (w: seq<Event>)
    ensures |w| == 7 * n
  {
    if n == 0 then [] else Rounds(n - 1) + RoundWrites()
  }

  /** Round r reads rtc(7r) .. rtc(7r+5) for the six registers and rtc(7r+6) for the check. */
  predicate Settled(rtc: nat -> bv8, r: nat) {
    rtc(7 * r) as nat == rtc(7 * r + 6) as nat
  }

  /** The six registers as read in round r, before conversion. */
  function Sampled(rtc: nat -> bv8, r: nat): Tm {
    Tm(rtc(7 * r) as nat, rtc(7 * r + 1) as nat, rtc(7 * r + 2) as nat,
       rtc(7 * r + 3) as nat, rtc(7 * r + 4) as nat, rtc(7 * r + 5) as nat)
  }

  /** Every field of a sample holds one byte. */
  predicate Bytes(t: Tm) {
    t.sec < 256 && t.min < 256 && t.hour < 256 && t.mday < 256 && t.mon < 256 && t.year < 256
  }

  /** The BCD conversion applied to every field. */
  function FromBcd(t: Tm): Tm
    requires Bytes(t)
  {
    Tm(BcdToBin(t.sec), BcdToBin(t.min), BcdToBin(t.hour), BcdToBin(t.mday), BcdToBin(t.mon), BcdToBin(t.year))
  }

  /** The BCD encoding of a calendar whose fields are all below 100. */
  function ToBcd(t: Tm): (b: Tm)
    requires t.sec < 100 && t.min < 100 && t.hour < 100 && t.mday < 100 && t.mon < 100 && t.year < 100
    ensures Bytes(b)
  {
    Tm(BinToBcd(t.sec), BinToBcd(t.min), BinToBcd(t.hour), BinToBcd(t.mday), BinToBcd(t.mon), BinToBcd(t.year))
  }

  /** A clock showing the calendar t in BCD is read back as t. */
  lemma FromBcdToBcd(t: Tm)
    requires t.sec < 100 && t.min < 100 && t.hour < 100 && t.mday < 100 && t.mon < 100 && t.year < 100
    ensures FromBcd(ToBcd(t)) == t
  {
    BinRoundTrip(t.sec);
    BinRoundTrip(t.min);
    BinRoundTrip(t.hour);
    BinRoundTrip(t.mday);
    BinRoundTrip(t.mon);
    BinRoundTrip(t.year);
  }

  /** CMOS_READ: select the register, then read the data port (the k-th read). */
  method CmosRead(rtc: nat -> bv8, k: nat, addr: nat) returns (v: bv8, w: Event)
    requires addr < 0x80
    ensures v == rtc(k) && w == Select(addr)
  {
    w := Select(addr);
    v := rtc(k);
  }

  /** One pass of time_init's loop body and condition: six registers, then the seconds again. */
  method SampleRound(rtc: nat -> bv8, r: nat) returns (t: Tm, again: nat, io: seq<Event>)
    ensures t == Sampled(rtc, r) && again == rtc(7 * r + 6) as nat
    ensures io == RoundWrites()
  {
    var k := 7 * r;
    var v0, w0 := CmosRead(rtc, k, 0);
    var v1, w1 := CmosRead(rtc, k + 1, 2);
    var v2, w2 := CmosRead(rtc, k + 2, 4);
    var v3, w3 := CmosRead(rtc, k + 3, 7);
    var v4, w4 := CmosRead(rtc, k + 4, 8);
    var v5, w5 := CmosRead(rtc, k + 5, 9);
    t := Tm(v0 as nat, v1 as nat, v2 as nat, v3 as nat, v4 as nat, v5 as nat);
    var v6, w6 := CmosRead(rtc, k + 6, 0);
    again := v6 as nat;
    io := [w0, w1, w2, w3, w4, w5, w6];
  }

  /**
   * time_init's do-while loop.  `stable` is a round in which the clock does
   * not tick; the loop stops at the first such round, having issued the
   * address writes of every round up to and including it.
   */
  method SampleUntilSettled(rtc: nat -> bv8, ghost stable: nat) returns (t: Tm, rounds: nat, io: seq<Event>)
    requires Settled(rtc, stable)
    ensures Settled(rtc, rounds) && forall r :: 0 <= r < rounds ==> !Settled(rtc, r)
    ensures t == Sampled(rtc, rounds)
    ensures io == Rounds(rounds + 1)
  {
    var again, w;
    rounds := 0;
    t, again, w := SampleRound(rtc, rounds);
    io := w;
    while t.sec != again
      invariant rounds <= stable && io == Rounds(rounds + 1)
      invariant t == Sampled(rtc, rounds) && again == rtc(7 * rounds + 6) as nat
      invariant forall q :: 0 <= q < rounds ==> !Settled(rtc, q)
      decreases stable - rounds
    {
      assert !Settled(rtc, rounds) && rounds < stable;
      rounds := rounds + 1;
      t, again, w := SampleRound(rtc, rounds);
      assert Rounds(rounds + 1) == Rounds(rounds) + w;
      io := io + w;
    }
  }

  /** The 8253 set-up: mode byte, then the 100 Hz divisor low byte first. */
  method TimerSetup() returns (io: seq<Event>)
    ensures io == [OutB(TIMER_MODE, 0x34), OutB(IO_TIMER1, 0x9B), OutB(IO_TIMER1, 0x2E)]
  {
    ModeByte();
    TimerBytes();
    io := [OutB(TIMER_MODE, (TIMER_SEL0 | TIMER_RATEGEN | TIMER_16BIT) as nat)];
    io := io + [OutB(IO_TIMER1, TimerDiv(100) % 256)];
    io := io + [OutB(IO_TIMER1, TimerDiv(100) / 256)];
  }

  /**
   * time_init: the settled round's registers converted from BCD, the
   * sampling writes followed by the timer set-up, and the timer line
   * unmasked.
   */
  method TimeInit(rtc: nat -> bv8, ghost stable: nat, pic: Pic.Controller) returns (tm: Tm, rounds: nat, io: seq<Event>)
    requires Settled(rtc, stable)
    modifies pic
    ensures Settled(rtc, rounds) && forall r :: 0 <= r < rounds ==> !Settled(rtc, r)
    ensures tm == FromBcd(Sampled(rtc, rounds))
    ensures io == Rounds(rounds + 1) +
                  [OutB(TIMER_MODE, 0x34), OutB(IO_TIMER1, 0x9B), OutB(IO_TIMER1, 0x2E)]
    ensures pic.irqMask == Pic.Enabled(old(pic.irqMask), IRQ_TIMER)
    ensures pic.trace == old(pic.trace) + [OutB(Pic.PIC1_IMR, Pic.Lo(pic.irqMask)), OutB(Pic.PIC2_IMR, Pic.Hi(pic.irqMask))]
  {
    var t, sampling;
    t, rounds, sampling := SampleUntilSettled(rtc, stable);
    tm := FromBcd(t);
    var setup := TimerSetup();
    io := sampling + setup;
    pic.Enable(IRQ_TIMER);
  }
}
