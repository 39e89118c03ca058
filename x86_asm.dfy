/**
 * The assembler descriptor macros (include/arch/x86/x86_asm.h).
 *
 * GATE_DESC builds the upper half of the low word an interrupt or trap gate
 * needs; GEN_SEG_DESC and GEN_SEG_NULL emit the eight bytes of a GDT entry.
 * The decoders below read a descriptor back the way the processor does, as
 * laid out in section 3.4.5 (segment descriptors) of the Intel SDM,
 * Volume 3A.
 */
module X86Asm {
  const U32: nat := 0x1_0000_0000

  /** GATE_DESC(type, dpl): present bit 15, the DPL at bit 13, the type at bit 8. */
  function GateDescWord(gateType: nat, dpl: nat): nat {
    0x8000 + dpl * 0x2000 + gateType * 0x100
  }

  /**
   * For a 4-bit type and a 2-bit DPL, GATE_DESC is a 16-bit value with P set
   * in bit 15, the DPL in bits 13-14, S clear in bit 12, the type in bits
   * 8-11 and nothing in bits 0-7; and those fields give back type and DPL.
   */
  lemma GateDescBits(gateType: nat, dpl: nat)
    requires gateType < 0x10 && dpl < 4
    ensures var w := GateDescWord(gateType, dpl);
      w < 0x1_0000 && w / 0x8000 == 1 && w / 0x2000 % 4 == dpl && w / 0x1000 % 2 == 0 &&
      w / 0x100 % 0x10 == gateType && w % 0x100 == 0
  {
    var w := GateDescWord(gateType, dpl);
    assert w == 0x100 * (0x80 + dpl * 0x20 + gateType);
    assert w / 0x100 == 0x80 + dpl * 0x20 + gateType;
    assert w / 0x1000 == (0x80 + dpl * 0x20 + gateType) / 0x10;
    assert (0x80 + dpl * 0x20 + gateType) / 0x10 == 8 + dpl * 2;
    assert w / 0x2000 == 4 + dpl;
  }

  /** The two bytes of a `.word`, least significant first. */
  function WordBytes(w: nat): seq<nat> {
    [w % 0x100, w / 0x100 % 0x100]
  }

  /**
   * GEN_SEG_DESC(type, base, lim): limit bits 12-27 and base bits 0-15 as
   * words, then base bits 16-23, the access byte 0x90 | type, the flags
   * nibble 0xC with limit bits 28-31, and base bits 24-31.
   */
  function GenSegDesc(segType: nat, base: nat, lim: nat): (d: seq<nat>)
    requires segType < 0x10
    ensures |d| == 8
  {
    WordBytes(lim / 0x1000 % 0x1_0000) + WordBytes(base % 0x1_0000) +
    [base / 0x1_0000 % 0x100, 0x90 + segType, 0xC0 + lim / 0x1000_0000 % 0x10, base / 0x100_0000 % 0x100]
  }

  /** GEN_SEG_NULL: two zero words and four zero bytes. */
  function GenSegNull(): (d: seq<nat>)
    ensures |d| == 8
  {
    WordBytes(0) + WordBytes(0) + [0, 0, 0, 0]
  }

  /** The base address of a descriptor: bytes 2-3, 4 and 7. */
  function SegBase(d: seq<nat>): nat
    requires |d| == 8
  {
    d[2] + d[3] * 0x100 + d[4] * 0x1_0000 + d[7] * 0x100_0000
  }

  /** The 20-bit segment limit: bytes 0-1 and the low nibble of byte 6. */
  function SegLimit(d: seq<nat>): nat
    requires |d| == 8
  {
    d[0] + d[1] * 0x100 + (d[6] % 0x10) * 0x1_0000
  }

  /** The access byte's fields: type (bits 0-3), S (bit 4), DPL (bits 5-6), P (bit 7). */
  function SegType(d: seq<nat>): nat requires |d| == 8 { d[5] % 0x10 }
  function SegS(d: seq<nat>): nat requires |d| == 8 { d[5] / 0x10 % 2 }
  function SegDpl(d: seq<nat>): nat requires |d| == 8 { d[5] / 0x20 % 4 }
  function SegPresent(d: seq<nat>): nat requires |d| == 8 { d[5] / 0x80 % 2 }

  /** The flags nibble of byte 6: AVL (bit 4), L (bit 5), D/B (bit 6), G (bit 7). */
  function SegFlags(d: seq<nat>): nat requires |d| == 8 { d[6] / 0x10 % 0x10 }

  /**
   * The highest byte offset a segment allows: with G set the limit counts
   * 4 KiB pages and the low 12 bits are filled with ones.
   */
  function ByteLimit(d: seq<nat>): nat
    requires |d| == 8
  {
    if SegFlags(d) / 8 == 1 then SegLimit(d) * 0x1000 + 0xFFF else SegLimit(d)
  }

  /** Reading back GEN_SEG_DESC's base gives base. */
  lemma SegBaseRoundTrip(segType: nat, base: nat, lim: nat)
    requires segType < 0x10 && base < U32
    ensures SegBase(GenSegDesc(segType, base, lim)) == base
  {
    var d := GenSegDesc(segType, base, lim);
    assert d[2] + d[3] * 0x100 == base % 0x1_0000;
    assert base / 0x1_0000 == base / 0x1_0000 / 0x100 * 0x100 + d[4];
    assert base / 0x1_0000 / 0x100 == base / 0x100_0000;
    assert base == base / 0x1_0000 * 0x1_0000 + base % 0x1_0000;
  }

  /** GEN_SEG_DESC's 20-bit limit is lim in 4 KiB pages: lim >> 12. */
  lemma SegLimitPages(segType: nat, base: nat, lim: nat)
    requires segType < 0x10 && lim < U32
    ensures SegLimit(GenSegDesc(segType, base, lim)) == lim / 0x1000
  {
    var d := GenSegDesc(segType, base, lim);
    var p := lim / 0x1000;
    assert d[0] + d[1] * 0x100 == p % 0x1_0000;
    assert lim / 0x1000_0000 == p / 0x1_0000;
    assert p == p / 0x1_0000 * 0x1_0000 + p % 0x1_0000;
  }

  /**
   * GEN_SEG_DESC's access byte and flags: the given type, S = 1 (code or
   * data), DPL 0, present; G = 1 and D/B = 1 (32-bit), L = 0, AVL = 0.
   */
  lemma SegAccessFlags(segType: nat, base: nat, lim: nat)
    requires segType < 0x10
    ensures var d := GenSegDesc(segType, base, lim);
      SegType(d) == segType && SegS(d) == 1 && SegDpl(d) == 0 && SegPresent(d) == 1 &&
      SegFlags(d) == 0xC
  {
  }

  /** Every byte GEN_SEG_DESC emits fits in a byte. */
  lemma SegBytes(segType: nat, base: nat, lim: nat)
    requires segType < 0x10
    ensures forall i :: 0 <= i < 8 ==> GenSegDesc(segType, base, lim)[i] < 0x100
  {
  }

  /**
   * The segment GEN_SEG_DESC describes ends at lim rounded up to the end of
   * its page: never before lim, and less than one page past it; exactly at
   * lim when lim ends a page, as 0xFFFFFFFF does.
   */
  lemma SegByteLimit(segType: nat, base: nat, lim: nat)
    requires segType < 0x10 && lim < U32
    ensures var b := ByteLimit(GenSegDesc(segType, base, lim));
      lim <= b < lim + 0x1000 && (lim % 0x1000 == 0xFFF ==> b == lim)
  {
    SegAccessFlags(segType, base, lim);
    SegLimitPages(segType, base, lim);
  }

  /** GEN_SEG_NULL is eight zero bytes: a descriptor that is not present. */
  lemma SegNull()
    ensures GenSegNull() == [0, 0, 0, 0, 0, 0, 0, 0] && SegPresent(GenSegNull()) == 0
  {
  }
}
