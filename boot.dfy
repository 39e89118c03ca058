/**
 * The boot loader (boot/bootload.c).
 *
 * The loader reads the kernel image from the first IDE disk in 28-bit LBA
 * mode, one 512-byte sector at a time, starting at sector 1 (sector 0 holds
 * the loader itself).  It loads the ELF header, checks its magic number,
 * loads each program segment and jumps to the entry point.
 *
 * The disk is a status oracle.  The loader's state records where each
 * sector landed in memory, as a list of loads; the disk port accesses it
 * makes are a function of that list (Ports), since every sector read issues
 * the same seven accesses for its sector number.  Addresses and sizes are 32-bit values; the wrap-around of
 * uintptr_t arithmetic is written out where it can happen.
 */
module Boot {
  import opened PortIo

  const SECTSIZE: nat := 512
  const U32: nat := 0x1_0000_0000
  /** The 4-byte ELF magic read as one little-endian 32-bit word. */
  const ELF_MAGIC: nat := 0x464C457F
  /** Segment and entry addresses are masked to their low 24 bits. */
  const ADDR_MASK_LIMIT: nat := 0x100_0000
  /** The kernel image begins at this disk sector. */
  const IMAGE_SECTOR: nat := 1
  /** bootmain reads this many bytes of ELF header. */
  const HEADER_BYTES: nat := SECTSIZE * 8

  /** Disk status: BSY (bit 7) clear and DRDY (bit 6) set. */
  predicate DiskReady(s: bv8) {
    s & 0xC0 == 0x40
  }

  /** The ready test is exactly "BSY clear and DRDY set". */
  lemma DiskReadyBits(s: bv8)
    ensures DiskReady(s) <==> s & 0x80 == 0 && s & 0x40 != 0
  {
  }

  /** Where one sector went: the memory address it was read to and its disk sector number. */
  datatype Load = Load(dst: nat, secno: nat)

  /**
   * The port accesses of readsect: sector count 1, the LBA in bits 0-7,
   * 8-15 and 16-23, bits 24-27 with 0xE0 (LBA mode, drive 0), the READ
   * SECTORS command 0x20, then 128 32-bit reads of data.
   */
  function SectWrites(secno: nat): (w: seq<Event>)
    ensures |w| == 7 && w[0] == OutB(0x1F2, 1) && w[5] == OutB(0x1F7, 0x20) && w[6] == InLongs(0x1F0, SECTSIZE / 4)
  {
    [OutB(0x1F2, 1),
     OutB(0x1F3, secno % 0x100),
     OutB(0x1F4, secno / 0x100 % 0x100),
     OutB(0x1F5, secno / 0x1_0000 % 0x100),
     OutB(0x1F6, secno / 0x100_0000 % 0x10 + 0xE0),
     OutB(0x1F7, 0x20),
     InLongs(0x1F0, SECTSIZE / 4)]
  }

  /**
   * The four LBA register bytes readsect writes hold the low 28 bits of the
   * sector number, and the top nibble of the last one selects LBA mode on
   * drive 0 (0xE).
   */
  lemma SectLba(secno: nat)
    ensures var w := SectWrites(secno);
      w[1].OutB? && w[2].OutB? && w[3].OutB? && w[4].OutB? &&
      w[1].value < 0x100 && w[2].value < 0x100 && w[3].value < 0x100 && w[4].value < 0x100 &&
      w[4].value / 0x10 == 0xE &&
      w[1].value + w[2].value * 0x100 + w[3].value * 0x1_0000 + (w[4].value % 0x10) * 0x100_0000
        == secno % 0x1000_0000
  {
    var a := secno % 0x100;
    var b := secno / 0x100 % 0x100;
    var c := secno / 0x1_0000 % 0x100;
    var d := secno / 0x100_0000 % 0x10;
    assert secno / 0x100 == secno / 0x100 / 0x100 * 0x100 + b;
    assert secno == secno / 0x100 * 0x100 + a;
    assert secno / 0x100 / 0x100 == secno / 0x1_0000;
    assert secno / 0x1_0000 == secno / 0x1_0000 / 0x100 * 0x100 + c;
    assert secno / 0x1_0000 / 0x100 == secno / 0x100_0000;
    assert secno / 0x100_0000 == secno / 0x100_0000 / 0x10 * 0x10 + d;
    assert secno / 0x100_0000 / 0x10 == secno / 0x1000_0000;
    assert secno == secno / 0x1000_0000 * 0x1000_0000 + a + b * 0x100 + c * 0x1_0000 + d * 0x100_0000;
  }

  /** The port accesses of n sectors read in turn from sector secno on. */
  function SegTrace(secno: nat, n: nat): (t: seq<Event>)
    ensures |t| == 7 * n
  {
    if n == 0 then [] else SegTrace(secno, n - 1) + SectWrites(secno + n - 1)
  }

  /** The port accesses that read the sectors of a list of loads, in order. */
  function Ports(l: seq<Load>): seq<Event> {
    if |l| == 0 then [] else Ports(l[..|l| - 1]) + SectWrites(l[|l| - 1].secno)
  }

  /** The port accesses of two lists of loads in turn are those of each in turn. */
  lemma {:induction false} PortsAppend(a: seq<Load>, b: seq<Load>)
    ensures Ports(a + b) == Ports(a) + Ports(b)
    decreases |b|
  {
    if |b| > 0 {
      var last := |b| - 1;
      assert (a + b)[..|a + b| - 1] == a + b[..last];
      PortsAppend(a, b[..last]);
    } else {
      assert a + b == a;
    }
  }

  /** The loads of consecutive sectors from secno issue SegTrace(secno, n). */
  lemma {:induction false} SectorsPorts(l: seq<Load>, secno: nat)
    requires forall i :: 0 <= i < |l| ==> l[i].secno == secno + i
    ensures Ports(l) == SegTrace(secno, |l|)
  {
    if |l| > 0 {
      SectorsPorts(l[..|l| - 1], secno);
    }
  }

  /** A sector read issues the seven accesses of SectWrites after those of the reads before it. */
  lemma SectPorts(prev: seq<Load>, dst: nat, secno: nat)
    ensures Ports(prev + [Load(dst, secno)]) == Ports(prev) + SectWrites(secno)
  {
    assert (prev + [Load(dst, secno)])[..|prev|] == prev;
  }

  /** readseg's first address: va rounded down to its sector boundary, with uintptr_t wrap-around. */
  function SegStart(va: nat, offset: nat): (s: nat)
    requires va < U32
    ensures s < U32
  {
    if va >= offset % SECTSIZE then va - offset % SECTSIZE else va + U32 - offset % SECTSIZE
  }

  /** readseg's end_va, va + count in 32 bits. */
  function SegEnd(va: nat, count: nat): nat {
    (va + count) % U32
  }

  /** The number of sectors readseg reads: 512-byte steps from SegStart while below SegEnd. */
  function SegSectors(va: nat, count: nat, offset: nat): nat
    requires va < U32
  {
    var s, e := SegStart(va, offset), SegEnd(va, count);
    if s < e then (e - s + SECTSIZE - 1) / SECTSIZE else 0
  }

  /** The sectors readseg reads: consecutive disk sectors from offset / 512 + 1 into consecutive 512-byte slots. */
  function SegLoads(va: nat, count: nat, offset: nat): (l: seq<Load>)
    requires va < U32
    ensures |l| == SegSectors(va, count, offset)
  {
    seq(SegSectors(va, count, offset),
        i requires 0 <= i => Load(SegStart(va, offset) + SECTSIZE * i, offset / SECTSIZE + IMAGE_SECTOR + i))
  }

  /** The k-th 512-byte step from s stays below e exactly while k is below the sector count. */
  lemma StepBelow(s: nat, e: nat, k: nat)
    ensures s + SECTSIZE * k < e <==> s < e && k < (e - s + SECTSIZE - 1) / SECTSIZE
  {
    if s < e {
      var n := (e - s + SECTSIZE - 1) / SECTSIZE;
      assert n * SECTSIZE <= e - s + SECTSIZE - 1 < (n + 1) * SECTSIZE;
      if k < n {
        assert SECTSIZE * k <= SECTSIZE * (n - 1);
      } else {
        assert SECTSIZE * k >= SECTSIZE * n;
      }
    }
  }

  /**
   * For a segment that does not wrap, readseg reads
   * ceil((count + offset % 512) / 512) sectors.
   */
  lemma SegCount(va: nat, count: nat, offset: nat)
    requires offset % SECTSIZE <= va && va + count < U32
    ensures SegSectors(va, count, offset) == (count + offset % SECTSIZE + SECTSIZE - 1) / SECTSIZE
  {
  }

  /**
   * The loads of a segment that does not wrap cover [va, va + count), and
   * the byte at address a comes from the sector holding byte
   * offset + (a - va) of the kernel image, at the same place in it.
   */
  lemma SegCovers(va: nat, count: nat, offset: nat, a: nat)
    requires offset % SECTSIZE <= va && va + count < U32
    requires va <= a < va + count
    ensures var l := SegLoads(va, count, offset); var i := (a - SegStart(va, offset)) / SECTSIZE;
      i < |l| && l[i].dst <= a < l[i].dst + SECTSIZE &&
      (l[i].secno - IMAGE_SECTOR) * SECTSIZE + (a - l[i].dst) == offset + (a - va)
  {
    var s := SegStart(va, offset);
    var i := (a - s) / SECTSIZE;
    var r := offset % SECTSIZE;
    assert s == va - r;
    StepBelow(s, SegEnd(va, count), i);
    assert s + SECTSIZE * i <= a < s + SECTSIZE * (i + 1);
    assert offset == offset / SECTSIZE * SECTSIZE + r;
    assert (offset / SECTSIZE + i) * SECTSIZE == offset / SECTSIZE * SECTSIZE + SECTSIZE * i;
  }

  /**
   * A destination below offset % 512 makes the rounded-down start wrap
   * past the top of the address space, so readseg reads nothing.
   */
  lemma SegStartWraps(va: nat, count: nat, offset: nat)
    requires va < offset % SECTSIZE && SegEnd(va, count) + SECTSIZE <= U32
    ensures SegSectors(va, count, offset) == 0
  {
  }

  /** readseg issues the accesses of SegTrace for its sectors, from sector offset / 512 + 1 on, after those of the reads before it. */
  lemma SegPorts(prev: seq<Load>, va: nat, count: nat, offset: nat)
    requires va < U32
    ensures Ports(prev + SegLoads(va, count, offset)) ==
      Ports(prev) + SegTrace(offset / SECTSIZE + IMAGE_SECTOR, SegSectors(va, count, offset))
  {
    SectorsPorts(SegLoads(va, count, offset), offset / SECTSIZE + IMAGE_SECTOR);
    PortsAppend(prev, SegLoads(va, count, offset));
  }

  /** The ELF header fields bootmain uses. */
  datatype ElfHeader = ElfHeader(magic: nat, entry: nat, phoff: nat, phnum: nat)

  /** The program header fields bootmain uses. */
  datatype ProgHeader = ProgHeader(offset: nat, va: nat, memsz: nat)

  /** How bootmain ends: a jump to the kernel's entry, or a spin forever at `bad`. */
  datatype Outcome = Jump(entry: nat) | Spin

  /** A 32-bit word read from four bytes, least significant first. */
  function LittleEndian32(b: seq<nat>): nat
    requires |b| == 4
  {
    b[0] + b[1] * 0x100 + b[2] * 0x1_0000 + b[3] * 0x100_0000
  }

  /**
   * ELF_MAGIC is the little-endian reading of exactly the identification
   * bytes 0x7F 'E' 'L' 'F' that open every ELF file (System V ABI, chapter
   * 4, "ELF Header"), and of no other four bytes.
   */
  lemma MagicBytes(b: seq<nat>)
    requires |b| == 4 && forall i :: 0 <= i < 4 ==> b[i] < 0x100
    ensures LittleEndian32(b) == ELF_MAGIC <==> b == [0x7F, 'E' as nat, 'L' as nat, 'F' as nat]
  {
    if LittleEndian32(b) == ELF_MAGIC {
      var lo := b[0] + b[1] * 0x100 + b[2] * 0x1_0000;
      assert lo < 0x100_0000;
      assert b[3] == 0x46;
      assert b[2] == 0x4C;
      assert b[1] == 0x45;
      assert b[0] == 0x7F;
    }
  }

  /** A segment's load address: its p_va masked to 24 bits. */
  function SegVa(ph: ProgHeader): nat {
    ph.va % ADDR_MASK_LIMIT
  }

  /** What readseg needs of its arguments to stop: 32-bit values and an end that leaves a full step below 2^32. */
  predicate SegArgs(va: nat, count: nat, offset: nat) {
    va < U32 && count < U32 && offset < U32 && SegEnd(va, count) + SECTSIZE <= U32
  }

  /** What bootmain needs of its program headers: each one's readseg arguments. */
  predicate SegsArgs(phs: seq<ProgHeader>) {
    forall i :: 0 <= i < |phs| ==> SegArgs(SegVa(phs[i]), phs[i].memsz, phs[i].offset)
  }

  /** The loads of one program segment. */
  function PhSeg(ph: ProgHeader): seq<Load>
    requires SegArgs(SegVa(ph), ph.memsz, ph.offset)
  {
    SegLoads(SegVa(ph), ph.memsz, ph.offset)
  }

  /** The loads of the first k program segments, in program header order. */
  function PhLoads(phs: seq<ProgHeader>, k: nat): seq<Load>
    requires SegsArgs(phs) && k <= |phs|
  {
    if k == 0 then [] else PhLoads(phs, k - 1) + PhSeg(phs[k - 1])
  }

  /** The ELF header is read from disk sectors 1 to 8 into the eight 512-byte slots from hdr. */
  lemma {:induction false} HeaderLoads(hdr: nat)
    requires hdr + HEADER_BYTES < U32
    ensures var l := SegLoads(hdr, HEADER_BYTES, 0);
      |l| == 8 && forall i :: 0 <= i < 8 ==> l[i] == Load(hdr + SECTSIZE * i, IMAGE_SECTOR + i)
  {
    SegCount(hdr, HEADER_BYTES, 0);
  }

  /** The loads of the first j segments are a prefix of the loads of the first k. */
  lemma {:induction false} PhLoadsPrefix(phs: seq<ProgHeader>, j: nat, k: nat)
    requires SegsArgs(phs) && j <= k <= |phs|
    ensures |PhLoads(phs, j)| <= |PhLoads(phs, k)| && PhLoads(phs, k)[..|PhLoads(phs, j)|] == PhLoads(phs, j)
    decreases k
  {
    if j < k {
      PhLoadsPrefix(phs, j, k - 1);
      var p := PhLoads(phs, k - 1);
      assert PhLoads(phs, k) == p + PhSeg(phs[k - 1]);
      assert (p + PhSeg(phs[k - 1]))[..|PhLoads(phs, j)|] == p[..|PhLoads(phs, j)|];
    }
  }

  /** Segment j's loads appear, whole and in place, among the loads of all segments: each segment is loaded once, in header order. */
  lemma PhLoadsAt(phs: seq<ProgHeader>, j: nat)
    requires SegsArgs(phs) && j < |phs|
    ensures var all, before := PhLoads(phs, |phs|), |PhLoads(phs, j)|;
      before + |PhSeg(phs[j])| <= |all| && all[before..before + |PhSeg(phs[j])|] == PhSeg(phs[j])
  {
    PhLoadsPrefix(phs, j + 1, |phs|);
    var all := PhLoads(phs, |phs|);
    var p := PhLoads(phs, j);
    assert PhLoads(phs, j + 1) == p + PhSeg(phs[j]);
    assert all[..|p| + |PhSeg(phs[j])|] == p + PhSeg(phs[j]);
    assert all[|p|..|p| + |PhSeg(phs[j])|] == (p + PhSeg(phs[j]))[|p|..];
  }

  class Loader {
    /** The disk status port 0x1F7: the k-th read returns status(k). */
    const status: StatusOracle
    /** For each poll count k, how many further polls until the disk is ready. */
    ghost const wait: nat -> nat
    /** The number of status reads so far. */
    var polls: nat
    /** The sectors read so far, oldest first. */
    var loads: seq<Load>

    /** The disk becomes ready after every poll count: waitdisk has no timeout. */
    ghost predicate Live() {
      forall k: nat :: DiskReady(status(k + wait(k)))
    }

    constructor (hw: StatusOracle, ghost delay: nat -> nat)
      requires forall k: nat :: DiskReady(hw(k + delay(k)))
      ensures status == hw && wait == delay && Live()
      ensures polls == 0 && loads == []
    {
      status := hw;
      wait := delay;
      polls := 0;
      loads := [];
    }

    /** waitdisk: read the status until it shows BSY clear and DRDY set; it returns at the first such read. */
    method WaitDisk()
      requires Live()
      modifies this`polls
      ensures old(polls) < polls && DiskReady(status(polls - 1))
      ensures forall j :: old(polls) <= j < polls - 1 ==> !DiskReady(status(j))
    {
      ghost var bound := polls + wait(polls);
      var s := status(polls);
      polls := polls + 1;
      while !DiskReady(s)
        invariant old(polls) < polls <= bound + 1 && s == status(polls - 1)
        invariant forall j :: old(polls) <= j < polls - 1 ==> !DiskReady(status(j))
        decreases bound + 1 - polls
      {
        s := status(polls);
        polls := polls + 1;
      }
    }

    /** readsect: wait, select sector secno, issue READ SECTORS, wait, read 512 bytes to dst. */
    method ReadSect(dst: nat, secno: nat)
      requires Live()
      modifies this`polls, this`loads
      ensures polls > old(polls) + 1
      ensures loads == old(loads) + [Load(dst, secno)]
    {
      WaitDisk();
      WaitDisk();
      loads := loads + [Load(dst, secno)];
    }

    /**
     * readseg: read the sectors holding count bytes from byte offset of the
     * kernel image, the first one to va rounded down to a sector boundary.
     */
    method ReadSeg(va: nat, count: nat, offset: nat)
      requires Live() && SegArgs(va, count, offset)
      modifies this`polls, this`loads
      ensures polls >= old(polls)
      ensures loads == old(loads) + SegLoads(va, count, offset)
    {
      var end := (va + count) % U32;
      var v := if va >= offset % SECTSIZE then va - offset % SECTSIZE else va + U32 - offset % SECTSIZE;
      var secno := offset / SECTSIZE + IMAGE_SECTOR;
      ghost var n := SegSectors(va, count, offset);
      ghost var i := 0;
      StepBelow(v, end, 0);
      while v < end
        invariant i <= n && v == SegStart(va, offset) + SECTSIZE * i && secno == offset / SECTSIZE + IMAGE_SECTOR + i
        invariant v < end <==> i < n
        invariant polls >= old(polls)
        invariant loads == old(loads) + SegLoads(va, count, offset)[..i]
        decreases end - v
      {
        ReadSect(v, secno);
        assert SegLoads(va, count, offset)[..i + 1] == SegLoads(va, count, offset)[..i] + [Load(v, secno)];
        v := v + SECTSIZE;
        secno := secno + 1;
        i := i + 1;
        StepBelow(SegStart(va, offset), end, i);
      }
      assert SegLoads(va, count, offset)[..i] == SegLoads(va, count, offset);
    }

    /**
     * bootmain: read 4 KiB of ELF header to hdrAddr; spin on a bad magic;
     * otherwise load each program segment at its masked address and jump to
     * the masked entry.  hdr and phs are what the header area holds once
     * read: the ELF header and its e_phnum program headers.
     */
    method Bootmain(hdrAddr: nat, hdr: ElfHeader, phs: seq<ProgHeader>) returns (out: Outcome)
      requires Live() && SegArgs(hdrAddr, HEADER_BYTES, 0)
      requires hdr.magic == ELF_MAGIC ==> |phs| == hdr.phnum && SegsArgs(phs)
      modifies this`polls, this`loads
      ensures out == if hdr.magic == ELF_MAGIC then Jump(hdr.entry % ADDR_MASK_LIMIT) else Spin
      ensures loads == old(loads) + SegLoads(hdrAddr, HEADER_BYTES, 0) + (if out.Spin? then [] else PhLoads(phs, |phs|))
    {
      ReadSeg(hdrAddr, HEADER_BYTES, 0);
      if hdr.magic != ELF_MAGIC {
        return Spin;
      }
      LoadSegments(phs);
      out := Jump(hdr.entry % ADDR_MASK_LIMIT);
    }

    /** bootmain's program header loop: readseg for each program header in turn. */
    method LoadSegments(phs: seq<ProgHeader>)
      requires Live() && SegsArgs(phs)
      modifies this`polls, this`loads
      ensures loads == old(loads) + PhLoads(phs, |phs|)
    {
      var k := 0;
      while k < |phs|
        invariant k <= |phs|
        invariant loads == old(loads) + PhLoads(phs, k)
      {
        LoadSegment(phs[k]);
        k := k + 1;
      }
    }

    /** One iteration of bootmain's loop: readseg(p_va & 0xFFFFFF, p_memsz, p_offset). */
    method LoadSegment(ph: ProgHeader)
      requires Live() && SegArgs(SegVa(ph), ph.memsz, ph.offset)
      modifies this`polls, this`loads
      ensures loads == old(loads) + PhSeg(ph)
    {
      ReadSeg(SegVa(ph), ph.memsz, ph.offset);
    }
  }
}
