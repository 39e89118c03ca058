/**
 * The IDE disk driver (kern/drivers/hd.c).
 *
 * Four device slots (primary/secondary channel, master/slave drive) are
 * probed with IDENTIFY at start-up; sectors are then read and written one
 * at a time in 28-bit LBA mode.  The status register is an oracle: the k-th
 * status read of the driver returns `status(k)`, whichever channel it is
 * read from, and `polls` counts the status reads made so far.  Port writes and
 * block transfers are recorded in order as a trace; the sector data itself
 * is not modelled.
 */
module Hd {
  import opened Opt
  import opened PortIo
  import Pic

  const SECTOR_SIZE: nat := 512
  const IDE0_BASE: nat := 0x1F0
  const IDE1_BASE: nat := 0x170
  const MAX_IDE_DEVICES: nat := 4

  const IDE_DATA: nat := 0x0
  const IDE_SECTOR_COUNT: nat := 0x2
  const IDE_LBA_LOW: nat := 0x3
  const IDE_LBA_MID: nat := 0x4
  const IDE_LBA_HIGH: nat := 0x5
  const IDE_DEVICE: nat := 0x6
  const IDE_STATUS: nat := 0x7
  const IDE_COMMAND: nat := 0x7

  const IDE_BSY: bv8 := 0x80
  const IDE_DRDY: bv8 := 0x40
  const IDE_DRQ: bv8 := 0x08
  const IDE_ERR: bv8 := 0x01

  const IDE_CMD_READ: nat := 0x20
  const IDE_CMD_WRITE: nat := 0x30
  const IDE_CMD_IDENTIFY: nat := 0xEC

  const IDE_DEV_MASTER: nat := 0xE0
  const IDE_DEV_SLAVE: nat := 0xF0

  /** Both channels are given IRQ 14 by the kernel's definitions. */
  const IRQ_IDE1: bv16 := 14
  const IRQ_IDE2: bv16 := 14

  /** The number of status polls before a wait gives up. */
  const TIMEOUT: nat := 100000

  const U32_LIMIT: nat := 0x1_0000_0000

  newtype Word = x: int | 0 <= x < 0x10000

  /** The fixed configuration of one slot. */
  datatype Config = Config(channel: nat, drive: nat, base: nat, irq: nat, name: string)

  const CONFIGS: seq<Config> := [
    Config(0, 0, IDE0_BASE, 14, "hda"), Config(0, 1, IDE0_BASE, 14, "hdb"),
    Config(1, 0, IDE1_BASE, 14, "hdc"), Config(1, 1, IDE1_BASE, 14, "hdd")]

  /** One slot of ide_devices: its disk_info_t fields are flattened in. */
  datatype Device = Device(channel: nat, drive: nat, base: nat, irq: nat,
                           size: nat, cylinders: nat, heads: nat, sectors: nat,
                           valid: bool, present: bool, name: string)

  /** A slot as the zero-initialised static array holds it. */
  const ABSENT: Device := Device(0, 0, 0, 0, 0, 0, 0, 0, false, false, "")

  /** The drive-select byte of a slot: 0xF0 for a slave, 0xE0 for a master. */
  function DriveSel(drive: nat): (sel: nat)
    ensures sel == IDE_DEV_MASTER || sel == IDE_DEV_SLAVE
    ensures sel == IDE_DEV_SLAVE <==> drive != 0
  {
    if drive != 0 then IDE_DEV_SLAVE else IDE_DEV_MASTER
  }

  /** BSY clear and DRDY set. */
  predicate Ready(s: bv8) {
    s & (IDE_BSY | IDE_DRDY) == IDE_DRDY
  }

  /** BSY clear and DRQ set. */
  predicate DataReady(s: bv8) {
    s & (IDE_BSY | IDE_DRQ) == IDE_DRQ
  }

  /** ERR set. */
  predicate Failed(s: bv8) {
    s & IDE_ERR != 0
  }

  /** How a wait ended: whether it succeeded, and the index of the status read that would come next. */
  datatype Wait = Wait(ok: bool, stop: nat)

  /**
   * hd_wait_ready_on_base polling from status read `from` while reads
   * remain before `end`: it succeeds just after the first read with BSY
   * clear and DRDY set, and fails at `end` when none is.
   */
  function ReadyWait(status: StatusOracle, from: nat, end: nat): (w: Wait)
    ensures from <= w.stop
    ensures w.ok ==> from < w.stop <= end && Ready(status(w.stop - 1))
    ensures !w.ok ==> w.stop == if end <= from then from else end
    decreases end - from
  {
    if end <= from then Wait(false, from)
    else if Ready(status(from)) then Wait(true, from + 1)
    else ReadyWait(status, from + 1, end)
  }

  /**
   * A ready status at read k, within the polls, ends the wait by k: so a
   * wait that fails saw no ready status, and one that succeeds saw none
   * before its last read.
   */
  lemma {:induction false} ReadyWaitFirst(status: StatusOracle, from: nat, end: nat, k: nat)
    requires from <= k < end && Ready(status(k))
    ensures ReadyWait(status, from, end).ok && ReadyWait(status, from, end).stop <= k + 1
    decreases end - from
  {
    if k > from && !Ready(status(from)) {
      ReadyWaitFirst(status, from + 1, end, k);
    }
  }

  /**
   * hd_wait_data_on_base polling from status read `from` while reads remain
   * before `end`: it succeeds just after the first read with BSY clear and
   * DRQ set, fails just after an earlier read with ERR set, and fails at
   * `end` when neither comes.
   */
  function DataWait(status: StatusOracle, from: nat, end: nat): (w: Wait)
    ensures from <= w.stop
    ensures w.ok ==> from < w.stop <= end && DataReady(status(w.stop - 1))
    ensures !w.ok ==> w.stop == (if end <= from then from else end) ||
                      (from < w.stop <= end && !DataReady(status(w.stop - 1)) && Failed(status(w.stop - 1)))
    decreases end - from
  {
    if end <= from then Wait(false, from)
    else if DataReady(status(from)) then Wait(true, from + 1)
    else if Failed(status(from)) then Wait(false, from + 1)
    else DataWait(status, from + 1, end)
  }

  /** A read with data ready or ERR set, within the polls, ends a data wait by that read. */
  lemma {:induction false} DataWaitFirst(status: StatusOracle, from: nat, end: nat, k: nat)
    requires from <= k < end && (DataReady(status(k)) || Failed(status(k)))
    ensures DataWait(status, from, end).stop <= k + 1
    decreases end - from
  {
    if k > from && !DataReady(status(from)) && !Failed(status(from)) {
      DataWaitFirst(status, from + 1, end, k);
    }
  }

  /** How a run of the driver went: whether every wait succeeded, the next status read and the events issued. */
  datatype Run = Run(ok: bool, stop: nat, events: nat)

  /**
   * The part of a sector that reads and writes share, from status read
   * `from`: the ready wait, the six command writes, the data wait and the
   * 256-word transfer.  The first wait that fails ends it.
   */
  function CoreRun(status: StatusOracle, from: nat): (o: Run)
    ensures from <= o.stop
    ensures o.events == 0 || o.events == 6 || o.events == 7
    ensures o.ok <==> o.events == 7
    ensures o.events == 0 <==> !ReadyWait(status, from, from + TIMEOUT).ok
  {
    var w := ReadyWait(status, from, from + TIMEOUT);
    if !w.ok then Run(false, w.stop, 0)
    else
      var d := DataWait(status, w.stop, w.stop + TIMEOUT);
      Run(d.ok, d.stop, if d.ok then 7 else 6)
  }

  /**
   * One sector of hd_read_device or hd_write_device whose first status
   * read is `from`: the shared part, then for a write a second ready wait
   * once the data has gone out.
   */
  function SectorRun(status: StatusOracle, from: nat, write: bool): (o: Run)
    ensures from <= o.stop
    ensures o.events <= 7 && (o.ok ==> o.events == 7)
    ensures !write ==> (o.ok <==> o.events == 7)
    ensures o.events == 0 <==> !ReadyWait(status, from, from + TIMEOUT).ok
  {
    var c := CoreRun(status, from);
    if !c.ok || !write then c
    else
      var w := ReadyWait(status, c.stop, c.stop + TIMEOUT);
      Run(w.ok, w.stop, 7)
  }

  /**
   * The first n sectors of a transfer whose first status read is `from`:
   * sector after sector, each starting at the read after the previous
   * one's, until a sector fails.  It succeeds only when every wait does.
   */
  function TransferRun(status: StatusOracle, from: nat, n: nat, write: bool): (o: Run)
    ensures from <= o.stop
    ensures o.events <= 7 * n && (o.ok ==> o.events == 7 * n)
    ensures !write ==> (o.ok <==> o.events == 7 * n)
    decreases n
  {
    if n == 0 then Run(true, from, 0)
    else
      var done := TransferRun(status, from, n - 1, write);
      if !done.ok then done
      else
        var s := SectorRun(status, done.stop, write);
        Run(s.ok, s.stop, 7 * (n - 1) + s.events)
  }

  /** Once a sector fails, no later sector runs: the transfer's run is the one that stopped. */
  lemma {:induction false} StopsAtFailure(status: StatusOracle, from: nat, k: nat, m: nat, write: bool)
    requires k <= m && !TransferRun(status, from, k, write).ok
    ensures TransferRun(status, from, m, write) == TransferRun(status, from, k, write)
    decreases m
  {
    if k < m {
      StopsAtFailure(status, from, k, m - 1, write);
    }
  }

  /** After i sectors that all succeeded, sector i starts at the next read and adds its own run. */
  lemma RunStep(status: StatusOracle, from: nat, i: nat, write: bool)
    requires TransferRun(status, from, i, write).ok
    ensures var s := SectorRun(status, TransferRun(status, from, i, write).stop, write);
      TransferRun(status, from, i + 1, write) == Run(s.ok, s.stop, 7 * i + s.events)
  {
  }

  /**
   * When sector i of n fails after i successes, the whole transfer's run
   * is the one that stopped there: it ends at the failed sector's last read,
   * after the first i sectors' events and the failed sector's.
   */
  lemma FailedRun(status: StatusOracle, from: nat, i: nat, n: nat, write: bool)
    requires i < n && TransferRun(status, from, i, write).ok
    requires !SectorRun(status, TransferRun(status, from, i, write).stop, write).ok
    ensures var s := SectorRun(status, TransferRun(status, from, i, write).stop, write);
      var o := TransferRun(status, from, n, write);
      !o.ok && o.stop == s.stop && o.events == 7 * i + s.events
  {
    RunStep(status, from, i, write);
    StopsAtFailure(status, from, i + 1, n, write);
  }

  /** On a disk whose status always reads DRDY and DRQ, each wait ends at its first poll. */
  lemma HealthySector(status: StatusOracle, from: nat, write: bool)
    requires forall k :: status(k) == 0x48
    ensures SectorRun(status, from, write) == Run(true, from + if write then 3 else 2, 7)
  {
    assert Ready(status(from)) && DataReady(status(from + 1)) && Ready(status(from + 2));
    assert ReadyWait(status, from, from + TIMEOUT) == Wait(true, from + 1);
    assert DataWait(status, from + 1, from + 1 + TIMEOUT) == Wait(true, from + 2);
    assert ReadyWait(status, from + 2, from + 2 + TIMEOUT) == Wait(true, from + 3);
  }

  /**
   * A disk whose status always reads DRDY and DRQ with BSY and ERR clear
   * answers every wait at its first poll: a transfer of n sectors succeeds
   * with two status reads per sector, three for a write.
   */
  lemma {:induction false} HealthyDisk(status: StatusOracle, from: nat, n: nat, write: bool)
    requires forall k :: status(k) == 0x48
    ensures TransferRun(status, from, n, write) == Run(true, from + (if write then 3 else 2) * n, 7 * n)
    decreases n
  {
    if n > 0 {
      HealthyDisk(status, from, n - 1, write);
      HealthySector(status, from + (if write then 3 else 2) * (n - 1), write);
    }
  }

  /** A ready wait on a disk that stays busy uses every poll and fails. */
  lemma {:induction false} BusyNeverReady(status: StatusOracle, from: nat, end: nat)
    requires forall k :: status(k) == 0x80
    requires from <= end
    ensures ReadyWait(status, from, end) == Wait(false, end)
    decreases end - from
  {
    if from < end {
      BusyNeverReady(status, from + 1, end);
    }
  }

  /** A disk that stays busy fails any transfer of at least one sector before issuing anything, after TIMEOUT polls. */
  lemma BusyDisk(status: StatusOracle, from: nat, n: nat, write: bool)
    requires forall k :: status(k) == 0x80
    requires n > 0
    ensures TransferRun(status, from, n, write) == Run(false, from + TIMEOUT, 0)
  {
    BusyNeverReady(status, from, from + TIMEOUT);
    assert TransferRun(status, from, 1, write) == Run(false, from + TIMEOUT, 0);
    StopsAtFailure(status, from, 1, n, write);
  }

  /** The 32-bit little-endian value of words 60 and 61 of IDENTIFY data: the addressable sector count. */
  function Lba28Sectors(ident: seq<Word>): nat
    requires |ident| == 256
  {
    ident[60] as nat + 0x10000 * ident[61] as nat
  }

  /** cylinders * heads * sectors from IDENTIFY words 1, 3 and 6, unbounded. */
  function Chs(ident: seq<Word>): nat
    requires |ident| == 256
  {
    ident[1] as nat * ident[3] as nat * ident[6] as nat
  }

  /** 2^31: one more than the largest value of a signed 32-bit int, the type the CHS product is computed in. */
  const I32_LIMIT: nat := 0x8000_0000

  /**
   * The slot hd_detect_device fills from IDENTIFY data.  When words 60-61
   * are 0 the size is cylinders * heads * sectors, stored into a uint32_t.
   * Beyond 2^31 the product is taken modulo 2^32; IdentifiedSizeExact
   * gives the range where the source defines it.
   */
  function Identified(c: Config, ident: seq<Word>): (d: Device)
    requires |ident| == 256
    ensures d.present && d.valid
    ensures d.size == if Lba28Sectors(ident) != 0 then Lba28Sectors(ident)
                      else Chs(ident) % U32_LIMIT
  {
    var size := Lba28Sectors(ident);
    Device(c.channel, c.drive, c.base, c.irq,
           if size == 0 then Chs(ident) % U32_LIMIT else size,
           ident[1] as nat, ident[3] as nat, ident[6] as nat, true, true, c.name)
  }

  /**
   * The three CHS fields are uint16_t, promoted to int for the product, so
   * the product is defined only while it and cylinders * heads stay below
   * 2^31; then the size is the product exactly, with no wrap-around.
   */
  lemma IdentifiedSizeExact(c: Config, ident: seq<Word>)
    requires |ident| == 256 && Lba28Sectors(ident) == 0
    requires ident[1] as nat * ident[3] as nat < I32_LIMIT
    requires Chs(ident) < I32_LIMIT
    ensures Identified(c, ident).size == Chs(ident)
  {
    assert Identified(c, ident).size == Chs(ident) % U32_LIMIT;
    SmallMod(Chs(ident), U32_LIMIT);
  }

  /** A number below the modulus is its own remainder. */
  lemma SmallMod(x: nat, m: nat)
    requires x < m
    ensures x % m == x
  {
  }

  /** The number of present slots. */
  function CountPresent(s: seq<Device>): nat {
    if |s| == 0 then 0 else CountPresent(s[..|s| - 1]) + (if s[|s| - 1].present then 1 else 0)
  }

  /**
   * The device register byte: the drive-select byte or'ed with LBA bits
   * 24-27.  The select byte's low nibble is 0, so the or is a sum.
   */
  function DeviceByte(sel: nat, lba: nat): (b: nat)
    requires sel == IDE_DEV_MASTER || sel == IDE_DEV_SLAVE
    ensures b < 256
  {
    sel + (lba / 0x100_0000) % 16
  }

  /** The six register writes that start a one-sector command at a 32-bit LBA. */
  function SectorCommand(base: nat, sel: nat, lba: nat, cmd: nat): (w: seq<Event>)
    requires sel == IDE_DEV_MASTER || sel == IDE_DEV_SLAVE
    ensures |w| == 6
  {
    [OutB(base + IDE_SECTOR_COUNT, 1),
     OutB(base + IDE_LBA_LOW, lba % 256),
     OutB(base + IDE_LBA_MID, lba / 256 % 256),
     OutB(base + IDE_LBA_HIGH, lba / 0x1_0000 % 256),
     OutB(base + IDE_DEVICE, DeviceByte(sel, lba)),
     OutB(base + IDE_COMMAND, cmd)]
  }

  /**
   * For an LBA below 2^28 the low, middle and high bytes and the low nibble
   * of the device byte put the LBA back together, and the device byte's
   * high nibble is the drive select.
   */
  lemma SectorCommandLba(base: nat, sel: nat, lba: nat, cmd: nat)
    requires sel == IDE_DEV_MASTER || sel == IDE_DEV_SLAVE
    requires lba < 0x1000_0000
    ensures var w := SectorCommand(base, sel, lba, cmd);
      w[1].value as nat + 0x100 * w[2].value as nat + 0x1_0000 * w[3].value as nat
        + 0x100_0000 * (w[4].value as nat % 16) == lba &&
      w[4].value as nat / 16 * 16 == sel
  {
    LbaDigits(lba);
  }

  /** A 28-bit number written in base 256 with a top nibble. */
  lemma LbaDigits(lba: nat)
    requires lba < 0x1000_0000
    ensures lba % 256 + 0x100 * (lba / 256 % 256) + 0x1_0000 * (lba / 0x1_0000 % 256)
            + 0x100_0000 * (lba / 0x100_0000 % 16) == lba
  {
    var a := lba / 256;
    var b := a / 256;
    var c := b / 256;
    assert lba == a * 256 + lba % 256;
    assert a == b * 256 + a % 256;
    assert b == c * 256 + b % 256;
    assert lba / 0x1_0000 == b;
    assert lba / 0x100_0000 == c;
    assert c < 16;
  }

  /** The trace of one sector of a transfer: the command, then the 256-word data transfer. */
  function SectorEvents(base: nat, sel: nat, lba: nat, write: bool): (w: seq<Event>)
    requires sel == IDE_DEV_MASTER || sel == IDE_DEV_SLAVE
    ensures |w| == 7
  {
    SectorCommand(base, sel, lba, if write then IDE_CMD_WRITE else IDE_CMD_READ) +
    [if write then OutWords(base + IDE_DATA, SECTOR_SIZE / 2) else InWords(base + IDE_DATA, SECTOR_SIZE / 2)]
  }

  /** A sector's events cut where a failed wait stops it: nothing, the command, or all of it. */
  lemma SectorEventsParts(base: nat, sel: nat, lba: nat, write: bool)
    requires sel == IDE_DEV_MASTER || sel == IDE_DEV_SLAVE
    ensures var ev := SectorEvents(base, sel, lba, write);
      ev[..0] == [] && ev[..6] == SectorCommand(base, sel, lba, if write then IDE_CMD_WRITE else IDE_CMD_READ) &&
      ev == ev[..6] + [if write then OutWords(base + IDE_DATA, SECTOR_SIZE / 2) else InWords(base + IDE_DATA, SECTOR_SIZE / 2)] &&
      ev[..7] == ev
  {
  }

  /** The trace of the first n sectors of a transfer from secno; sector i goes to LBA secno + i in 32 bits. */
  function TransferEvents(base: nat, sel: nat, secno: nat, n: nat, write: bool): (w: seq<Event>)
    requires sel == IDE_DEV_MASTER || sel == IDE_DEV_SLAVE
    ensures |w| == 7 * n
  {
    if n == 0 then []
    else TransferEvents(base, sel, secno, n - 1, write) + SectorEvents(base, sel, (secno + n - 1) % U32_LIMIT, write)
  }

  /** A transfer one sector longer adds that sector's events at the end. */
  lemma TransferStep(base: nat, sel: nat, secno: nat, i: nat, write: bool)
    requires sel == IDE_DEV_MASTER || sel == IDE_DEV_SLAVE
    ensures TransferEvents(base, sel, secno, i + 1, write) ==
            TransferEvents(base, sel, secno, i, write) + SectorEvents(base, sel, (secno + i) % U32_LIMIT, write)
  {
  }

  /** A shorter transfer's trace is a prefix of a longer one's. */
  lemma {:induction false} TransferPrefix(base: nat, sel: nat, secno: nat, m: nat, n: nat, write: bool)
    requires sel == IDE_DEV_MASTER || sel == IDE_DEV_SLAVE
    requires m <= n
    ensures TransferEvents(base, sel, secno, n, write)[..7 * m] == TransferEvents(base, sel, secno, m, write)
  {
    if m < n {
      TransferPrefix(base, sel, secno, m, n - 1, write);
      var prev := TransferEvents(base, sel, secno, n - 1, write);
      TransferStep(base, sel, secno, n - 1, write);
      assert TransferEvents(base, sel, secno, n, write)[..7 * m] == prev[..7 * m];
    }
  }

  /** A prefix of a prefix is a prefix of the whole. */
  lemma SlicePrefix(full: seq<Event>, mid: seq<Event>, t: seq<Event>)
    requires |mid| <= |full| && full[..|mid|] == mid
    requires |t| <= |mid| && t == mid[..|t|]
    ensures full[..|t|] == t
  {
    assert full[..|t|] == full[..|mid|][..|t|];
  }

  /** Extending a prefix relation by a common head. */
  lemma AppendPrefix(head: seq<Event>, a: seq<Event>, b: seq<Event>)
    requires |b| <= |a| && a[..|b|] == b
    ensures (head + a)[..|head| + |b|] == head + b
  {
    assert (head + a)[..|head| + |b|] == head + a[..|b|];
  }

  /**
   * A transfer that stops after k events of sector i has issued the first
   * 7 * i + k events of the whole transfer: all earlier sectors, then a
   * prefix of sector i.
   */
  lemma StoppedPrefix(base: nat, sel: nat, secno: nat, i: nat, n: nat, k: nat, write: bool)
    requires sel == IDE_DEV_MASTER || sel == IDE_DEV_SLAVE
    requires i < n && k <= 7
    ensures TransferEvents(base, sel, secno, n, write)[..7 * i + k] ==
      TransferEvents(base, sel, secno, i, write) + SectorEvents(base, sel, (secno + i) % U32_LIMIT, write)[..k]
  {
    TransferPrefix(base, sel, secno, i + 1, n, write);
    TransferStep(base, sel, secno, i, write);
    var whole := TransferEvents(base, sel, secno, n, write);
    var upto := TransferEvents(base, sel, secno, i + 1, write);
    assert whole[..7 * i + k] == upto[..7 * i + k];
  }

  /**
   * The trace side of one sector: after the first i sectors' events, sector
   * i issued its first k; that is the first 7 * i + k events of any longer
   * transfer, and all of sector i when k is 7.
   */
  lemma TraceAdvance(base: nat, sel: nat, secno: nat, n: nat, i: nat, write: bool,
                     t0: seq<Event>, t1: seq<Event>, t: seq<Event>, k: nat)
    requires sel == IDE_DEV_MASTER || sel == IDE_DEV_SLAVE
    requires i < n && k <= 7 && t1 == t0 + TransferEvents(base, sel, secno, i, write)
    requires t == t1 + SectorEvents(base, sel, (secno + i) % U32_LIMIT, write)[..k]
    ensures k == 7 ==> t == t0 + TransferEvents(base, sel, secno, i + 1, write)
    ensures t == t0 + TransferEvents(base, sel, secno, n, write)[..7 * i + k]
  {
    var ev := SectorEvents(base, sel, (secno + i) % U32_LIMIT, write);
    TransferStep(base, sel, secno, i, write);
    StoppedPrefix(base, sel, secno, i, n, k, write);
    if k == 7 {
      assert ev[..k] == ev;
    }
  }

  /**
   * One sector of a transfer, as values: after i good sectors from read p0
   * and trace t0, sector i ran from read `at` on trace t1 and left the next
   * read p and trace t.  On success the first i + 1 sectors are done; on
   * failure the whole transfer's run has ended here.
   */
  lemma SectorAdvance(status: StatusOracle, base: nat, sel: nat, secno: nat, n: nat, i: nat, write: bool,
                      t0: seq<Event>, p0: nat, t1: seq<Event>, at: nat, t: seq<Event>, p: nat)
    requires sel == IDE_DEV_MASTER || sel == IDE_DEV_SLAVE
    requires i < n && t1 == t0 + TransferEvents(base, sel, secno, i, write)
    requires TransferRun(status, p0, i, write).ok && at == TransferRun(status, p0, i, write).stop
    requires var s := SectorRun(status, at, write);
      p == s.stop && t == t1 + SectorEvents(base, sel, (secno + i) % U32_LIMIT, write)[..s.events]
    ensures SectorRun(status, at, write).ok ==>
      t == t0 + TransferEvents(base, sel, secno, i + 1, write) &&
      TransferRun(status, p0, i + 1, write).ok && p == TransferRun(status, p0, i + 1, write).stop
    ensures !SectorRun(status, at, write).ok ==>
      var o := TransferRun(status, p0, n, write);
      !o.ok && p == o.stop && t == t0 + TransferEvents(base, sel, secno, n, write)[..o.events]
  {
    var s := SectorRun(status, at, write);
    TraceAdvance(base, sel, secno, n, i, write, t0, t1, t, s.events);
    if s.ok {
      RunStep(status, p0, i, write);
    } else {
      FailedRun(status, p0, i, n, write);
    }
  }

  /**
   * The range check as written: secno + nsecs is computed in 32 bits, so a
   * sum past 2^32 wraps and a request near the end of the LBA space passes.
   */
  predicate InRangeAsWritten(secno: nat, nsecs: nat, size: nat) {
    (secno + nsecs) % U32_LIMIT <= size
  }

  /** The range check as intended: the last sector transferred is below the size. */
  predicate InRange(secno: nat, nsecs: nat, size: nat) {
    secno + nsecs <= size
  }

  /** A request of two sectors at 0xFFFFFFFF passes the written check on a 100-sector disk. */
  lemma RangeCheckWraps()
    ensures InRangeAsWritten(0xFFFF_FFFF, 2, 100) && !InRange(0xFFFF_FFFF, 2, 100)
  {
  }

  /**
   * Under the intended check every sector of a transfer is on the disk and
   * its 32-bit LBA is exactly secno + i, with no wrap-around.
   */
  lemma InRangeLba(secno: nat, nsecs: nat, size: nat, i: nat)
    requires InRange(secno, nsecs, size) && size < U32_LIMIT && i < nsecs
    ensures (secno + i) % U32_LIMIT == secno + i && secno + i < size
  {
  }

  /**
   * The request the written check lets through reaches the disk: two
   * sectors at 0xFFFFFFFF are sent to LBA 0xFFFFFFFF and then to LBA 0.
   */
  lemma WrappedTransfer(base: nat, sel: nat, write: bool)
    requires sel == IDE_DEV_MASTER || sel == IDE_DEV_SLAVE
    ensures TransferEvents(base, sel, 0xFFFF_FFFF, 2, write) ==
      SectorEvents(base, sel, 0xFFFF_FFFF, write) + SectorEvents(base, sel, 0, write)
  {
    TransferStep(base, sel, 0xFFFF_FFFF, 0, write);
    TransferStep(base, sel, 0xFFFF_FFFF, 1, write);
    assert TransferEvents(base, sel, 0xFFFF_FFFF, 0, write) == [];
  }

  /** Without wrap-around the two checks agree. */
  lemma RangeChecksAgree(secno: nat, nsecs: nat, size: nat)
    requires secno + nsecs < U32_LIMIT
    ensures InRangeAsWritten(secno, nsecs, size) <==> InRange(secno, nsecs, size)
  {
  }

  /** The two register writes of a probe: drive select, then IDENTIFY. */
  function ProbeWrites(c: Config): (w: seq<Event>)
    ensures |w| == 2 && w[1] == OutB(c.base + IDE_COMMAND, IDE_CMD_IDENTIFY)
  {
    [OutB(c.base + IDE_DEVICE, DriveSel(c.drive)), OutB(c.base + IDE_COMMAND, IDE_CMD_IDENTIFY)]
  }

  /**
   * Whether a probe whose first status poll is `from` finds a device: the
   * fifth status is neither 0 nor 0xFF and the data wait after it succeeds.
   */
  predicate DetectOk(status: StatusOracle, from: nat) {
    status(from + 4) != 0 && status(from + 4) != 0xFF && DataWait(status, from + 5, from + 5 + TIMEOUT).ok
  }

  /** The status read after a probe whose first poll is `from`: five polls, then the data wait's when the fifth status is neither 0 nor 0xFF. */
  function DetectStop(status: StatusOracle, from: nat): (stop: nat)
    ensures from + 5 <= stop
  {
    var s := status(from + 4);
    if s == 0 || s == 0xFF then from + 5 else DataWait(status, from + 5, from + 5 + TIMEOUT).stop
  }

  /** The first status poll of the probe of slot i, when hd_init's probing starts at poll `from`. */
  function ProbeStart(status: StatusOracle, from: nat, i: nat): nat
    decreases i
  {
    if i == 0 then from else DetectStop(status, ProbeStart(status, from, i - 1))
  }

  /** The events a probe of slot id leaves: its two writes, then the identification block when a device answered. */
  function DetectEvents(id: nat, found: bool): seq<Event>
    requires id < MAX_IDE_DEVICES
  {
    ProbeWrites(CONFIGS[id]) + (if found then [InWords(CONFIGS[id].base + IDE_DATA, 256)] else [])
  }

  /** The events of probing the slots of ds in slot order, each by whether it was found. */
  function ProbeTrace(ds: seq<Device>): seq<Event>
    requires |ds| <= MAX_IDE_DEVICES
  {
    if |ds| == 0 then [] else ProbeTrace(ds[..|ds| - 1]) + DetectEvents(|ds| - 1, ds[|ds| - 1].present)
  }

  /** Probing one slot more appends that slot's events, whatever later slots hold. */
  lemma ProbeTraceStep(before: seq<Device>, after: seq<Device>, i: nat)
    requires i < MAX_IDE_DEVICES && i < |before| && i < |after| && before[..i] == after[..i]
    ensures ProbeTrace(after[..i + 1]) == ProbeTrace(before[..i]) + DetectEvents(i, after[i].present)
    ensures CountPresent(after[..i + 1]) == CountPresent(before[..i]) + if after[i].present then 1 else 0
  {
    assert after[..i + 1][..i] == before[..i];
  }

  /**
   * The first i slots of ds have been probed from the slots d0 by a probe
   * sequence whose first status read was p0: each holds its identified
   * device exactly when its probe found one, and is otherwise unchanged;
   * the later slots are still as in d0.
   */
  ghost predicate Probed(status: StatusOracle, p0: nat, ids: seq<seq<Word>>, d0: seq<Device>, ds: seq<Device>, i: nat) {
    |ids| == |d0| == |ds| == MAX_IDE_DEVICES && i <= MAX_IDE_DEVICES &&
    (forall j :: 0 <= j < MAX_IDE_DEVICES ==> |ids[j]| == 256) &&
    (forall j :: 0 <= j < i ==> ds[j] == if ds[j].present then Identified(CONFIGS[j], ids[j]) else d0[j]) &&
    (forall j :: 0 <= j < i ==> (ds[j].present <==> DetectOk(status, ProbeStart(status, p0, j)))) &&
    (forall j :: i <= j < MAX_IDE_DEVICES ==> ds[j] == d0[j])
  }

  /** Probing slot i, and changing nothing else, extends Probed by one slot. */
  lemma ProbedStep(status: StatusOracle, p0: nat, ids: seq<seq<Word>>, d0: seq<Device>,
                   before: seq<Device>, after: seq<Device>, i: nat)
    requires Probed(status, p0, ids, d0, before, i) && i < MAX_IDE_DEVICES && |after| == MAX_IDE_DEVICES
    requires forall j :: 0 <= j < MAX_IDE_DEVICES && j != i ==> after[j] == before[j]
    requires after[i] == if after[i].present then Identified(CONFIGS[i], ids[i]) else before[i]
    requires after[i].present <==> DetectOk(status, ProbeStart(status, p0, i))
    ensures Probed(status, p0, ids, d0, after, i + 1)
  {
  }

  class Ide {
    /** The status register: the k-th status read returns status(k). */
    const status: StatusOracle
    /** The number of status polls made so far. */
    var polls: nat
    /** ide_devices. */
    const devs: array<Device>
    /** num_devices. */
    var numDevices: nat
    /** The port writes and block transfers issued so far, oldest first. */
    var trace: seq<Event>

    predicate Valid()
      reads this
    {
      devs.Length == MAX_IDE_DEVICES
    }

    /** The driver before hd_init: every slot zeroed, no device counted. */
    constructor (hw: StatusOracle)
      ensures Valid() && fresh(devs) && status == hw
      ensures polls == 0 && numDevices == 0 && trace == []
      ensures forall i :: 0 <= i < MAX_IDE_DEVICES ==> devs[i] == ABSENT
    {
      status := hw;
      polls := 0;
      devs := new Device[MAX_IDE_DEVICES](_ => ABSENT);
      numDevices := 0;
      trace := [];
    }

    /**
     * hd_wait_ready_on_base: poll up to TIMEOUT times; 0 at the first
     * status with BSY clear and DRDY set, -1 if there is none.
     */
    method WaitReady() returns (r: int)
      modifies this`polls
      ensures r == 0 || r == -1
      ensures var w := ReadyWait(status, old(polls), old(polls) + TIMEOUT);
        (r == 0 <==> w.ok) && polls == w.stop
    {
      var timeout: nat := TIMEOUT;
      while timeout > 0
        invariant timeout <= TIMEOUT && polls == old(polls) + (TIMEOUT - timeout)
        invariant ReadyWait(status, old(polls), old(polls) + TIMEOUT) == ReadyWait(status, polls, polls + timeout)
      {
        var s := status(polls);
        polls := polls + 1;
        timeout := timeout - 1;
        if Ready(s) {
          return 0;
        }
      }
      return -1;
    }

    /**
     * hd_wait_data_on_base: poll up to TIMEOUT times; 0 at the first status
     * with BSY clear and DRQ set, -1 at an earlier status with ERR set or
     * when the polls run out.
     */
    method WaitData() returns (r: int)
      modifies this`polls
      ensures r == 0 || r == -1
      ensures var w := DataWait(status, old(polls), old(polls) + TIMEOUT);
        (r == 0 <==> w.ok) && polls == w.stop
    {
      var timeout: nat := TIMEOUT;
      while timeout > 0
        invariant timeout <= TIMEOUT && polls == old(polls) + (TIMEOUT - timeout)
        invariant DataWait(status, old(polls), old(polls) + TIMEOUT) == DataWait(status, polls, polls + timeout)
      {
        var s := status(polls);
        polls := polls + 1;
        timeout := timeout - 1;
        if DataReady(s) {
          return 0;
        }
        if Failed(s) {
          return -1;
        }
      }
      return -1;
    }

    /**
     * The start of hd_detect_device: select the drive, let four status
     * polls pass, send IDENTIFY and read the status once more.
     */
    method Probe(c: Config) returns (s: bv8)
      modifies this`polls, this`trace
      ensures polls == old(polls) + 5 && s == status(old(polls) + 4)
      ensures trace == old(trace) + ProbeWrites(c)
    {
      trace := trace + [OutB(c.base + IDE_DEVICE, DriveSel(c.drive))];
      var i := 0;
      while i < 4
        invariant i <= 4 && polls == old(polls) + i
        invariant trace == old(trace) + [OutB(c.base + IDE_DEVICE, DriveSel(c.drive))]
      {
        polls := polls + 1;
        i := i + 1;
      }
      trace := trace + [OutB(c.base + IDE_COMMAND, IDE_CMD_IDENTIFY)];
      s := status(polls);
      polls := polls + 1;
    }

    /**
     * hd_detect_device: no device when the status after IDENTIFY is 0 or
     * 0xFF or the data wait fails, and the slot is then left alone;
     * otherwise read the 256 identification words `ident` and fill the
     * slot from them.
     */
    method Detect(id: nat, ident: seq<Word>) returns (r: int)
      requires Valid() && id < MAX_IDE_DEVICES && |ident| == 256
      modifies this`polls, this`trace, devs
      ensures r == 0 || r == -1
      ensures r == 0 <==> DetectOk(status, old(polls))
      ensures polls == DetectStop(status, old(polls))
      ensures forall j :: 0 <= j < MAX_IDE_DEVICES && j != id ==> devs[j] == old(devs[j])
      ensures devs[id] == if r == 0 then Identified(CONFIGS[id], ident) else old(devs[id])
      ensures trace == old(trace) + DetectEvents(id, r == 0)
    {
      var c := CONFIGS[id];
      var s := Probe(c);
      if s == 0 || s == 0xFF {
        assert trace == old(trace) + DetectEvents(id, false);
        return -1;
      }
      r := WaitData();
      if r != 0 {
        assert trace == old(trace) + DetectEvents(id, false);
        return -1;
      }
      trace := trace + [InWords(c.base + IDE_DATA, 256)];
      devs[id] := Identified(c, ident);
    }

    /** The first loop of hd_init: clear `present` and `valid` in every slot. */
    method ClearSlots()
      requires Valid()
      modifies devs
      ensures forall j :: 0 <= j < MAX_IDE_DEVICES ==> devs[j] == old(devs[j]).(present := false, valid := false)
    {
      var i := 0;
      while i < MAX_IDE_DEVICES
        invariant i <= MAX_IDE_DEVICES
        invariant forall j :: 0 <= j < i ==> devs[j] == old(devs[j]).(present := false, valid := false)
        invariant forall j :: i <= j < MAX_IDE_DEVICES ==> devs[j] == old(devs[j])
      {
        devs[i] := devs[i].(present := false, valid := false);
        i := i + 1;
      }
    }

    /**
     * The second loop of hd_init: probe the slots in order and count the
     * devices found; each probe's events follow the previous slot's.
     * `ids[i]` is what IDENTIFY returns for slot i.
     */
    method DetectAll(ids: seq<seq<Word>>)
      requires Valid() && |ids| == MAX_IDE_DEVICES
      requires forall i :: 0 <= i < MAX_IDE_DEVICES ==> |ids[i]| == 256
      requires forall i :: 0 <= i < MAX_IDE_DEVICES ==> !devs[i].present
      modifies this`polls, this`trace, this`numDevices, devs
      ensures numDevices == CountPresent(devs[..])
      ensures forall i :: 0 <= i < MAX_IDE_DEVICES ==>
        devs[i] == if devs[i].present then Identified(CONFIGS[i], ids[i]) else old(devs[i])
      ensures trace == old(trace) + ProbeTrace(devs[..])
      ensures polls == ProbeStart(status, old(polls), MAX_IDE_DEVICES)
      ensures forall i :: 0 <= i < MAX_IDE_DEVICES ==>
        (devs[i].present <==> DetectOk(status, ProbeStart(status, old(polls), i)))
    {
      ghost var d0 := devs[..];
      numDevices := 0;
      var i := 0;
      assert devs[..0] == [];
      while i < MAX_IDE_DEVICES
        invariant i <= MAX_IDE_DEVICES
        invariant numDevices == CountPresent(devs[..i])
        invariant trace == old(trace) + ProbeTrace(devs[..i])
        invariant polls == ProbeStart(status, old(polls), i)
        invariant Probed(status, old(polls), ids, d0, devs[..], i)
      {
        ghost var before := devs[..];
        DetectNext(i, ids[i], old(trace));
        ProbedStep(status, old(polls), ids, d0, before, devs[..], i);
        i := i + 1;
      }
      assert devs[..i] == devs[..];
    }

    /** One round of hd_init's second loop: probe slot i and count it when found. */
    method DetectNext(i: nat, ident: seq<Word>, ghost t0: seq<Event>)
      requires Valid() && i < MAX_IDE_DEVICES && |ident| == 256 && !devs[i].present
      requires numDevices == CountPresent(devs[..i]) && trace == t0 + ProbeTrace(devs[..i])
      modifies this`polls, this`trace, this`numDevices, devs
      ensures numDevices == CountPresent(devs[..i + 1]) && trace == t0 + ProbeTrace(devs[..i + 1])
      ensures devs[i] == if devs[i].present then Identified(CONFIGS[i], ident) else old(devs[i])
      ensures forall j :: 0 <= j < MAX_IDE_DEVICES && j != i ==> devs[j] == old(devs[j])
      ensures (devs[i].present <==> DetectOk(status, old(polls))) && polls == DetectStop(status, old(polls))
    {
      ghost var before := devs[..];
      var r := Detect(i, ident);
      ghost var after := devs[..];
      assert after[..i] == before[..i];
      ProbeTraceStep(before, after, i);
      assert after[i].present <==> r == 0;
      if r == 0 {
        numDevices := numDevices + 1;
      }
    }

    /**
     * hd_init: unmask both channels' IRQ lines, clear `present` and `valid`
     * in every slot, then probe the four slots in order and count the
     * devices found.
     */
    method Init(pic: Pic.Controller, ids: seq<seq<Word>>)
      requires Valid() && |ids| == MAX_IDE_DEVICES
      requires forall i :: 0 <= i < MAX_IDE_DEVICES ==> |ids[i]| == 256
      modifies this, devs, pic
      ensures Valid()
      ensures numDevices == CountPresent(devs[..])
      ensures forall i :: 0 <= i < MAX_IDE_DEVICES ==>
        devs[i] == if devs[i].present then Identified(CONFIGS[i], ids[i])
                   else old(devs[i]).(present := false, valid := false)
      ensures pic.irqMask == Pic.Enabled(Pic.Enabled(old(pic.irqMask), IRQ_IDE1), IRQ_IDE2)
      ensures var m1 := Pic.Enabled(old(pic.irqMask), IRQ_IDE1);
        pic.trace == old(pic.trace) + [OutB(Pic.PIC1_IMR, Pic.Lo(m1)), OutB(Pic.PIC2_IMR, Pic.Hi(m1))] +
          [OutB(Pic.PIC1_IMR, Pic.Lo(pic.irqMask)), OutB(Pic.PIC2_IMR, Pic.Hi(pic.irqMask))]
      ensures trace == old(trace) + ProbeTrace(devs[..])
      ensures polls == ProbeStart(status, old(polls), MAX_IDE_DEVICES)
      ensures forall i :: 0 <= i < MAX_IDE_DEVICES ==>
        (devs[i].present <==> DetectOk(status, ProbeStart(status, old(polls), i)))
    {
      pic.Enable(IRQ_IDE1);
      pic.Enable(IRQ_IDE2);
      ClearSlots();
      DetectAll(ids);
    }

    /**
     * One sector of hd_read_device or hd_write_device: wait until ready,
     * issue the command, wait for data, move the 256 words, and for a
     * write wait until ready again.  On a failed wait it stops, having
     * issued a prefix of the sector's events.
     */
    method Sector(base: nat, sel: nat, lba: nat, write: bool) returns (r: int)
      requires sel == IDE_DEV_MASTER || sel == IDE_DEV_SLAVE
      modifies this`polls, this`trace
      ensures r == 0 || r == -1
      ensures var o := SectorRun(status, old(polls), write);
        (r == 0 <==> o.ok) && polls == o.stop &&
        trace == old(trace) + SectorEvents(base, sel, lba, write)[..o.events]
    {
      r := SectorCore(base, sel, lba, write);
      if r != 0 {
        return -1;
      }
      if write {
        var w := WaitReady();
        if w != 0 {
          return -1;
        }
      }
      return 0;
    }

    /** The part of Sector that reads and writes share: ready wait, command, data wait, data. */
    method SectorCore(base: nat, sel: nat, lba: nat, write: bool) returns (r: int)
      requires sel == IDE_DEV_MASTER || sel == IDE_DEV_SLAVE
      modifies this`polls, this`trace
      ensures r == 0 || r == -1
      ensures var o := CoreRun(status, old(polls));
        (r == 0 <==> o.ok) && polls == o.stop &&
        trace == old(trace) + SectorEvents(base, sel, lba, write)[..o.events]
    {
      SectorEventsParts(base, sel, lba, write);
      ghost var o := CoreRun(status, polls);
      var w := WaitReady();
      if w != 0 {
        assert o == Run(false, polls, 0);
        return -1;
      }
      ghost var d := DataWait(status, polls, polls + TIMEOUT);
      r := CommandData(base, sel, lba, write);
      assert o == Run(d.ok, polls, if d.ok then 7 else 6);
    }

    /**
     * The rest of a sector once the disk is ready: the six command writes,
     * the data wait, and the 256-word transfer when the wait succeeds.
     */
    method CommandData(base: nat, sel: nat, lba: nat, write: bool) returns (r: int)
      requires sel == IDE_DEV_MASTER || sel == IDE_DEV_SLAVE
      modifies this`polls, this`trace
      ensures r == 0 || r == -1
      ensures var d := DataWait(status, old(polls), old(polls) + TIMEOUT);
        var ev := SectorEvents(base, sel, lba, write);
        (r == 0 <==> d.ok) && polls == d.stop && trace == old(trace) + ev[..if d.ok then 7 else 6]
    {
      SectorEventsParts(base, sel, lba, write);
      var cmd := SectorCommand(base, sel, lba, if write then IDE_CMD_WRITE else IDE_CMD_READ);
      var data := if write then OutWords(base + IDE_DATA, SECTOR_SIZE / 2) else InWords(base + IDE_DATA, SECTOR_SIZE / 2);
      trace := trace + cmd;
      r := WaitData();
      if r != 0 {
        return -1;
      }
      trace := trace + [data];
    }

    /**
     * The sector loop of hd_read_device and hd_write_device: sector i goes
     * to LBA secno + i in 32 bits; it stops at the first failed wait with
     * -1.  The result, the status reads and the events issued are those of
     * TransferRun.
     */
    method Sectors(base: nat, sel: nat, secno: nat, nsecs: nat, write: bool) returns (r: int)
      requires sel == IDE_DEV_MASTER || sel == IDE_DEV_SLAVE
      modifies this`polls, this`trace
      ensures r == 0 || r == -1
      ensures var o := TransferRun(status, old(polls), nsecs, write);
        (r == 0 <==> o.ok) && polls == o.stop &&
        trace == old(trace) + TransferEvents(base, sel, secno, nsecs, write)[..o.events]
    {
      ghost var t0, p0 := trace, polls;
      var i := 0;
      while i < nsecs
        invariant i <= nsecs && trace == t0 + TransferEvents(base, sel, secno, i, write)
        invariant TransferRun(status, p0, i, write).ok && polls == TransferRun(status, p0, i, write).stop
      {
        r := NextSector(base, sel, secno, nsecs, i, write, t0, p0);
        if r != 0 {
          return -1;
        }
        i := i + 1;
      }
      TransferPrefix(base, sel, secno, nsecs, nsecs, write);
      return 0;
    }

    /**
     * One round of the sector loop: sector i at LBA secno + i in 32 bits.
     * On success the first i + 1 sectors are done; on failure the whole
     * transfer's run has ended here.
     */
    method NextSector(base: nat, sel: nat, secno: nat, nsecs: nat, i: nat, write: bool, ghost t0: seq<Event>, ghost p0: nat)
      returns (r: int)
      requires sel == IDE_DEV_MASTER || sel == IDE_DEV_SLAVE
      requires i < nsecs && trace == t0 + TransferEvents(base, sel, secno, i, write)
      requires TransferRun(status, p0, i, write).ok && polls == TransferRun(status, p0, i, write).stop
      modifies this`polls, this`trace
      ensures r == 0 || r == -1
      ensures r == 0 ==>
        trace == t0 + TransferEvents(base, sel, secno, i + 1, write) &&
        TransferRun(status, p0, i + 1, write).ok && polls == TransferRun(status, p0, i + 1, write).stop
      ensures r != 0 ==>
        var o := TransferRun(status, p0, nsecs, write);
        !o.ok && polls == o.stop && trace == t0 + TransferEvents(base, sel, secno, nsecs, write)[..o.events]
    {
      ghost var t1, at := trace, polls;
      r := Sector(base, sel, (secno + i) % U32_LIMIT, write);
      SectorAdvance(status, base, sel, secno, nsecs, i, write, t0, p0, t1, at, trace, polls);
    }

    /**
     * hd_read_device (write == false) and hd_write_device (write == true):
     * -1 before any port access when the slot is empty or the request runs
     * past the end of the disk by the 32-bit check; otherwise the sectors
     * are transferred in order as Sectors says, so a request whose end wraps
     * past 2^32 reaches the disk with its LBAs wrapped.
     */
    method Transfer(id: nat, secno: nat, nsecs: nat, write: bool) returns (r: int)
      requires Valid() && id < MAX_IDE_DEVICES && secno < U32_LIMIT && nsecs < U32_LIMIT
      modifies this`polls, this`trace
      ensures r == 0 || r == -1
      ensures !devs[id].present || !InRangeAsWritten(secno, nsecs, devs[id].size) ==>
        r == -1 && trace == old(trace) && polls == old(polls)
      ensures devs[id].present && InRangeAsWritten(secno, nsecs, devs[id].size) ==>
        var o := TransferRun(status, old(polls), nsecs, write);
        (r == 0 <==> o.ok) && polls == o.stop &&
        trace == old(trace) + TransferEvents(devs[id].base, DriveSel(devs[id].drive), secno, nsecs, write)[..o.events]
    {
      var d := devs[id];
      if !d.present {
        return -1;
      }
      if !InRangeAsWritten(secno, nsecs, d.size) {
        return -1;
      }
      r := Sectors(d.base, DriveSel(d.drive), secno, nsecs, write);
    }

    /** hd_get_device: the slot's device, or nothing exactly when the slot is not present. */
    method GetDevice(id: nat) returns (d: Option<Device>)
      requires Valid() && id < MAX_IDE_DEVICES
      ensures d.None? <==> !devs[id].present
      ensures d.Some? ==> d.value == devs[id]
    {
      if !devs[id].present {
        return None;
      }
      return Some(devs[id]);
    }

    /** hd_get_device_count. */
    method GetDeviceCount() returns (n: nat)
      ensures n == numDevices
    {
      return numDevices;
    }
  }
}
