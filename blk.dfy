/**
 * The block-device layer (kern/drivers/blk.c).
 *
 * A registry of at most four block devices, filled from the IDE driver's
 * device table at start-up.  A registered device is a value here: its read
 * and write operations are the IDE wrappers, recorded as flags, and its
 * private data is the IDE slot it came from.
 */
module Blk {
  import opened Opt
  import Hd
  import Pic
  import opened PortIo

  const BLK_SIZE: nat := 512
  const MAX_BLK_DEV: nat := 4
  const BLK_TYPE_DISK: int := 1
  const BLK_TYPE_SWAP: int := 2

  const MIB: nat := 1024 * 1024
  const U32_LIMIT: nat := 0x1_0000_0000

  /** block_device_t: `hasRead`/`hasWrite` say whether the operation pointers are set. */
  datatype BlockDevice = BlockDevice(kind: int, size: nat, name: string, devId: nat, hasRead: bool, hasWrite: bool)

  /** Whether a registry slot holds a device of the given type. */
  predicate HasType(slot: Option<BlockDevice>, kind: int) {
    slot.Some? && slot.value.kind == kind
  }

  /** The block device blk_init builds for IDE slot i. */
  function DiskDevice(i: nat, d: Hd.Device): (b: BlockDevice)
    ensures b.kind == BLK_TYPE_DISK && b.devId == i && b.size == d.size && b.name == d.name
    ensures b.hasRead && b.hasWrite
  {
    BlockDevice(BLK_TYPE_DISK, d.size, d.name, i, true, true)
  }

  /** The disks for the present slots among the first n IDE slots, in slot order. */
  function Scan(devs: seq<Hd.Device>, n: nat): seq<BlockDevice>
    requires n <= |devs|
  {
    if n == 0 then []
    else Scan(devs, n - 1) + (if devs[n - 1].present then [DiskDevice(n - 1, devs[n - 1])] else [])
  }

  /**
   * The scan holds one disk per present slot below n, with ids increasing,
   * each built from its slot, and as many disks as present slots.
   */
  lemma {:induction false} ScanSound(devs: seq<Hd.Device>, n: nat)
    requires n <= |devs|
    ensures |Scan(devs, n)| == Hd.CountPresent(devs[..n]) <= n
    ensures forall k :: 0 <= k < |Scan(devs, n)| ==>
      var b := Scan(devs, n)[k];
      b.devId < n && devs[b.devId].present && b == DiskDevice(b.devId, devs[b.devId])
    ensures forall k, l :: 0 <= k < l < |Scan(devs, n)| ==> Scan(devs, n)[k].devId < Scan(devs, n)[l].devId
  {
    if n > 0 {
      ScanSound(devs, n - 1);
      assert devs[..n][..n - 1] == devs[..n - 1];
    }
  }

  /** Every present slot below n has its disk in the scan. */
  lemma {:induction false} ScanComplete(devs: seq<Hd.Device>, n: nat, i: nat)
    requires i < n <= |devs| && devs[i].present
    ensures DiskDevice(i, devs[i]) in Scan(devs, n)
  {
    if i < n - 1 {
      ScanComplete(devs, n - 1, i);
    }
  }

  /** What blk_init registers as written: only slots below min(num_hd, 4). */
  function RegisteredAsWritten(devs: seq<Hd.Device>, numHd: nat): seq<BlockDevice>
    requires |devs| == Hd.MAX_IDE_DEVICES
  {
    Scan(devs, if numHd < MAX_BLK_DEV then numHd else MAX_BLK_DEV)
  }

  /** What blk_init is meant to register: a disk for every present IDE slot. */
  function Registered(devs: seq<Hd.Device>): seq<BlockDevice>
    requires |devs| == Hd.MAX_IDE_DEVICES
  {
    Scan(devs, Hd.MAX_IDE_DEVICES)
  }

  /**
   * Registered holds exactly the present slots' disks, in slot order, and
   * there are never more than the registry's four places.
   */
  lemma RegisteredExact(devs: seq<Hd.Device>, i: nat)
    requires |devs| == Hd.MAX_IDE_DEVICES && i < Hd.MAX_IDE_DEVICES
    ensures |Registered(devs)| == Hd.CountPresent(devs) <= MAX_BLK_DEV
    ensures devs[i].present <==> DiskDevice(i, devs[i]) in Registered(devs)
  {
    ScanSound(devs, Hd.MAX_IDE_DEVICES);
    assert devs[..Hd.MAX_IDE_DEVICES] == devs;
    if devs[i].present {
      ScanComplete(devs, Hd.MAX_IDE_DEVICES, i);
    }
  }

  /**
   * With only the second slot present the IDE driver counts one device, so
   * the loop as written looks at slot 0 alone and registers nothing.
   */
  lemma InitSkipsSlot()
    ensures var d := Hd.ABSENT.(present := true);
      var devs := [Hd.ABSENT, d, Hd.ABSENT, Hd.ABSENT];
      Hd.CountPresent(devs) == 1 && RegisteredAsWritten(devs, 1) == [] && |Registered(devs)| == 1
  {
    var d := Hd.ABSENT.(present := true);
    var devs := [Hd.ABSENT, d, Hd.ABSENT, Hd.ABSENT];
    assert devs[..4][..3] == devs[..3] && devs[..3][..2] == devs[..2];
    assert devs[..2][..1] == devs[..1] && devs[..1][..0] == [];
    assert Hd.CountPresent(devs[..1]) == 0;
    assert Hd.CountPresent(devs[..2]) == 1;
    assert Hd.CountPresent(devs[..3]) == 1;
    assert devs[..4] == devs;
    assert Scan(devs, 1) == [];
    assert Scan(devs, 2) == [DiskDevice(1, d)];
    assert Scan(devs, 3) == Scan(devs, 2);
  }

  /** When the present slots are the leading ones, the loop as written registers them all. */
  lemma {:induction false} LeadingSlotsAgree(devs: seq<Hd.Device>, n: nat)
    requires |devs| == Hd.MAX_IDE_DEVICES && n <= Hd.MAX_IDE_DEVICES
    requires forall i :: 0 <= i < Hd.MAX_IDE_DEVICES ==> (devs[i].present <==> i < n)
    ensures RegisteredAsWritten(devs, Hd.CountPresent(devs)) == Registered(devs)
  {
    ScanSound(devs, Hd.MAX_IDE_DEVICES);
    assert devs[..Hd.MAX_IDE_DEVICES] == devs;
    ScanCount(devs, Hd.MAX_IDE_DEVICES, n);
    ScanTail(devs, n, Hd.MAX_IDE_DEVICES);
  }

  /** With exactly the first n slots present, the first m >= n slots hold n present ones. */
  lemma {:induction false} ScanCount(devs: seq<Hd.Device>, m: nat, n: nat)
    requires n <= m <= |devs|
    requires forall i :: 0 <= i < |devs| ==> (devs[i].present <==> i < n)
    ensures Hd.CountPresent(devs[..m]) == n
  {
    if m > 0 {
      assert devs[..m][..m - 1] == devs[..m - 1];
      if m - 1 >= n {
        ScanCount(devs, m - 1, n);
      } else {
        assert m == n;
        LeadingCount(devs, m);
      }
    }
  }

  /** When the first m slots are all present, all m are counted. */
  lemma {:induction false} LeadingCount(devs: seq<Hd.Device>, m: nat)
    requires m <= |devs|
    requires forall i :: 0 <= i < m ==> devs[i].present
    ensures Hd.CountPresent(devs[..m]) == m
  {
    if m > 0 {
      assert devs[..m][..m - 1] == devs[..m - 1];
      LeadingCount(devs, m - 1);
    }
  }

  /** Slots from n on that are all absent add nothing to the scan. */
  lemma {:induction false} ScanTail(devs: seq<Hd.Device>, n: nat, m: nat)
    requires n <= m <= |devs|
    requires forall i :: n <= i < m ==> !devs[i].present
    ensures Scan(devs, m) == Scan(devs, n)
  {
    if m > n {
      ScanTail(devs, n, m - 1);
    }
  }

  /** blk_list_devices's size in bytes as written: size * BLK_SIZE in a uint32_t. */
  function SizeBytesAsWritten(size: nat): nat {
    size * BLK_SIZE % U32_LIMIT
  }

  /** size_mb and the decimal as written, from the wrapped byte count. */
  function SizeMbAsWritten(size: nat): nat {
    SizeBytesAsWritten(size) / MIB
  }

  function DecimalAsWritten(size: nat): nat {
    SizeBytesAsWritten(size) % MIB * 10 / MIB
  }

  /** The size in whole MiB and the tenths digit, from the exact byte count. */
  function SizeMb(size: nat): nat {
    size * BLK_SIZE / MIB
  }

  function Decimal(size: nat): nat {
    size * BLK_SIZE % MIB * 10 / MIB
  }

  /**
   * The decimal is one digit, and size_mb.decimal is the size in MiB
   * rounded down to a tenth.
   */
  lemma SizeTenths(size: nat)
    ensures Decimal(size) <= 9
    ensures SizeMb(size) * 10 + Decimal(size) == size * BLK_SIZE * 10 / MIB
  {
    Tenths(size * BLK_SIZE);
  }

  /** Whole MiB and a tenths digit of a byte count b make b in MiB rounded down to a tenth. */
  lemma Tenths(b: nat)
    ensures b % MIB * 10 / MIB <= 9
    ensures b / MIB * 10 + b % MIB * 10 / MIB == b * 10 / MIB
  {
    var q := b / MIB;
    var r := b % MIB;
    assert b == q * MIB + r;
    assert r * 10 < 10 * MIB;
    assert b * 10 == (q * 10) * MIB + r * 10;
  }

  /** Below 2^23 blocks (4 GiB) the byte count does not wrap and the two computations agree. */
  lemma SizeAgrees(size: nat)
    requires size < 0x80_0000
    ensures SizeMbAsWritten(size) == SizeMb(size) && DecimalAsWritten(size) == Decimal(size)
  {
  }

  /** A 4 GiB disk is listed as 0.0M as written, against 4096.0M exactly. */
  lemma SizeWraps()
    ensures SizeMbAsWritten(0x80_0000) == 0 && DecimalAsWritten(0x80_0000) == 0
    ensures SizeMb(0x80_0000) == 4096 && Decimal(0x80_0000) == 0
  {
  }

  /** One line of blk_list_devices. */
  datatype Row = Row(name: string, major: nat, minor: nat, removable: nat, sizeMb: nat, decimal: nat,
                     readOnly: nat, kind: string, mount: string)

  /**
   * The line for registry slot i.  The size columns come from the byte
   * count as written, wrapped to 32 bits; below 4 GiB they are the exact
   * size in tenths of a MiB.
   */
  function RowOf(i: nat, d: BlockDevice): (r: Row)
    ensures r.major == 8 && r.minor == 16 * i && r.name == d.name
    ensures r.removable == 0 && r.readOnly == 0 && r.kind == "disk"
    ensures r.mount == (if d.kind == BLK_TYPE_SWAP then "[SWAP]" else "")
    ensures r.decimal <= 9 && r.sizeMb * 10 + r.decimal == SizeBytesAsWritten(d.size) * 10 / MIB
    ensures d.size < 0x80_0000 ==> r.sizeMb * 10 + r.decimal == d.size * BLK_SIZE * 10 / MIB
  {
    Tenths(SizeBytesAsWritten(d.size));
    Row(d.name, 8, i * 16, 0, SizeMbAsWritten(d.size), DecimalAsWritten(d.size), 0, "disk",
        if d.kind == BLK_TYPE_SWAP then "[SWAP]" else "")
  }

  class Registry {
    /** block_devices: a null pointer is None. */
    const slots: array<Option<BlockDevice>>
    /** num_devices. */
    var numDevices: nat

    /** The registered devices fill the first numDevices slots. */
    predicate Valid()
      reads this, slots
    {
      slots.Length == MAX_BLK_DEV && numDevices <= MAX_BLK_DEV &&
      forall i :: 0 <= i < numDevices ==> slots[i].Some?
    }

    /** The registry before blk_init: every slot null, no device counted. */
    constructor ()
      ensures Valid() && fresh(slots) && numDevices == 0
      ensures forall i :: 0 <= i < MAX_BLK_DEV ==> slots[i].None?
    {
      slots := new Option<BlockDevice>[MAX_BLK_DEV](_ => None);
      numDevices := 0;
    }

    /** blk_register: -1 and nothing changed when full; otherwise the next slot gets the device. */
    method Register(dev: BlockDevice) returns (r: int)
      requires Valid()
      modifies this`numDevices, slots
      ensures Valid()
      ensures old(numDevices) >= MAX_BLK_DEV ==>
        r == -1 && numDevices == old(numDevices) && slots[..] == old(slots[..])
      ensures old(numDevices) < MAX_BLK_DEV ==>
        r == 0 && numDevices == old(numDevices) + 1 && slots[..] == old(slots[..])[old(numDevices) := Some(dev)]
    {
      if numDevices >= MAX_BLK_DEV {
        return -1;
      }
      slots[numDevices] := Some(dev);
      numDevices := numDevices + 1;
      return 0;
    }

    /** blk_get_device: the earliest registered device of the type, or none when there is none. */
    method GetDevice(kind: int) returns (d: Option<BlockDevice>)
      requires Valid()
      ensures d.Some? ==>
        d.value.kind == kind &&
        exists i :: 0 <= i < numDevices && slots[i] == d && forall j :: 0 <= j < i ==> !HasType(slots[j], kind)
      ensures d.None? ==> forall i :: 0 <= i < numDevices ==> !HasType(slots[i], kind)
    {
      var i := 0;
      while i < numDevices
        invariant i <= numDevices
        invariant forall j :: 0 <= j < i ==> !HasType(slots[j], kind)
      {
        if slots[i].Some? && slots[i].value.kind == kind {
          return slots[i];
        }
        i := i + 1;
      }
      return None;
    }

    /**
     * blk_init, with the registration loop running over every IDE slot:
     * empty the registry, run hd_init, then register a disk for each present
     * slot in slot order.  `ids[i]` is what IDENTIFY returns for IDE slot i.
     */
    method Init(ide: Hd.Ide, pic: Pic.Controller, ids: seq<seq<Hd.Word>>)
      requires Valid() && ide.Valid() && |ids| == Hd.MAX_IDE_DEVICES
      requires forall i :: 0 <= i < Hd.MAX_IDE_DEVICES ==> |ids[i]| == 256
      modifies this, slots, ide, ide.devs, pic
      ensures Valid() && ide.Valid()
      ensures ide.numDevices == Hd.CountPresent(ide.devs[..])
      ensures forall i :: 0 <= i < Hd.MAX_IDE_DEVICES ==>
        ide.devs[i] == if ide.devs[i].present then Hd.Identified(Hd.CONFIGS[i], ids[i])
                       else old(ide.devs[i]).(present := false, valid := false)
      ensures ide.trace == old(ide.trace) + Hd.ProbeTrace(ide.devs[..])
      ensures ide.polls == Hd.ProbeStart(ide.status, old(ide.polls), Hd.MAX_IDE_DEVICES)
      ensures forall i :: 0 <= i < Hd.MAX_IDE_DEVICES ==>
        (ide.devs[i].present <==> Hd.DetectOk(ide.status, Hd.ProbeStart(ide.status, old(ide.polls), i)))
      ensures pic.irqMask == Pic.Enabled(Pic.Enabled(old(pic.irqMask), Hd.IRQ_IDE1), Hd.IRQ_IDE2)
      ensures var m1 := Pic.Enabled(old(pic.irqMask), Hd.IRQ_IDE1);
        pic.trace == old(pic.trace) + [OutB(Pic.PIC1_IMR, Pic.Lo(m1)), OutB(Pic.PIC2_IMR, Pic.Hi(m1))] +
          [OutB(Pic.PIC1_IMR, Pic.Lo(pic.irqMask)), OutB(Pic.PIC2_IMR, Pic.Hi(pic.irqMask))]
      ensures numDevices == |Registered(ide.devs[..])|
      ensures forall k :: 0 <= k < numDevices ==> slots[k] == Some(Registered(ide.devs[..])[k])
      ensures forall k :: numDevices <= k < MAX_BLK_DEV ==> slots[k].None?
    {
      var i := 0;
      while i < MAX_BLK_DEV
        invariant i <= MAX_BLK_DEV
        invariant forall j :: 0 <= j < i ==> slots[j].None?
        modifies slots
      {
        slots[i] := None;
        i := i + 1;
      }
      numDevices := 0;
      ide.Init(pic, ids);
      RegisterAll(ide);
    }

    /** The registration loop of blk_init, over every IDE slot, into an empty registry. */
    method RegisterAll(ide: Hd.Ide)
      requires Valid() && ide.Valid() && numDevices == 0
      requires forall k :: 0 <= k < MAX_BLK_DEV ==> slots[k].None?
      modifies this`numDevices, slots
      ensures Valid()
      ensures numDevices == |Registered(ide.devs[..])|
      ensures forall k :: 0 <= k < numDevices ==> slots[k] == Some(Registered(ide.devs[..])[k])
      ensures forall k :: numDevices <= k < MAX_BLK_DEV ==> slots[k].None?
    {
      ghost var devs := ide.devs[..];
      var i := 0;
      while i < Hd.MAX_IDE_DEVICES
        invariant i <= Hd.MAX_IDE_DEVICES && Valid()
        invariant numDevices == |Scan(devs, i)|
        invariant forall k :: 0 <= k < numDevices ==> slots[k] == Some(Scan(devs, i)[k])
        invariant forall k :: numDevices <= k < MAX_BLK_DEV ==> slots[k].None?
      {
        ScanSound(devs, i);
        var d := ide.GetDevice(i);
        if d.Some? {
          var r := Register(DiskDevice(i, d.value));
        }
        i := i + 1;
      }
    }

    /**
     * blk_read (write == false) and blk_write (write == true): -1 when the
     * device is null or lacks the operation, and nothing happens; otherwise
     * the IDE transfer on the device's slot, whose result is returned as is.
     */
    method Access(ide: Hd.Ide, dev: Option<BlockDevice>, blockno: nat, nblocks: nat, write: bool) returns (r: int)
      requires ide.Valid() && blockno < U32_LIMIT && nblocks < U32_LIMIT
      requires dev.Some? ==> dev.value.devId < Hd.MAX_IDE_DEVICES
      modifies ide`polls, ide`trace
      ensures dev.None? || !(if write then dev.value.hasWrite else dev.value.hasRead) ==>
        r == -1 && ide.trace == old(ide.trace) && ide.polls == old(ide.polls)
      ensures dev.Some? && (if write then dev.value.hasWrite else dev.value.hasRead) ==>
        var d := ide.devs[dev.value.devId];
        (r == 0 || r == -1) &&
        (!d.present || !Hd.InRangeAsWritten(blockno, nblocks, d.size) ==>
          r == -1 && ide.trace == old(ide.trace) && ide.polls == old(ide.polls)) &&
        (d.present && Hd.InRangeAsWritten(blockno, nblocks, d.size) ==>
          var o := Hd.TransferRun(ide.status, old(ide.polls), nblocks, write);
          (r == 0 <==> o.ok) && ide.polls == o.stop &&
          ide.trace == old(ide.trace) + Hd.TransferEvents(d.base, Hd.DriveSel(d.drive), blockno, nblocks, write)[..o.events])
    {
      if dev.None? || !(if write then dev.value.hasWrite else dev.value.hasRead) {
        return -1;
      }
      r := ide.Transfer(dev.value.devId, blockno, nblocks, write);
    }

    /** blk_list_devices: one line per registered device, in registry order. */
    method List() returns (rows: seq<Row>)
      requires Valid()
      ensures |rows| == numDevices
      ensures forall i :: 0 <= i < numDevices ==> rows[i] == RowOf(i, slots[i].value)
    {
      rows := [];
      var i := 0;
      while i < numDevices
        invariant i <= numDevices && |rows| == i
        invariant forall j :: 0 <= j < i ==> rows[j] == RowOf(j, slots[j].value)
      {
        if slots[i].Some? {
          rows := rows + [RowOf(i, slots[i].value)];
        }
        i := i + 1;
      }
    }
  }
}
