/**
 The installer's disk side lays out the partitions of a disk and records them in the 512-byte
 legacy MBR (section 5.2.1 of the UEFI Specification).
 */
module DiskLayout {
  import opened Prelude
  import opened UpdateProtocol
  import GrubConfig

  const SECTOR := 512
  const BOOT_START := 2048
  const BOOT_SECTORS := 256 * 1024 * 2
  const SLOT_SECTORS := 2048 * 1024 * 2
  const MIN_PERM_SECTORS := 2048 * 1024 * 2
  const MAX_SECTORS := 0xFFFF_FFFF

  datatype Layout = Layout(bootStart: Uint32, bootSectors: Uint32, slotAStart: Uint32, slotASectors: Uint32,
                           slotBStart: Uint32, slotBSectors: Uint32, permStart: Uint32, permSectors: Uint32)

  datatype LayoutResult = Fits(layout: Layout) | TooSmall

  /** 2048 + 256 MiB + two 2 GiB slots + the 2 GiB floor for PERM, in sectors. */
  const MIN_DISK_SECTORS := 13109248

  /** minTargetSizeBytes of the installer's disk scan. */
  const SCAN_MINIMUM := 16 * 1024 * 1024 * 1024

  function Min(a: int, b: int): int {
    if a <= b then a else b
  }

  /** Four contiguous partitions after sector 0, the last ending where the disk (or 32-bit addressing) does. */
  predicate Tiles(l: Layout, totalSectors: nat) {
    && 0 < l.bootStart && 0 < l.bootSectors && 0 < l.slotASectors && 0 < l.slotBSectors
    && l.bootStart == BOOT_START && l.bootSectors == BOOT_SECTORS
    && l.slotASectors == SLOT_SECTORS && l.slotBSectors == SLOT_SECTORS
    && l.slotAStart == l.bootStart + l.bootSectors
    && l.slotBStart == l.slotAStart + l.slotASectors
    && l.permStart == l.slotBStart + l.slotBSectors
    && l.permSectors >= MIN_PERM_SECTORS
    && l.permStart + l.permSectors == Min(totalSectors, MAX_SECTORS)
  }

  method LayoutForDisk(sizeBytes: Uint64) returns (r: LayoutResult)
    ensures r.Fits? <==> sizeBytes / SECTOR >= MIN_DISK_SECTORS
    ensures sizeBytes >= SCAN_MINIMUM ==> r.Fits?
    ensures r.Fits? ==> Tiles(r.layout, sizeBytes / SECTOR)
  {
    var totalSectors := sizeBytes / SECTOR;
    if totalSectors > MAX_SECTORS {
      totalSectors := MAX_SECTORS;
    }
    var bootEnd := BOOT_START + BOOT_SECTORS;
    var l := Layout(BOOT_START, BOOT_SECTORS, bootEnd, SLOT_SECTORS, 0, 0, 0, 0);
    l := l.(slotBStart := (l.slotAStart + l.slotASectors) % UINT32);
    l := l.(slotBSectors := SLOT_SECTORS);
    l := l.(permStart := (l.slotBStart + l.slotBSectors) % UINT32);
    if l.permStart >= totalSectors {
      return TooSmall;
    }
    l := l.(permSectors := (totalSectors - l.permStart) % UINT32);
    if l.permSectors < MIN_PERM_SECTORS {
      return TooSmall;
    }
    return Fits(l);
  }

  // ------------------------------------------------------------------
  // The MBR
  // ------------------------------------------------------------------

  const CAPSULE_MBR_SIG: Uint32 := 0xb1a5_70ff
  const SIG_OFFSET := 0x1B8
  const TABLE_OFFSET := 0x1BE

  datatype Partition = Partition(bootable: bool, kind: Byte, start: Uint32, size: Uint32)

  /** Byte `j` of a little-endian 32-bit word. */
  function LE32(v: Uint32, j: nat): Byte
    requires j < 4
  {
    if j == 0 then v % 256
    else if j == 1 then v / 0x100 % 256
    else if j == 2 then v / 0x1_0000 % 256
    else v / 0x100_0000
  }

  function FromLE32(b0: Byte, b1: Byte, b2: Byte, b3: Byte): Uint32 {
    b0 as int + 0x100 * (b1 as int) + 0x1_0000 * (b2 as int) + 0x100_0000 * (b3 as int)
  }

  lemma LE32RoundTrip(v: Uint32)
    ensures FromLE32(LE32(v, 0), LE32(v, 1), LE32(v, 2), LE32(v, 3)) == v
  {
    var a := v / 0x100;
    var b := a / 0x100;
    assert v / 0x1_0000 == b && v / 0x100_0000 == b / 0x100;
    assert v == 0x100 * a + v % 0x100 && a == 0x100 * b + a % 0x100 && b == 0x100 * (b / 0x100) + b % 0x100;
  }

  /** Byte `k` of a 16-byte table entry; CHS fields hold the "use LBA" sentinel. */
  function EntryByte(p: Partition, k: nat): Byte
    requires k < 16
  {
    if k == 0 then if p.bootable then 0x80 else 0
    else if k == 1 || k == 5 then 0xFE
    else if k == 4 then p.kind
    else if k < 8 then 0xFF
    else if k < 12 then LE32(p.start, k - 8)
    else LE32(p.size, k - 12)
  }

  function Partitions(l: Layout): seq<Partition> {
    [Partition(true, 0xEF, l.bootStart, l.bootSectors), Partition(false, 0x83, l.slotAStart, l.slotASectors),
     Partition(false, 0x83, l.slotBStart, l.slotBSectors), Partition(false, 0x8E, l.permStart, l.permSectors)]
  }

  /** Byte `k` of the sector: no boot code, the disk signature, four entries, the boot signature. */
  function MbrByte(l: Layout, k: nat): Byte
    requires k < SECTOR
  {
    if SIG_OFFSET <= k < SIG_OFFSET + 4 then LE32(CAPSULE_MBR_SIG, k - SIG_OFFSET)
    else if TABLE_OFFSET <= k < 0x1FE then EntryByte(Partitions(l)[(k - TABLE_OFFSET) / 16], (k - TABLE_OFFSET) % 16)
    else if k == 0x1FE then 0x55
    else if k == 0x1FF then 0xAA
    else 0
  }

  function MbrBytes(l: Layout): (r: Bytes)
    ensures |r| == SECTOR
  {
    seq(SECTOR, k requires 0 <= k < SECTOR => MbrByte(l, k))
  }

  method PutUint32(a: array<Byte>, offset: nat, v: Uint32)
    requires offset + 4 <= a.Length
    modifies a
    ensures forall k :: offset <= k < offset + 4 ==> a[k] == LE32(v, k - offset)
    ensures forall k :: 0 <= k < a.Length && !(offset <= k < offset + 4) ==> a[k] == old(a[k])
  {
    a[offset] := v % 256;
    a[offset + 1] := v / 0x100 % 256;
    a[offset + 2] := v / 0x1_0000 % 256;
    a[offset + 3] := v / 0x100_0000;
  }

  method PutEntry(a: array<Byte>, offset: nat, p: Partition)
    requires offset + 16 <= a.Length && a[offset] == 0
    modifies a
    ensures forall k :: offset <= k < offset + 16 ==> a[k] == EntryByte(p, k - offset)
    ensures forall k :: 0 <= k < a.Length && !(offset <= k < offset + 16) ==> a[k] == old(a[k])
  {
    if p.bootable {
      a[offset] := 0x80;
    }
    a[offset + 1] := 0xFE;
    a[offset + 2] := 0xFF;
    a[offset + 3] := 0xFF;
    a[offset + 4] := p.kind;
    a[offset + 5] := 0xFE;
    a[offset + 6] := 0xFF;
    a[offset + 7] := 0xFF;
    PutUint32(a, offset + 8, p.start);
    PutUint32(a, offset + 12, p.size);
  }

  method BuildMBR(l: Layout) returns (mbr: array<Byte>)
    ensures fresh(mbr) && mbr.Length == SECTOR
    ensures forall k :: 0 <= k < SECTOR ==> mbr[k] == MbrByte(l, k)
  {
    mbr := new Byte[SECTOR](_ => 0);
    PutUint32(mbr, SIG_OFFSET, CAPSULE_MBR_SIG);
    var parts := Partitions(l);
    for i := 0 to |parts|
      invariant forall k :: 0 <= k < TABLE_OFFSET + 16 * i ==> mbr[k] == MbrByte(l, k)
      invariant forall k :: TABLE_OFFSET + 16 * i <= k < SECTOR ==> mbr[k] == 0
    {
      PutEntry(mbr, TABLE_OFFSET + 16 * i, parts[i]);
    }
    mbr[0x1FE] := 0x55;
    mbr[0x1FF] := 0xAA;
  }

  /** Builds the sector in a buffer and writes it at the start of the device. */
  method WriteMBR(dev: array<Byte>, l: Layout, openOk: bool, syncOk: bool) returns (ok: bool)
    modifies dev
    ensures ok <==> openOk && dev.Length >= SECTOR && syncOk
    ensures forall k :: 0 <= k < dev.Length ==> dev[k] == if openOk && k < SECTOR then MbrBytes(l)[k] else old(dev[k])
  {
    var mbr := BuildMBR(l);
    if !openOk {
      return false;
    }
    ok := dev.Length >= SECTOR && syncOk;
    var n := if dev.Length >= SECTOR then SECTOR else dev.Length;
    forall k | 0 <= k < n {
      dev[k] := mbr[k];
    }
  }

  function ParseEntry(b: Bytes, at: nat): Partition
    requires at + 16 <= |b|
  {
    Partition(b[at] == 0x80, b[at + 4], FromLE32(b[at + 8], b[at + 9], b[at + 10], b[at + 11]),
              FromLE32(b[at + 12], b[at + 13], b[at + 14], b[at + 15]))
  }

  /** Reading the four table entries of a sector that carries the boot signature. */
  function ParseMBR(b: Bytes): Option<seq<Partition>>
    requires |b| >= SECTOR
  {
    if b[0x1FE] != 0x55 || b[0x1FF] != 0xAA then None
    else Some([ParseEntry(b, TABLE_OFFSET), ParseEntry(b, TABLE_OFFSET + 16),
               ParseEntry(b, TABLE_OFFSET + 32), ParseEntry(b, TABLE_OFFSET + 48)])
  }

  lemma EntryRoundTrip(b: Bytes, at: nat, p: Partition)
    requires at + 16 <= |b| && forall k :: at <= k < at + 16 ==> b[k] == EntryByte(p, k - at)
    ensures ParseEntry(b, at) == p
  {
    LE32RoundTrip(p.start);
    LE32RoundTrip(p.size);
  }

  lemma MbrEntry(l: Layout, b: Bytes, i: nat)
    requires i < 4 && |b| >= SECTOR && forall k :: 0 <= k < SECTOR ==> b[k] == MbrByte(l, k)
    ensures ParseEntry(b, TABLE_OFFSET + 16 * i) == Partitions(l)[i]
  {
    EntryRoundTrip(b, TABLE_OFFSET + 16 * i, Partitions(l)[i]);
  }

  /** Parsing the written sector, on any device, returns the layout's four partitions. */
  lemma MbrRoundTrip(l: Layout, rest: Bytes)
    ensures ParseMBR(MbrBytes(l) + rest) == Some(Partitions(l))
  {
    var b := MbrBytes(l) + rest;
    MbrEntry(l, b, 0);
    MbrEntry(l, b, 1);
    MbrEntry(l, b, 2);
    MbrEntry(l, b, 3);
  }

  const HEX := "0123456789abcdef"

  function Hex(b: Byte): string {
    [HEX[b / 16], HEX[b % 16]]
  }

  /** readMBRDiskSig: the four signature bytes, most significant first, in hex. */
  function ReadDiskSig(dev: Bytes): Option<string> {
    if |dev| < SIG_OFFSET + 4 then None
    else Some(Hex(dev[SIG_OFFSET + 3]) + Hex(dev[SIG_OFFSET + 2]) + Hex(dev[SIG_OFFSET + 1]) + Hex(dev[SIG_OFFSET]))
  }

  /** The signature on the installed disk is the one its grub.cfg roots its slots on. */
  lemma SignatureMatchesGrub(l: Layout, rest: Bytes)
    ensures ReadDiskSig(MbrBytes(l) + rest) == Some(GrubConfig.DISK_SIGNATURE)
  {
    var dev := MbrBytes(l) + rest;
    assert dev[SIG_OFFSET] == 0xff && dev[SIG_OFFSET + 1] == 0x70 && dev[SIG_OFFSET + 2] == 0xa5
        && dev[SIG_OFFSET + 3] == 0xb1;
    assert "b1" + "a5" + "70" + "ff" == GrubConfig.DISK_SIGNATURE;
    assert Hex(0xb1) == "b1" && Hex(0xa5) == "a5" && Hex(0x70) == "70" && Hex(0xff) == "ff";
  }

  function SlotPartition(l: Layout, s: Slot): Partition {
    if s == SlotA then Partition(false, 0x83, l.slotAStart, l.slotASectors)
    else Partition(false, 0x83, l.slotBStart, l.slotBSectors)
  }

  /**
   On an installed disk the root partition a slot's kernel line names (disk signature and
   partition number) is the table entry that holds that slot, the one an update writes.
   */
  lemma RootIsSlotPartition(l: Layout, rest: Bytes, s: Slot)
    ensures var disk := MbrBytes(l) + rest; var number := GrubConfig.SlotPartitionNumber(s);
      && ParseMBR(disk).Some? && ReadDiskSig(disk).Some? && 1 <= number <= |ParseMBR(disk).value|
      && GrubConfig.RootPartition(GrubConfig.KernelArgs(s))
         == Some((ReadDiskSig(disk).value, GrubConfig.TwoDigits(number)))
      && ParseMBR(disk).value[number - 1] == SlotPartition(l, s)
  {
    MbrRoundTrip(l, rest);
    SignatureMatchesGrub(l, rest);
    GrubConfig.ArgsNameSlot(s);
  }

  function EntryEnd(p: Partition): int {
    p.start + p.size
  }

  /**
   The table on an installed disk, in the numbers a reader of the MBR sees: a bootable ESP of 256
   MiB at sector 2048, two 2 GiB Linux slots and an LVM partition, each starting where the one
   before it ends, the last ending where the disk or 32-bit addressing does.
   */
  lemma TableTilesDisk(l: Layout, rest: Bytes, total: nat)
    requires Tiles(l, total)
    ensures var table := ParseMBR(MbrBytes(l) + rest);
      && table.Some? && |table.value| == 4
      && var t := table.value;
         && t[0].bootable && !t[1].bootable && !t[2].bootable && !t[3].bootable
         && t[0].kind == 0xEF && t[1].kind == 0x83 && t[2].kind == 0x83 && t[3].kind == 0x8E
         && t[0].start == 2048 && t[0].size == 524288 && t[1].size == 4194304 && t[2].size == 4194304
         && t[1].start == EntryEnd(t[0]) && t[2].start == EntryEnd(t[1]) && t[3].start == EntryEnd(t[2])
         && EntryEnd(t[3]) == (if total <= 0xFFFF_FFFF then total else 0xFFFF_FFFF) && t[3].size >= 4194304
  {
    MbrRoundTrip(l, rest);
  }

  /** Where those entries lie in the sector: four of sixteen bytes from offset 446, before the mark 55 AA. */
  lemma SectorBytes(l: Layout, k: nat)
    requires k < 512
    ensures var b := MbrBytes(l);
      && |b| == 512 && b[510] == 0x55 && b[511] == 0xAA
      && b[440] == 0xFF && b[441] == 0x70 && b[442] == 0xA5 && b[443] == 0xB1
      && (k < 440 || k == 444 || k == 445 ==> b[k] == 0)
      && (446 <= k < 510 ==>
            && ((k - 446) % 16 == 0 ==> b[k] == if k == 446 then 0x80 else 0)
            && ((k - 446) % 16 == 1 || (k - 446) % 16 == 5 ==> b[k] == 0xFE)
            && ((k - 446) % 16 in {2, 3, 6, 7} ==> b[k] == 0xFF))
  {
    if 446 <= k < 510 {
      var i := (k - 446) / 16;
      assert 0 <= i < 4;
      assert Partitions(l)[i].bootable <==> i == 0;
    }
  }
}
