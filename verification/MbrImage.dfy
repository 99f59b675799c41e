/** `create_mbr_image`: one sector of partition entries, then the partitions. */
module MbrImage {
  import opened Bytes
  import opened Regions
  import opened Placement
  import opened FatPatch
  import opened Disk

  // ----- _chs -----

  const SECTORS := 63
  const HEADS := 255
  const CHS_LIMIT := 1024 * 255 * 63

  function Chs(lba: nat): (r: seq<byte>)
    ensures |r| == 3
  {
    var cylinder := lba / (SECTORS * HEADS);
    if cylinder > 1023 then [0xFE, 0xFF, 0xFF]
    else
      var head, sector := lba / SECTORS % HEADS, lba % SECTORS + 1;
      [head, sector + 64 * (cylinder / 256), cylinder % 256]
  }

  function ChsLba(r: seq<byte>): int
    requires |r| == 3
  {
    var cylinder: int := (r[2] as int) + 256 * (r[1] as int / 64);
    var head, sector := r[0], r[1] % 64;
    (cylinder * HEADS + head) * SECTORS + sector - 1
  }

  /** Decoding gives back the LBA, or the last one the encoding can express. */
  lemma {:induction false} ChsDecodes(lba: nat)
    ensures ChsLba(Chs(lba)) == Min(lba, CHS_LIMIT - 1)
  {
    var tracks, cylinder := lba / 63, lba / 16065;
    DivByTracks(lba);
    if cylinder <= 1023 {
      var r := Chs(lba);
      assert r[1] / 64 == cylinder / 256 && r[1] % 64 == lba % 63 + 1;
      assert r[2] + 256 * (cylinder / 256) == cylinder;
    }
  }

  lemma {:induction false} DivByTracks(lba: nat)
    ensures lba / 63 / 255 == lba / 16065 && lba == (lba / 16065 * 255 + lba / 63 % 255) * 63 + lba % 63
  {
    var tracks := lba / 63;
    assert lba == 63 * tracks + lba % 63 && tracks == 255 * (tracks / 255) + tracks % 255;
  }

  /** So it never decreases, and two LBAs below the limit never share an encoding. */
  lemma {:induction false} ChsOrdered(a: nat, b: nat)
    ensures a <= b ==> ChsLba(Chs(a)) <= ChsLba(Chs(b))
    ensures Chs(a) == Chs(b) <==> a == b || (a >= CHS_LIMIT - 1 && b >= CHS_LIMIT - 1)
  {
    ChsDecodes(a);
    ChsDecodes(b);
    ChsSaturates(a);
    ChsSaturates(b);
    hide Chs, ChsLba;
  }

  lemma {:induction false} ChsSaturates(lba: nat)
    ensures lba >= CHS_LIMIT - 1 ==> Chs(lba) == [0xFE, 0xFF, 0xFF]
  {
    if lba == CHS_LIMIT - 1 {
      assert lba / 16065 == 1023 && lba / 63 % 255 == 254 && lba % 63 == 62;
    } else if lba >= CHS_LIMIT {
      assert lba / 16065 >= 1024;
    }
  }

  // ----- specs and placement -----

  datatype Spec = Spec(image: seq<byte>, alignment: int, start: int, typeId: int, bootable: bool, patch: bool)

  function SlotOf(s: Spec): Slot { Slot(|s.image|, s.alignment, s.start, 1 <= s.typeId <= 255) }

  function Slots(specs: seq<Spec>): (r: seq<Slot>)
    ensures |r| == |specs| && forall i :: 0 <= i < |r| ==> r[i] == SlotOf(specs[i])
  {
    seq(|specs|, i requires 0 <= i < |specs| => SlotOf(specs[i]))
  }

  function Volumes(specs: seq<Spec>): (r: seq<Volume>)
    ensures |r| == |specs| && forall i :: 0 <= i < |r| ==> r[i] == Volume(specs[i].image, specs[i].patch)
  {
    seq(|specs|, i requires 0 <= i < |specs| => Volume(specs[i].image, specs[i].patch))
  }

  function Layout(specs: seq<Spec>, sizeMb: int): (r: Option<seq<nat>>)
    ensures r.Some? ==> |r.value| == |specs|
  {
    var total := TotalLbas(sizeMb);
    if !(1 <= |specs| <= 4) || sizeMb <= 0 || total > 0xFFFF_FFFF then None
    else Place(Slots(specs), 1, total - 1)
  }

  ghost predicate LaidOut(specs: seq<Spec>, starts: seq<nat>, total: int)
  {
    && 1 <= |specs| <= 4 && |starts| == |specs| && 0 < total <= 0xFFFF_FFFF
    && Placed(Slots(specs), starts, 1, total - 1)
  }

  lemma {:induction false} LayoutLaidOut(specs: seq<Spec>, sizeMb: int)
    requires Layout(specs, sizeMb).Some?
    ensures LaidOut(specs, Layout(specs, sizeMb).value, TotalLbas(sizeMb))
  {
    assert TotalLbas(sizeMb) == sizeMb * 2048;
    hide Place, Placed;
    PlaceIsSound(Slots(specs), 1, TotalLbas(sizeMb) - 1);
  }

  /** Start and length fit their 32-bit fields. */
  predicate Packable(s: Spec, start: nat)
  {
    1 <= s.typeId <= 255 && |s.image| >= 512 && start + |s.image| / 512 < 0x1_0000_0000
  }

  lemma {:induction false} SpecFits(specs: seq<Spec>, starts: seq<nat>, total: int, i: nat)
    requires LaidOut(specs, starts, total) && i < |specs|
    ensures Packable(specs[i], starts[i])
    ensures 512 <= starts[i] * 512 && starts[i] * 512 + |specs[i].image| <= total * 512
  {
    SlotBytes(Slots(specs), starts, 1, total - 1, i);
    PlacedInside(Slots(specs), starts, 1, total - 1, i);
    assert PlacedAt(Slots(specs), starts, 1, total - 1, i);
  }

  // ----- the partition table -----

  /** The format "<B3sB3sII". */
  function EntryOf(flag: byte, first: seq<byte>, typeId: byte, last: seq<byte>, start: seq<byte>, sectors: seq<byte>)
    : (r: seq<byte>)
    requires |first| == |last| == 3 && |start| == |sectors| == 4
    ensures |r| == 16 && r[0] == flag && r[1..4] == first && r[4] == typeId && r[5..8] == last
    ensures r[8..12] == start && r[12..16] == sectors
  {
    [flag] + first + [typeId] + last + start + sectors
  }

  function EntryBytes(s: Spec, start: nat): (r: seq<byte>)
    requires Packable(s, start)
    ensures |r| == 16
    ensures r[0] == (if s.bootable then 0x80 else 0) && r[1..4] == Chs(start) && r[4] == s.typeId
    ensures r[5..8] == Chs(start + |s.image| / 512 - 1) && r[8..12] == Le32(start) && r[12..16] == Le32(|s.image| / 512)
  {
    var sectors := |s.image| / 512;
    hide Chs, Le32, EntryOf;
    EntryOf(if s.bootable then 0x80 else 0, Chs(start), s.typeId, Chs(start + sectors - 1), Le32(start), Le32(sectors))
  }

  predicate AllPackable(specs: seq<Spec>, starts: seq<nat>)
  {
    |specs| == |starts| && |specs| <= 4 && forall i :: 0 <= i < |specs| ==> Packable(specs[i], starts[i])
  }

  function TableRegions(specs: seq<Spec>, starts: seq<nat>): (rs: seq<Region>)
    requires AllPackable(specs, starts)
    ensures |rs| == |specs| && Fits(512, rs)
    ensures forall i :: 0 <= i < |rs| ==> rs[i] == Region(446 + i * 16, EntryBytes(specs[i], starts[i]))
  {
    seq(|specs|, i requires 0 <= i < |specs| => Region(446 + i * 16, EntryBytes(specs[i], starts[i])))
  }

  function MbrSector(specs: seq<Spec>, starts: seq<nat>): (r: seq<byte>)
    requires AllPackable(specs, starts)
    ensures |r| == 512
  {
    Splice(WriteAll(Zeros(512), TableRegions(specs, starts)), 510, [0x55, 0xAA])
  }

  lemma {:induction false} TableNext(specs: seq<Spec>, starts: seq<nat>, i: nat)
    requires AllPackable(specs, starts) && i < |specs|
    ensures AllPackable(specs[..i], starts[..i]) && AllPackable(specs[..i + 1], starts[..i + 1])
    ensures WriteAll(Zeros(512), TableRegions(specs[..i + 1], starts[..i + 1]))
         == Splice(WriteAll(Zeros(512), TableRegions(specs[..i], starts[..i])),
                   446 + i * 16, EntryBytes(specs[i], starts[i]))
  {
    hide EntryBytes, Packable, WriteAll, Splice;
    var before, r := TableRegions(specs[..i], starts[..i]), Region(446 + i * 16, EntryBytes(specs[i], starts[i]));
    var after, want := TableRegions(specs[..i + 1], starts[..i + 1]), before + [r];
    hide TableRegions;
    forall k | 0 <= k < |after| ensures after[k] == want[k] {}
    assert after == want;
    WriteOneMore(Zeros(512), before, r);
  }

  method MakeMbr(specs: seq<Spec>, starts: seq<nat>) returns (r: seq<byte>)
    requires AllPackable(specs, starts)
    ensures r == MbrSector(specs, starts)
  {
    hide EntryBytes, Packable, Splice, TableRegions, WriteAll;
    var a := NewZeros(512);
    NoEntries(specs, starts);
    for i := 0 to |specs|
      invariant AllPackable(specs[..i], starts[..i])
      invariant a[..] == WriteAll(Zeros(512), TableRegions(specs[..i], starts[..i]))
    {
      TableNext(specs, starts, i);
      WriteAt(a, 446 + i * 16, EntryBytes(specs[i], starts[i]));
    }
    assert specs[..|specs|] == specs && starts[..|specs|] == starts;
    WriteAt(a, 510, [0x55, 0xAA]);
    return a[..];
  }

  lemma {:induction false} NoEntries(specs: seq<Spec>, starts: seq<nat>)
    ensures AllPackable(specs[..0], starts[..0])
    ensures WriteAll(Zeros(512), TableRegions(specs[..0], starts[..0])) == Zeros(512)
  {
  }

  /** What a reader of one entry sees. */
  datatype Entry = Entry(bootable: bool, typeId: int, start: int, sectors: int, firstChs: int, lastChs: int)

  function ReadEntry(sector: seq<byte>, i: nat): Entry
    requires |sector| == 512 && i < 4
  {
    var at := 446 + i * 16;
    Entry(sector[at] == 0x80, sector[at + 4], GetLe32(sector, at + 8), GetLe32(sector, at + 12),
          ChsLba(sector[at + 1..at + 4]), ChsLba(sector[at + 5..at + 8]))
  }

  /** What the entry of a partition placed at `start` should say. */
  function Listed(s: Spec, start: nat): Entry
  {
    var sectors := |s.image| / 512;
    Entry(s.bootable, s.typeId, start, sectors, Min(start, CHS_LIMIT - 1), Min(start + sectors - 1, CHS_LIMIT - 1))
  }

  lemma {:induction false} SectorParts(specs: seq<Spec>, starts: seq<nat>, i: nat)
    requires AllPackable(specs, starts) && i < 4
    ensures var m := MbrSector(specs, starts); var at := 446 + i * 16;
            && m[510] == 0x55 && m[511] == 0xAA
            && (i < |specs| ==> m[at..at + 16] == EntryBytes(specs[i], starts[i]))
            && (i >= |specs| ==> m[at..at + 16] == Zeros(16))
  {
    var t, at := WriteAll(Zeros(512), TableRegions(specs, starts)), 446 + i * 16;
    if i < |specs| { EntryHeld(specs, starts, i); } else { EntryBlank(specs, starts, i); }
    hide EntryBytes, Packable, WriteAll, TableRegions, Splice, AllPackable, Zeros;
    Signed(t, at);
  }

  lemma {:induction false} Signed(t: seq<byte>, at: nat)
    requires |t| == 512 && at + 16 <= 510
    ensures var m := Splice(t, 510, [0x55, 0xAA]);
            m[510] == 0x55 && m[511] == 0xAA && m[at..at + 16] == t[at..at + 16]
  {
    SpliceKeeps(t, 510, [0x55, 0xAA], at, at + 16);
  }

  lemma {:induction false} EntriesInPlace(specs: seq<Spec>, starts: seq<nat>)
    requires AllPackable(specs, starts)
    ensures forall k :: 0 <= k < |specs| ==> EntryAt(TableRegions(specs, starts)[k], k)
  {
    hide EntryBytes, Packable;
  }

  lemma {:induction false} EntryHeld(specs: seq<Spec>, starts: seq<nat>, i: nat)
    requires AllPackable(specs, starts) && i < |specs|
    ensures WriteAll(Zeros(512), TableRegions(specs, starts))[446 + i * 16..446 + i * 16 + 16]
         == EntryBytes(specs[i], starts[i])
  {
    EntriesInPlace(specs, starts);
    hide WriteAll, EntryAt, EntryBytes, Zeros;
    HeldAt(TableRegions(specs, starts), i, EntryBytes(specs[i], starts[i]));
  }

  lemma {:induction false} HeldAt(rs: seq<Region>, i: nat, e: seq<byte>)
    requires i < |rs| && Fits(512, rs) && rs[i].data == e && forall k :: 0 <= k < |rs| ==> EntryAt(rs[k], k)
    ensures 446 + i * 16 + 16 <= 512 && WriteAll(Zeros(512), rs)[446 + i * 16..446 + i * 16 + 16] == e
  {
    assert EntryAt(rs[i], i);
    hide WriteAll, Zeros;
    LaterApart(rs, i);
    ReadsBack(Zeros(512), rs, i);
  }

  lemma {:induction false} LaterApart(rs: seq<Region>, i: nat)
    requires i < |rs| && forall k :: 0 <= k < |rs| ==> EntryAt(rs[k], k)
    ensures forall k :: i < k < |rs| ==> Apart(rs[i], rs[k])
  {
    forall k | i < k < |rs| ensures Apart(rs[i], rs[k]) { assert EntryAt(rs[i], i) && EntryAt(rs[k], k); }
  }

  lemma {:induction false} EntryBlank(specs: seq<Spec>, starts: seq<nat>, i: nat)
    requires AllPackable(specs, starts) && |specs| <= i < 4
    ensures WriteAll(Zeros(512), TableRegions(specs, starts))[446 + i * 16..446 + i * 16 + 16] == Zeros(16)
  {
    var rs, at := TableRegions(specs, starts), 446 + i * 16;
    EntriesInPlace(specs, starts);
    assert Zeros(512)[at..at + 16] == Zeros(16);
    hide EntryBytes, Packable, WriteAll, TableRegions, Zeros, AllPackable;
    forall k | 0 <= k < |rs| ensures rs[k].End() <= at { assert EntryAt(rs[k], k); }
    Untouched(Zeros(512), rs, at, at + 16);
  }

  ghost predicate EntryAt(r: Region, k: nat) { r.at == 446 + k * 16 && r.End() == 446 + k * 16 + 16 }

  lemma {:induction false} EntryParts(s: Spec, start: nat, m: seq<byte>, i: nat)
    requires Packable(s, start) && |m| == 512 && i < 4 && m[446 + i * 16..446 + i * 16 + 16] == EntryBytes(s, start)
    ensures ReadEntry(m, i) == Listed(s, start)
  {
    var e := EntryBytes(s, start);
    hide EntryBytes, Chs, ChsLba, Le32, GetLe32, ReadEntry;
    EntryFields(m, i, e, start, |s.image| / 512);
    ChsDecodes(start);
    ChsDecodes(start + |s.image| / 512 - 1);
  }

  lemma {:induction false} EntryFields(m: seq<byte>, i: nat, e: seq<byte>, start: nat, sectors: nat)
    requires |m| == 512 && i < 4 && |e| == 16 && m[446 + i * 16..446 + i * 16 + 16] == e
    requires start < 0x1_0000_0000 && sectors < 0x1_0000_0000 && e[8..12] == Le32(start) && e[12..16] == Le32(sectors)
    ensures ReadEntry(m, i) == Entry(e[0] == 0x80, e[4], start, sectors, ChsLba(e[1..4]), ChsLba(e[5..8]))
  {
    var at := 446 + i * 16;
    hide ChsLba, Le32, GetLe32;
    assert m[at] == e[0] && m[at + 4] == e[4];
    SubSlice(m, at, e, 1, 4);
    SubSlice(m, at, e, 5, 8);
    SubSlice(m, at, e, 8, 12);
    SubSlice(m, at, e, 12, 16);
    Le32RoundTrip(m, at + 8, start);
    Le32RoundTrip(m, at + 12, sectors);
  }

  /** Every partition's entry reads back; unused entries are blank; the sector is signed. */
  lemma {:induction false} MbrReads(specs: seq<Spec>, starts: seq<nat>, i: nat)
    requires AllPackable(specs, starts) && i < 4
    ensures var m := MbrSector(specs, starts);
            && m[510] == 0x55 && m[511] == 0xAA
            && (i < |specs| ==> ReadEntry(m, i) == Listed(specs[i], starts[i]))
            && (i >= |specs| ==> m[446 + i * 16..446 + i * 16 + 16] == Zeros(16))
  {
    hide MbrSector, EntryBytes, ReadEntry;
    SectorParts(specs, starts, i);
    if i < |specs| { EntryParts(specs[i], starts[i], MbrSector(specs, starts), i); }
  }

  // ----- the disk -----

  ghost predicate Composable(specs: seq<Spec>, starts: seq<nat>, total: int)
  {
    LaidOut(specs, starts, total) && AllReady(Volumes(specs), starts)
  }

  function Writes(sector: seq<byte>, parts: seq<Region>): seq<Region> { [Region(0, sector)] + parts + [] }

  lemma {:induction false} WritesApart(specs: seq<Spec>, starts: seq<nat>, total: nat)
    requires Composable(specs, starts, total)
    ensures AllPackable(specs, starts)
    ensures Fits(total * 512, Writes(MbrSector(specs, starts), PartRegions(Volumes(specs), starts)))
    ensures Disjoint(Writes(MbrSector(specs, starts), PartRegions(Volumes(specs), starts)))
  {
    hide Placed, Packable, PartitionReady, MbrSector, PartRegions;
    forall i | 0 <= i < |specs| ensures Packable(specs[i], starts[i]) { SpecFits(specs, starts, total, i); }
    PartsInside(Volumes(specs), Slots(specs), starts, 1, total - 1);
    PartsApart(Volumes(specs), Slots(specs), starts, 1, total - 1);
    Sandwich(total * 512, [Region(0, MbrSector(specs, starts))], PartRegions(Volumes(specs), starts), [],
             512, total * 512);
  }

  function Written(specs: seq<Spec>, starts: seq<nat>, total: nat): (disk: seq<byte>)
    requires Composable(specs, starts, total)
    ensures |disk| == total * 512
  {
    WritesApart(specs, starts, total);
    hide MbrSector, PartRegions, Composable;
    WriteAll(Zeros(total * 512), Writes(MbrSector(specs, starts), PartRegions(Volumes(specs), starts)))
  }

  /** What the tool produces; `None` is any exception. */
  ghost function MbrDisk(specs: seq<Spec>, sizeMb: int): Option<seq<byte>>
  {
    var starts, total := Layout(specs, sizeMb), TotalLbas(sizeMb);
    if starts.None? || !Composable(specs, starts.value, total) then None
    else Some(Written(specs, starts.value, total))
  }

  lemma {:induction false} WrittenReads(specs: seq<Spec>, starts: seq<nat>, total: nat)
    requires Composable(specs, starts, total)
    ensures AllPackable(specs, starts)
    ensures HoldsRegion(Written(specs, starts, total), Region(0, MbrSector(specs, starts)))
    ensures forall i :: 0 <= i < |specs| ==>
              HoldsRegion(Written(specs, starts, total),
                          Region(starts[i] * 512, PartRegions(Volumes(specs), starts)[i].data))
  {
    WritesApart(specs, starts, total);
    var parts := PartRegions(Volumes(specs), starts);
    forall i | 0 <= i < |parts| ensures parts[i].at == starts[i] * 512 {}
    hide MbrSector, WriteAll, Disjoint, Fits, Composable, PartRegions, HoldsRegion, AllPackable;
    WritesRead(total * 512, MbrSector(specs, starts), parts);
  }

  lemma {:induction false} WritesRead(size: nat, sector: seq<byte>, parts: seq<Region>)
    requires Fits(size, Writes(sector, parts)) && Disjoint(Writes(sector, parts))
    ensures HoldsRegion(WriteAll(Zeros(size), Writes(sector, parts)), Region(0, sector))
    ensures forall i :: 0 <= i < |parts| ==> HoldsRegion(WriteAll(Zeros(size), Writes(sector, parts)), parts[i])
  {
    var rs := Writes(sector, parts);
    hide WriteAll, Disjoint, Fits;
    DisjointReadsBack(Zeros(size), rs, 0);
    forall i | 0 <= i < |parts| ensures HoldsRegion(WriteAll(Zeros(size), rs), parts[i]) {
      assert rs[1 + i] == parts[i];
      DisjointReadsBack(Zeros(size), rs, 1 + i);
    }
  }

  /** The finished disk: the table in sector 0, every partition behind it, each holding its image
      but for the hidden-sector fields of a patched one. */
  lemma {:induction false} MbrDiskReads(specs: seq<Spec>, sizeMb: int) returns (starts: seq<nat>)
    requires MbrDisk(specs, sizeMb).Some?
    ensures Layout(specs, sizeMb) == Some(starts) && AllPackable(specs, starts)
    ensures AllReady(Volumes(specs), starts)
    ensures HoldsRegion(MbrDisk(specs, sizeMb).value, Region(0, MbrSector(specs, starts)))
    ensures forall i :: 0 <= i < |specs| ==>
              PartitionReady(specs[i].image, specs[i].patch, starts[i]) &&
              HoldsRegion(MbrDisk(specs, sizeMb).value,
                          Region(starts[i] * 512, FatPatch.Content(specs[i].image, specs[i].patch, starts[i])))
  {
    starts := Layout(specs, sizeMb).value;
    hide Layout, MbrSector, HoldsRegion, Placed, FatPatch.Content, PartitionReady, Written;
    WrittenReads(specs, starts, TotalLbas(sizeMb));
    forall i | 0 <= i < |specs| ensures PartitionReady(specs[i].image, specs[i].patch, starts[i]) {
      assert VolumeReady(Volumes(specs)[i], starts[i]);
    }
  }

  lemma {:induction false} MbrPartitionReads(specs: seq<Spec>, sizeMb: int, i: nat)
    requires MbrDisk(specs, sizeMb).Some? && i < |specs|
    ensures Layout(specs, sizeMb).Some?
    ensures var at := Layout(specs, sizeMb).value[i]; var disk := MbrDisk(specs, sizeMb).value;
            && PartitionReady(specs[i].image, specs[i].patch, at) && at * 512 + |specs[i].image| <= |disk|
            && disk[at * 512..at * 512 + |specs[i].image|] == FatPatch.Content(specs[i].image, specs[i].patch, at)
  {
    hide MbrDisk, Layout, PartitionReady, FatPatch.Content, AllPackable, AllReady, MbrSector;
    var starts := MbrDiskReads(specs, sizeMb);
  }

  /** A disk is produced if and only if some placement can be composed. */
  lemma {:induction false} ComposedIff(specs: seq<Spec>, sizeMb: int)
    ensures MbrDisk(specs, sizeMb).Some? <==> exists starts :: Composable(specs, starts, TotalLbas(sizeMb))
  {
    var total := TotalLbas(sizeMb);
    if other :| Composable(specs, other, total) {
      PlaceIsLeast(Slots(specs), 1, total - 1, other, 1);
      hide Place, Placed, AllReady;
      var starts := Layout(specs, sizeMb).value;
      LayoutLaidOut(specs, sizeMb);
      AllReadyEarlier(Volumes(specs), other, starts);
      hide LaidOut, Layout, Written;
      assert Composable(specs, starts, total);
    }
  }

  method Compose(specs: seq<Spec>, starts: seq<nat>, total: nat) returns (r: Option<seq<byte>>)
    requires LaidOut(specs, starts, total)
    ensures r.Some? <==> Composable(specs, starts, total)
    ensures r.Some? ==> r.value == Written(specs, starts, total)
  {
    hide Placed, AllReady, MbrSector, PartRegions, WriteAll, Packable;
    forall i | 0 <= i < |specs|
      ensures Packable(specs[i], starts[i]) && |Volumes(specs)[i].bytes| >= 512
      ensures starts[i] * 512 + |Volumes(specs)[i].bytes| <= total * 512
    {
      SpecFits(specs, starts, total, i);
      assert |specs[i].image| >= 512 by { PackableBytes(specs[i], starts[i]); }
    }
    var a := NewZeros(total * 512);
    var mbr := MakeMbr(specs, starts);
    WriteRegions(a, [Region(0, mbr)]);
    var ok := WritePartitions(a, Volumes(specs), starts);
    if !ok { return None; }
    WritesApart(specs, starts, total);
    WriteInParts(Zeros(total * 512), [Region(0, mbr)], PartRegions(Volumes(specs), starts), []);
    WriteNone(a[..]);
    return Some(a[..]);
  }

  lemma {:induction false} PackableBytes(s: Spec, start: nat)
    requires Packable(s, start)
    ensures |s.image| >= 512
  {
  }

  method CreateMbrImage(specs: seq<Spec>, sizeMb: int) returns (r: Option<seq<byte>>)
    ensures r == MbrDisk(specs, sizeMb)
  {
    if !(1 <= |specs| <= 4) { return None; }
    var total := sizeMb * 1024 * 1024 / 512;
    if sizeMb <= 0 || total > 0xFFFF_FFFF { return None; }
    var starts := LayoutPartitions(Slots(specs), 1, total - 1);
    if starts.None? { return None; }
    LayoutLaidOut(specs, sizeMb);
    assert Layout(specs, sizeMb) == starts;
    hide Layout, LaidOut, Composable, Written;
    r := Compose(specs, starts.value, total);
  }
}
