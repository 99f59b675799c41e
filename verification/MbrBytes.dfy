/** A finished MBR disk in plain arithmetic: which manifests get one, and what its bytes are. */
module MbrBytes {
  import opened Bytes
  import opened Regions
  import opened Placement
  import opened FatPatch
  import opened Disk
  import opened DiskBytes
  import opened MbrImage

  // ----- which manifests are accepted -----

  /** A partition may lie at `start` of a disk of `n` sectors. */
  ghost predicate FitsAt(s: Spec, start: nat, n: int)
  {
    && |s.image| > 0 && |s.image| % 512 == 0 && 1 <= s.typeId <= 255
    && s.alignment > 0 && start % s.alignment == 0 && (s.start == 0 || start == s.start)
    && 1 <= start && start + |s.image| / 512 <= n && (s.patch ==> BootOk(s.image))
  }

  /** One to four partitions in order, none reaching into the next, on less than 2 TiB. */
  ghost predicate FitTogether(specs: seq<Spec>, starts: seq<nat>, n: int)
  {
    && 1 <= |specs| <= 4 && |starts| == |specs| && n <= 0xFFFF_FFFF
    && (forall i :: 0 <= i < |specs| ==> FitsAt(specs[i], starts[i], n))
    && (forall i, j :: 0 <= i < j < |specs| ==> starts[i] + |specs[i].image| / 512 <= starts[j])
  }

  lemma {:induction false} ReadyVolumes(specs: seq<Spec>, starts: seq<nat>)
    requires |specs| == |starts|
    ensures AllReady(Volumes(specs), starts) <==>
            forall i :: 0 <= i < |specs| && specs[i].patch ==> starts[i] < 0x1_0000_0000 && BootOk(specs[i].image)
  {
    hide VolumeReady, BootOk;
    forall i | 0 <= i < |specs|
      ensures VolumeReady(Volumes(specs)[i], starts[i]) <==>
              (specs[i].patch ==> starts[i] < 0x1_0000_0000 && BootOk(specs[i].image))
    {
      BootReady(specs[i].image, specs[i].patch, starts[i]);
    }
  }

  lemma {:induction false} ComposableFits(specs: seq<Spec>, starts: seq<nat>, n: nat)
    requires Composable(specs, starts, n)
    ensures FitTogether(specs, starts, n)
  {
    var slots := Slots(specs);
    ReadyVolumes(specs, starts);
    hide AllReady, BootOk, VolumeReady;
    forall i | 0 <= i < |specs| ensures FitsAt(specs[i], starts[i], n) {
      assert PlacedAt(slots, starts, 1, n - 1, i);
      PlacedInside(slots, starts, 1, n - 1, i);
    }
    hide Placed, FitsAt;
    forall i, j | 0 <= i < j < |specs| ensures starts[i] + |specs[i].image| / 512 <= starts[j] {
      PlacedApart(slots, starts, 1, n - 1, i, j);
    }
  }

  lemma {:induction false} FitsComposable(specs: seq<Spec>, starts: seq<nat>, n: nat)
    requires FitTogether(specs, starts, n)
    ensures Composable(specs, starts, n)
  {
    var slots := Slots(specs);
    assert forall i :: 0 <= i < |specs| ==> FitsAt(specs[i], starts[i], n);
    ReadyVolumes(specs, starts);
    hide AllReady, BootOk, VolumeReady;
    var last := n - 1;
    forall i | 0 <= i < |specs| ensures PlacedAt(slots, starts, 1, last, i) {
      assert FitsAt(specs[i], starts[i], n);
      if i > 0 { assert FitsAt(specs[i - 1], starts[i - 1], n); }
    }
    forall i | 0 <= i < |specs| && specs[i].patch ensures starts[i] < 0x1_0000_0000 && BootOk(specs[i].image) {
      assert FitsAt(specs[i], starts[i], n);
    }
    assert FitsAt(specs[0], starts[0], n);
    hide FitsAt;
  }

  /** There is a disk if and only if the partitions fit together somewhere on `size` MiB. */
  lemma {:induction false} MbrAccepts(specs: seq<Spec>, sizeMb: int)
    ensures MbrDisk(specs, sizeMb).Some? <==>
            sizeMb > 0 && exists starts :: FitTogether(specs, starts, sizeMb * 1024 * 1024 / 512)
  {
    var n := sizeMb * 1024 * 1024 / 512;
    assert n == TotalLbas(sizeMb) == sizeMb * 2048;
    ComposedIff(specs, sizeMb);
    hide MbrDisk, Composable, FitTogether;
    if starts :| Composable(specs, starts, n) {
      assert n > 0 by { ComposablePositive(specs, starts, n); }
      ComposableFits(specs, starts, n);
    }
    if starts :| FitTogether(specs, starts, n) { if sizeMb > 0 { FitsComposable(specs, starts, n); } }
  }

  lemma {:induction false} ComposablePositive(specs: seq<Spec>, starts: seq<nat>, n: int)
    requires Composable(specs, starts, n)
    ensures n > 0
  {
  }

  // ----- the bytes -----

  /** The 16 bytes at `o`: flag, type, start and length, and both addresses as cylinder, head and sector. */
  ghost predicate EntryIs(d: seq<byte>, o: nat, s: Spec, start: nat)
    requires o + 16 <= |d|
  {
    var n := |s.image| / 512;
    && d[o] == (if s.bootable then 0x80 else 0) && d[o + 4] == s.typeId
    && GetLe32(d, o + 8) == start && GetLe32(d, o + 12) == n
    && ChsIs(d[o + 1], d[o + 2], d[o + 3], start) && ChsIs(d[o + 5], d[o + 6], d[o + 7], start + n - 1)
  }

  /** Head, sector and cylinder of an LBA with 255 heads of 63 sectors, or the last that can be said. */
  ghost predicate ChsIs(head: byte, b: byte, low: byte, lba: int)
  {
    var cylinder, sector := (low as int) + 256 * (b as int / 64), b as int % 64;
    && 1 <= sector <= 63 && head <= 254
    && (cylinder * 255 + head as int) * 63 + sector - 1 == if lba < 1024 * 255 * 63 then lba else 1024 * 255 * 63 - 1
  }

  lemma {:induction false} ChsFields(lba: nat)
    ensures ChsIs(Chs(lba)[0], Chs(lba)[1], Chs(lba)[2], lba)
  {
    ChsDecodes(lba);
    if lba / 16065 <= 1023 { assert lba / 63 % 255 < 255 && lba % 63 + 1 <= 63; }
  }

  lemma {:induction false} RecordIs(d: seq<byte>, o: nat, s: Spec, start: nat)
    requires o + 16 <= |d| && Packable(s, start) && d[o..o + 16] == EntryBytes(s, start)
    ensures EntryIs(d, o, s, start)
  {
    var e, n := EntryBytes(s, start), |s.image| / 512;
    assert n >= 1 && start + n < 0x1_0000_0000;
    hide EntryBytes, Chs, ChsIs, Le32, GetLe32, Packable;
    assert d[o] == e[0] && d[o + 4] == e[4];
    SubSlice(d, o, e, 8, 12);
    SubSlice(d, o, e, 12, 16);
    Le32RoundTrip(d, o + 8, start);
    Le32RoundTrip(d, o + 12, n);
    SubSlice(d, o, e, 1, 4);
    SubSlice(d, o, e, 5, 8);
    ChsAt(d, o + 1, start);
    ChsAt(d, o + 5, start + n - 1);
  }

  lemma {:induction false} ChsAt(d: seq<byte>, o: nat, lba: nat)
    requires o + 3 <= |d| && d[o..o + 3] == Chs(lba)
    ensures ChsIs(d[o], d[o + 1], d[o + 2], lba)
  {
    ChsFields(lba);
    hide Chs, ChsIs;
    assert d[o] == d[o..o + 3][0] && d[o + 1] == d[o..o + 3][1] && d[o + 2] == d[o..o + 3][2];
  }

  /** The first sector: four slots at 446, each the record of a partition or zeros, and the signature. */
  ghost predicate TableIs(d: seq<byte>, specs: seq<Spec>, starts: seq<nat>)
    requires |d| >= 512 && |specs| == |starts|
  {
    && d[510] == 0x55 && d[511] == 0xAA && (forall k :: 0 <= k < 446 ==> d[k] == 0)
    && forall i :: 0 <= i < 4 ==> SlotIs(d, specs, starts, i)
  }

  ghost predicate SlotIs(d: seq<byte>, specs: seq<Spec>, starts: seq<nat>, i: nat)
    requires |d| >= 512 && |specs| == |starts| && i < 4
  {
    && (i < |specs| ==> EntryIs(d, 446 + i * 16, specs[i], starts[i]))
    && (i >= |specs| ==> forall k :: 446 + i * 16 <= k < 462 + i * 16 ==> d[k] == 0)
  }

  lemma {:induction false} BlankAt(d: seq<byte>, at: nat)
    requires at + 16 <= |d| && d[at..at + 16] == Zeros(16)
    ensures forall k :: at <= k < at + 16 ==> d[k] == 0
  {
    forall k | at <= k < at + 16 ensures d[k] == 0 { assert d[k] == d[at..at + 16][k - at]; }
  }

  lemma {:induction false} InSector(d: seq<byte>, m: seq<byte>, at: nat)
    requires |m| == 512 <= |d| && d[..512] == m && at + 16 <= 512
    ensures d[at..at + 16] == m[at..at + 16]
  {
    assert d[at..at + 16] == d[..512][at..at + 16];
  }

  lemma {:induction false} SlotReads(d: seq<byte>, specs: seq<Spec>, starts: seq<nat>, i: nat)
    requires AllPackable(specs, starts) && i < 4 && |d| >= 512 && d[..512] == MbrSector(specs, starts)
    ensures SlotIs(d, specs, starts, i)
  {
    var at := 446 + i * 16;
    assert i < |specs| ==> Packable(specs[i], starts[i]);
    hide MbrSector, EntryBytes, EntryIs, Packable, Zeros;
    SectorParts(specs, starts, i);
    InSector(d, MbrSector(specs, starts), at);
    hide AllPackable;
    if i < |specs| { RecordIs(d, at, specs[i], starts[i]); } else { BlankAt(d, at); }
  }

  lemma {:induction false} CodeIsZero(specs: seq<Spec>, starts: seq<nat>)
    requires AllPackable(specs, starts)
    ensures var m := MbrSector(specs, starts);
            m[510] == 0x55 && m[511] == 0xAA && forall k :: 0 <= k < 446 ==> m[k] == 0
  {
    var rs, blank := TableRegions(specs, starts), Zeros(512);
    hide EntryBytes, Packable, WriteAll;
    Untouched(blank, rs, 0, 446);
    var t := WriteAll(blank, rs);
    forall k | 0 <= k < 446 ensures t[k] == 0 { assert t[k] == t[0..446][k]; }
  }

  lemma {:induction false} TableReads(d: seq<byte>, specs: seq<Spec>, starts: seq<nat>)
    requires AllPackable(specs, starts) && |d| >= 512 && d[..512] == MbrSector(specs, starts)
    ensures TableIs(d, specs, starts)
  {
    var m := MbrSector(specs, starts);
    CodeIsZero(specs, starts);
    assert forall k :: 0 <= k < 512 ==> d[k] == m[k];
    hide MbrSector, AllPackable, SlotIs;
    forall i | 0 <= i < 4 ensures SlotIs(d, specs, starts, i) { SlotReads(d, specs, starts, i); }
  }

  /** No partition covers byte `k`. */
  ghost predicate Outside(specs: seq<Spec>, starts: seq<nat>, k: nat)
    requires |specs| == |starts|
  {
    forall i :: 0 <= i < |specs| ==> k < starts[i] * 512 || starts[i] * 512 + |specs[i].image| <= k
  }

  ghost predicate Earliest(specs: seq<Spec>, starts: seq<nat>, n: nat)
  {
    && FitTogether(specs, starts, n)
    && forall other, i :: FitTogether(specs, other, n) && 0 <= i < |specs| ==> starts[i] <= other[i]
  }

  lemma {:induction false} EarliestOfAll(specs: seq<Spec>, starts: seq<nat>, n: nat, other: seq<nat>, sizeMb: int)
    requires n == sizeMb * 2048 && Layout(specs, sizeMb) == Some(starts) && FitTogether(specs, other, n)
    ensures |other| == |starts| == |specs| && forall i :: 0 <= i < |specs| ==> starts[i] <= other[i]
  {
    assert n == TotalLbas(sizeMb);
    FitsComposable(specs, other, n);
    hide FitTogether;
    PlaceIsLeast(Slots(specs), 1, n - 1, other, 1);
  }

  lemma {:induction false} DiskOf(specs: seq<Spec>, sizeMb: int) returns (starts: seq<nat>, n: nat)
    requires MbrDisk(specs, sizeMb).Some?
    ensures Layout(specs, sizeMb) == Some(starts) && n == sizeMb * 2048 > 0 && |starts| == |specs|
    ensures Composable(specs, starts, n) && MbrDisk(specs, sizeMb).value == Written(specs, starts, n)
  {
    starts, n := Layout(specs, sizeMb).value, TotalLbas(sizeMb);
    assert n == sizeMb * 2048;
    hide Written, Place;
  }

  lemma {:induction false} DiskFits(specs: seq<Spec>, sizeMb: int) returns (starts: seq<nat>)
    requires MbrDisk(specs, sizeMb).Some?
    ensures Layout(specs, sizeMb) == Some(starts) && sizeMb > 0 && |starts| == |specs|
    ensures |MbrDisk(specs, sizeMb).value| == sizeMb * 1024 * 1024
    ensures Earliest(specs, starts, sizeMb * 2048)
  {
    var n: nat;
    starts, n := DiskOf(specs, sizeMb);
    hide MbrDisk, Layout, FitTogether, Written, Composable;
    ComposableFits(specs, starts, n);
    forall other, i | FitTogether(specs, other, n) && 0 <= i < |specs| ensures starts[i] <= other[i] {
      EarliestOfAll(specs, starts, n, other, sizeMb);
    }
  }

  /** Every partition is in place, and what is neither a partition nor the table is zero. */
  ghost predicate PartitionsAre(d: seq<byte>, specs: seq<Spec>, starts: seq<nat>)
    requires |specs| == |starts|
  {
    && (forall i :: 0 <= i < |specs| ==>
          && starts[i] * 512 + |specs[i].image| <= |d|
          && PartitionIs(d, specs[i].image, specs[i].patch, starts[i]))
    && forall k :: 512 <= k < |d| && Outside(specs, starts, k) ==> d[k] == 0
  }

  lemma {:induction false} WritesMiss(specs: seq<Spec>, starts: seq<nat>, sector: seq<byte>, k: nat)
    requires AllReady(Volumes(specs), starts) && |specs| == |starts| && |sector| == 512 && 512 <= k
    requires Outside(specs, starts, k)
    ensures var rs := Writes(sector, PartRegions(Volumes(specs), starts));
            forall i :: 0 <= i < |rs| ==> k + 1 <= rs[i].at || rs[i].End() <= k
  {
    var parts := PartRegions(Volumes(specs), starts);
    var rs := Writes(sector, parts);
    forall i | 0 <= i < |parts| ensures parts[i].at == starts[i] * 512 && |parts[i].data| == |specs[i].image| {}
    hide AllReady, PartRegions;
    forall i | 0 <= i < |rs| ensures k + 1 <= rs[i].at || rs[i].End() <= k {
      if i > 0 { assert rs[i] == parts[i - 1]; }
    }
  }

  lemma {:induction false} StaysZero(size: nat, rs: seq<Region>, k: nat)
    requires Fits(size, rs) && k < size && forall i :: 0 <= i < |rs| ==> k + 1 <= rs[i].at || rs[i].End() <= k
    ensures WriteAll(Zeros(size), rs)[k] == 0
  {
    var blank := Zeros(size);
    Untouched(blank, rs, k, k + 1);
    hide WriteAll;
    assert WriteAll(blank, rs)[k] == WriteAll(blank, rs)[k..k + 1][0] == blank[k..k + 1][0];
  }

  lemma {:induction false} GapIsZero(specs: seq<Spec>, starts: seq<nat>, total: nat, k: nat)
    requires Composable(specs, starts, total) && 512 <= k < total * 512 && |specs| == |starts|
    requires Outside(specs, starts, k)
    ensures Written(specs, starts, total)[k] == 0
  {
    WritesApart(specs, starts, total);
    assert AllReady(Volumes(specs), starts);
    var sector := MbrSector(specs, starts);
    var rs := Writes(sector, PartRegions(Volumes(specs), starts));
    assert Written(specs, starts, total) == WriteAll(Zeros(total * 512), rs);
    hide MbrSector, WriteAll, Disjoint, PartRegions, AllPackable, AllReady, Writes, Outside, Composable, Written;
    WritesMiss(specs, starts, sector, k);
    StaysZero(total * 512, rs, k);
  }

  lemma {:induction false} PartitionHeld(specs: seq<Spec>, sizeMb: int, starts: seq<nat>, i: nat)
    requires MbrDisk(specs, sizeMb).Some? && Layout(specs, sizeMb) == Some(starts) && i < |specs|
    ensures |starts| == |specs| && starts[i] * 512 + |specs[i].image| <= |MbrDisk(specs, sizeMb).value|
    ensures PartitionIs(MbrDisk(specs, sizeMb).value, specs[i].image, specs[i].patch, starts[i])
  {
    hide MbrDisk, Layout, PartitionIs, PartitionReady, FatPatch.Content;
    MbrPartitionReads(specs, sizeMb, i);
    ContentIs(MbrDisk(specs, sizeMb).value, specs[i].image, specs[i].patch, starts[i]);
  }

  lemma {:induction false} DiskContents(specs: seq<Spec>, sizeMb: int, starts: seq<nat>)
    requires MbrDisk(specs, sizeMb).Some? && Layout(specs, sizeMb) == Some(starts) && |starts| == |specs|
    ensures PartitionsAre(MbrDisk(specs, sizeMb).value, specs, starts)
  {
    var d := MbrDisk(specs, sizeMb).value;
    var same, n := DiskOf(specs, sizeMb);
    hide MbrDisk, Layout, PartitionIs, Outside, Written, Composable;
    forall i | 0 <= i < |specs|
      ensures starts[i] * 512 + |specs[i].image| <= |d|
      ensures PartitionIs(d, specs[i].image, specs[i].patch, starts[i])
    {
      PartitionHeld(specs, sizeMb, starts, i);
    }
    forall k | 512 <= k < |d| && Outside(specs, starts, k) ensures d[k] == 0 { GapIsZero(specs, starts, n, k); }
  }

  /** The whole disk: its length; where the partitions are, each as early as any placement allows;
      the table; what each partition holds; zeros elsewhere. */
  lemma {:induction false} MbrDiskIs(specs: seq<Spec>, sizeMb: int) returns (starts: seq<nat>)
    requires MbrDisk(specs, sizeMb).Some?
    ensures var d := MbrDisk(specs, sizeMb).value;
            && |d| == sizeMb * 1024 * 1024 > 0 && |starts| == |specs|
            && Earliest(specs, starts, sizeMb * 2048)
            && TableIs(d, specs, starts) && PartitionsAre(d, specs, starts)
  {
    hide MbrDisk, Layout, Earliest, TableIs, PartitionsAre;
    starts := DiskFits(specs, sizeMb);
    DiskContents(specs, sizeMb, starts);
    hide HoldsRegion, AllReady;
    var s := MbrDiskReads(specs, sizeMb);
    hide AllPackable, MbrSector;
    FirstSector(MbrDisk(specs, sizeMb).value, MbrSector(specs, s));
    TableReads(MbrDisk(specs, sizeMb).value, specs, s);
  }

  lemma {:induction false} FirstSector(d: seq<byte>, m: seq<byte>)
    requires |m| == 512 && HoldsRegion(d, Region(0, m))
    ensures |d| >= 512 && d[..512] == m
  {
  }
}
