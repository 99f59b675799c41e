/** A finished GPT disk in plain arithmetic: which manifests get one, and what its bytes are. */
module GptBytes {
  import opened Bytes
  import opened Text
  import opened Regions
  import opened Placement
  import opened FatPatch
  import opened Disk
  import opened DiskBytes
  import opened GptTable
  import opened GptImage

  // ----- which manifests are accepted -----

  /** A partition may lie at `start` of a disk of `n` sectors. */
  ghost predicate FitsAt(s: Spec, start: nat, n: int)
  {
    && |s.image| > 0 && |s.image| % 512 == 0
    && 0 <= s.attributes < 0x1_0000_0000_0000_0000 && |EncodeUtf16(s.name)| <= 36
    && s.alignment > 0 && start % s.alignment == 0 && (s.start == 0 || start == s.start)
    && 34 <= start && start + |s.image| / 512 <= n - 33
    && (s.patch ==> start < 0x1_0000_0000 && BootOk(s.image))
  }

  /** One to 128 partitions in order, none reaching into the next. */
  ghost predicate FitTogether(specs: seq<Spec>, starts: seq<nat>, n: int)
  {
    && 1 <= |specs| <= 128 && |starts| == |specs| && n <= 0x1_0000_0000_0000_0000
    && (forall i :: 0 <= i < |specs| ==> FitsAt(specs[i], starts[i], n))
    && (forall i, j :: 0 <= i < j < |specs| ==> starts[i] + |specs[i].image| / 512 <= starts[j])
  }

  lemma {:induction false} ReadyVolumes(specs: seq<Spec>, starts: seq<nat>)
    requires |specs| == |starts|
    ensures AllReady(Volumes(specs), starts) <==>
            forall i :: 0 <= i < |specs| && specs[i].patch ==> starts[i] < 0x1_0000_0000 && BootOk(specs[i].image)
  {
    hide VolumeReady, BootOk;
    forall i | 0 <= i < |specs|
      ensures VolumeReady(Volumes(specs)[i], starts[i]) <==>
              (specs[i].patch ==> starts[i] < 0x1_0000_0000 && BootOk(specs[i].image))
    {
      BootReady(specs[i].image, specs[i].patch, starts[i]);
    }
  }

  lemma {:induction false} ComposableFits(specs: seq<Spec>, starts: seq<nat>, n: nat)
    requires Composable(specs, starts, n)
    ensures FitTogether(specs, starts, n)
  {
    var slots := Slots(specs);
    ReadyVolumes(specs, starts);
    hide AllReady, BootOk, VolumeReady, EncodeUtf16;
    forall i | 0 <= i < |specs| ensures FitsAt(specs[i], starts[i], n) {
      assert PlacedAt(slots, starts, 34, n - 34, i);
      PlacedInside(slots, starts, 34, n - 34, i);
    }
    hide Placed, FitsAt;
    forall i, j | 0 <= i < j < |specs| ensures starts[i] + |specs[i].image| / 512 <= starts[j] {
      PlacedApart(slots, starts, 34, n - 34, i, j);
    }
  }

  lemma {:induction false} FitsComposable(specs: seq<Spec>, starts: seq<nat>, n: nat)
    requires FitTogether(specs, starts, n) && n >= 2048
    ensures Composable(specs, starts, n)
  {
    var slots := Slots(specs);
    assert forall i :: 0 <= i < |specs| ==> FitsAt(specs[i], starts[i], n);
    ReadyVolumes(specs, starts);
    hide AllReady, BootOk, VolumeReady, EncodeUtf16;
    var last := n - 34;
    forall i | 0 <= i < |specs| ensures PlacedAt(slots, starts, 34, last, i) {
      assert FitsAt(specs[i], starts[i], n);
      if i > 0 { assert FitsAt(specs[i - 1], starts[i - 1], n); }
    }
    hide FitsAt;
  }

  /** There is a disk if and only if the partitions fit together somewhere on `size` MiB. */
  lemma {:induction false} GptAccepts(crc: Crc, specs: seq<Spec>, sizeMb: int, guid: Guid)
    ensures GptDisk(crc, specs, sizeMb, guid).Some? <==>
            sizeMb > 0 && exists starts :: FitTogether(specs, starts, sizeMb * 1024 * 1024 / 512)
  {
    var n := sizeMb * 1024 * 1024 / 512;
    assert n == TotalLbas(sizeMb) == sizeMb * 2048;
    ComposedIff(crc, specs, sizeMb, guid);
    hide GptDisk, Composable, FitTogether;
    if starts :| Composable(specs, starts, n) { ComposableFits(specs, starts, n); }
    if starts :| FitTogether(specs, starts, n) { if sizeMb > 0 { FitsComposable(specs, starts, n); } }
  }

  // ----- the bytes -----

  /** The header at sector `at`, whose table starts at sector `entries`. */
  ghost predicate HeaderAt(crc: Crc, d: seq<byte>, at: nat, other: nat, entries: nat, guid: Guid)
    requires (at + 1) * 512 <= |d| && (entries + 32) * 512 <= |d|
  {
    var h := d[at * 512..at * 512 + 512];
    && h[..8] == [0x45, 0x46, 0x49, 0x20, 0x50, 0x41, 0x52, 0x54]
    && h[8..12] == [0, 0, 1, 0] && h[12..16] == [92, 0, 0, 0] && h[20..24] == [0, 0, 0, 0]
    && GetLe32(h, 16) == crc(h[..16] + [0, 0, 0, 0] + h[20..92])
    && GetLe64(h, 24) == at && GetLe64(h, 32) == other
    && GetLe64(h, 40) == 34 && GetLe64(h, 48) == |d| / 512 - 34
    && h[56..72] == guid && GetLe64(h, 72) == entries && GetLe32(h, 80) == 128 && GetLe32(h, 84) == 128
    && GetLe32(h, 88) == crc(d[entries * 512..(entries + 32) * 512])
    && forall k :: 92 <= k < 512 ==> h[k] == 0
  }

  lemma {:induction false} StartBytes()
    ensures HeaderStart() == [0x45, 0x46, 0x49, 0x20, 0x50, 0x41, 0x52, 0x54, 0, 0, 1, 0, 92, 0, 0, 0]
  {
  }

  lemma {:induction false} HeaderIs(crc: Crc, d: seq<byte>, h: Header)
    requires (h.current + 1) * 512 <= |d| && (h.entriesLba + 32) * 512 <= |d|
    requires Sector(d, h.current) == HeaderSector(crc, h)
    requires h.first == 34 && h.last == |d| / 512 - 34
    requires h.entriesCrc == crc(d[h.entriesLba * 512..(h.entriesLba + 32) * 512])
    ensures HeaderAt(crc, d, h.current, h.backup, h.entriesLba, h.guid)
  {
    HeaderReadsBack(crc, d, h);
    var s, c := HeaderSector(crc, h), crc(HeaderFields(h, 0));
    assert d[h.current * 512..h.current * 512 + 512] == s;
    SectorSplit(h, c);
    StartBytes();
    hide HeaderFields, HeaderStart, GetLe32, GetLe64, Sector, HeaderSector, ReadHeader;
  }

  lemma {:induction false} SectorSplit(h: Header, c: word32)
    ensures var s := HeaderFields(h, c) + Zeros(420);
            && s[..16] == HeaderStart() && s[20..24] == [0, 0, 0, 0] && s[..8] == HeaderStart()[..8]
            && s[8..12] == HeaderStart()[8..12] && s[12..16] == HeaderStart()[12..16]
            && s[..16] + [0, 0, 0, 0] + s[20..92] == HeaderFields(h, 0)
            && forall k :: 92 <= k < 512 ==> s[k] == 0
  {
    var f, z := HeaderFields(h, c), HeaderFields(h, 0);
    assert Zeros(4) == [0, 0, 0, 0] && Le32(0) == [0, 0, 0, 0];
    hide HeaderFields, HeaderStart, Lbas4, HeaderEnd, Le32;
    Padded92(f);
    Tail92(f, z);
  }

  lemma {:induction false} Padded92(f: seq<byte>)
    requires |f| == 92
    ensures var s := f + Zeros(420);
            && s[..8] == f[..16][..8] && s[8..12] == f[..16][8..12] && s[12..16] == f[..16][12..16]
            && s[..16] == f[..16] && s[20..24] == f[20..24] && s[20..92] == f[20..]
            && forall k :: 92 <= k < 512 ==> s[k] == 0
  {
  }

  lemma {:induction false} Tail92(f: seq<byte>, z: seq<byte>)
    requires |f| == |z| == 92 && f[..16] == z[..16] && z[16..20] == [0, 0, 0, 0] && f[20..24] == z[20..24]
    requires f[24..56] == z[24..56] && f[56..72] == z[56..72] && f[72..] == z[72..]
    ensures f[..16] + [0, 0, 0, 0] + f[20..] == z
  {
    assert f[20..] == f[20..24] + f[24..56] + f[56..72] + f[72..];
    assert z == z[..16] + z[16..20] + z[20..24] + z[24..56] + z[56..72] + z[72..];
  }

  /** The record at byte `o`. */
  ghost predicate EntryIs(d: seq<byte>, o: nat, s: Spec, start: nat)
    requires o + 128 <= |d|
  {
    var us := EncodeUtf16(s.name);
    && d[o..o + 16] == s.typeGuid && d[o + 16..o + 32] == s.uniqueGuid
    && GetLe64(d, o + 32) == start && GetLe64(d, o + 40) == start + |s.image| / 512 - 1
    && GetLe64(d, o + 48) == s.attributes
    && forall k :: 0 <= k < 36 ==> UnitAt(d, o + 56, k) == if k < |us| then us[k] else 0
  }

  function UnitAt(d: seq<byte>, o: nat, k: nat): int
    requires o + 2 * k + 2 <= |d|
  {
    (d[o + 2 * k] as int) + 256 * (d[o + 2 * k + 1] as int)
  }

  lemma {:induction false} NameIs(d: seq<byte>, at: nat, name: string)
    requires at + 72 <= |d| && |EncodeUtf16(name)| <= 36 && d[at..at + 72] == NameField(name)
    ensures var us := EncodeUtf16(name);
            forall k :: 0 <= k < 36 ==> UnitAt(d, at, k) == if k < |us| then us[k] else 0
  {
    FieldUnits(name);
    var us, field := EncodeUtf16(name), NameField(name);
    hide NameField, EncodeUtf16;
    forall k | 0 <= k < 36 ensures UnitAt(d, at, k) == if k < |us| then us[k] else 0 {
      assert field[2 * k] == d[at + 2 * k] && field[2 * k + 1] == d[at + 2 * k + 1];
      assert NameUnits(field)[k] == GetLe16(field, 2 * k);
    }
  }

  lemma {:induction false} LbasAre(d: seq<byte>, at: nat, a: word64, b: word64, c: word64)
    requires at + 24 <= |d| && d[at..at + 24] == Lbas3(a, b, c)
    ensures GetLe64(d, at) == a && GetLe64(d, at + 8) == b && GetLe64(d, at + 16) == c
  {
    hide Lbas3, GetLe64;
    SliceLe64(d, at, at + 24, 0);
    SliceLe64(d, at, at + 24, 8);
    SliceLe64(d, at, at + 24, 16);
  }

  lemma {:induction false} RecordIs(d: seq<byte>, o: nat, s: Spec, start: nat)
    requires o + 128 <= |d| && InfoFits(s, start) && ValidInfo(InfoOf(s, start))
    requires d[o..o + 128] == EntryBytes(InfoOf(s, start))
    ensures EntryIs(d, o, s, start)
  {
    var p, r := InfoOf(s, start), d[o..o + 128];
    hide EntryBytes, NameField, Lbas3, GetLe64, EncodeUtf16, UnitAt;
    SubSlice(d, o, r, 0, 16);
    SubSlice(d, o, r, 16, 32);
    SubSlice(d, o, r, 32, 56);
    SubSlice(d, o, r, 56, 128);
    assert r[..16] == r[0..16] && r[56..] == r[56..128];
    LbasAre(d, o + 32, p.start, p.end, p.attributes);
    NameIs(d, o + 56, p.name);
  }

  /** Slot `i` of the table at byte `o`: the record of a partition, or zeros. */
  ghost predicate SlotIs(d: seq<byte>, o: nat, specs: seq<Spec>, starts: seq<nat>, i: nat)
    requires |starts| == |specs| && o + 128 * i + 128 <= |d|
  {
    && (i < |specs| ==> EntryIs(d, o + 128 * i, specs[i], starts[i]))
    && (i >= |specs| ==> forall k :: o + 128 * i <= k < o + 128 * i + 128 ==> d[k] == 0)
  }

  lemma {:induction false} SlotBytes(d: seq<byte>, o: nat, table: seq<byte>, i: nat)
    requires |table| == ARRAY_SIZE && i < 128 && o + 16384 <= |d| && d[o..o + 16384] == table
    ensures d[o + 128 * i..o + 128 * i + 128] == EntryAt(table, i)
  {
    SubSlice(d, o, table, 128 * i, 128 * i + 128);
  }

  lemma {:induction false} BlankSlot(d: seq<byte>, at: nat)
    requires at + 128 <= |d| && d[at..at + 128] == Zeros(128)
    ensures forall k :: at <= k < at + 128 ==> d[k] == 0
  {
    forall k | at <= k < at + 128 ensures d[k] == 0 { assert d[k] == d[at..at + 128][k - at]; }
  }

  lemma {:induction false} TableSlot(specs: seq<Spec>, starts: seq<nat>, i: nat)
    requires Listable(specs, starts) && i < 128
    ensures i < |specs| ==>
              && InfoFits(specs[i], starts[i]) && ValidInfo(InfoOf(specs[i], starts[i]))
              && EntryAt(Table(specs, starts), i) == EntryBytes(InfoOf(specs[i], starts[i]))
    ensures i >= |specs| ==> EntryAt(Table(specs, starts), i) == Zeros(128)
  {
    hide EntryArray, EntryBytes, EncodeUtf16, EntryAt, InfoOf, InfoFits, ValidInfo;
    ArrayReadsBack(Infos(specs, starts), i);
  }

  lemma {:induction false} SlotFrom(d: seq<byte>, o: nat, specs: seq<Spec>, starts: seq<nat>, i: nat)
    requires |starts| == |specs| && i < 128 && o + 16384 <= |d|
    requires i < |specs| ==>
               && InfoFits(specs[i], starts[i]) && ValidInfo(InfoOf(specs[i], starts[i]))
               && d[o + 128 * i..o + 128 * i + 128] == EntryBytes(InfoOf(specs[i], starts[i]))
    requires i >= |specs| ==> d[o + 128 * i..o + 128 * i + 128] == Zeros(128)
    ensures SlotIs(d, o, specs, starts, i)
  {
    hide EntryBytes, EntryIs, InfoOf, InfoFits, ValidInfo, Zeros;
    if i < |specs| { RecordIs(d, o + 128 * i, specs[i], starts[i]); } else { BlankSlot(d, o + 128 * i); }
  }

  lemma {:induction false} SlotReads(d: seq<byte>, o: nat, specs: seq<Spec>, starts: seq<nat>, i: nat)
    requires Listable(specs, starts) && i < 128
    requires o + 16384 <= |d| && d[o..o + 16384] == Table(specs, starts)
    ensures |starts| == |specs| && SlotIs(d, o, specs, starts, i)
  {
    assert |starts| == |specs|;
    hide Listable, Table, EntryBytes, EntryAt, InfoOf, InfoFits, ValidInfo, Zeros, SlotIs;
    TableSlot(specs, starts, i);
    SlotBytes(d, o, Table(specs, starts), i);
    SlotFrom(d, o, specs, starts, i);
  }

  /** The protective table. */
  ghost predicate Protected(d: seq<byte>)
    requires |d| >= 512
  {
    && d[446..462] == [0, 0, 2, 0, 0xEE, 0xFF, 0xFF, 0xFF, 1, 0, 0, 0] + d[458..462]
    && GetLe32(d, 458) == Min(|d| / 512 - 1, 0xFFFF_FFFF) && d[510] == 0x55 && d[511] == 0xAA
    && (forall k :: 0 <= k < 446 ==> d[k] == 0) && forall k :: 462 <= k < 510 ==> d[k] == 0
  }

  lemma {:induction false} SectorProtected(d: seq<byte>, total: nat)
    requires total >= 1 && |d| == total * 512 && d[..512] == ProtectiveMbr(total)
    ensures Protected(d)
  {
    var m := ProtectiveMbr(total);
    ProtectiveEntry(total);
    MbrBytes(total);
    hide ProtectiveMbr;
    assert forall k :: 0 <= k < 512 ==> d[k] == m[k];
    assert d[446..462] == m[446..462] && d[458..462] == m[458..462];
  }

  lemma {:induction false} MbrBytes(total: nat)
    requires total >= 1
    ensures var m := ProtectiveMbr(total);
            && m[446..462] == [0, 0, 2, 0, 0xEE, 0xFF, 0xFF, 0xFF, 1, 0, 0, 0] + m[458..462]
            && forall k :: 0 <= k < 446 ==> m[k] == 0
  {
    assert Le32(1) == [1, 0, 0, 0];
    hide Le32;
  }

  /** No partition covers byte `k`. */
  ghost predicate Outside(specs: seq<Spec>, starts: seq<nat>, k: nat)
    requires |specs| == |starts|
  {
    forall i :: 0 <= i < |specs| ==> k < starts[i] * 512 || starts[i] * 512 + |specs[i].image| <= k
  }

  ghost predicate TablesAre(crc: Crc, d: seq<byte>, n: nat, guid: Guid)
    requires n >= 2048 && |d| == n * 512
  {
    && Protected(d)
    && HeaderAt(crc, d, 1, n - 1, 2, guid) && HeaderAt(crc, d, n - 1, 1, n - 33, guid)
    && d[2 * 512..34 * 512] == d[(n - 33) * 512..(n - 1) * 512]
  }

  lemma {:induction false} BothTables(crc: Crc, d: seq<byte>, n: nat, guid: Guid, table: seq<byte>)
    requires 2048 <= n <= LIMIT64 && |d| == n * 512 && |table| == 16384
    requires d[..512] == ProtectiveMbr(n)
    requires Sector(d, 1) == HeaderSector(crc, Primary(n, guid, crc(table)))
    requires Sector(d, n - 1) == HeaderSector(crc, Backup(n, guid, crc(table)))
    requires d[2 * 512..2 * 512 + 16384] == table == d[(n - 33) * 512..(n - 33) * 512 + 16384]
    ensures TablesAre(crc, d, n, guid)
  {
    hide ProtectiveMbr, HeaderSector, Sector, Protected, HeaderAt;
    SectorProtected(d, n);
    assert d[(n - 33) * 512..(n - 1) * 512] == table && d[2 * 512..34 * 512] == table;
    HeaderIs(crc, d, Primary(n, guid, crc(table)));
    HeaderIs(crc, d, Backup(n, guid, crc(table)));
  }

  lemma {:induction false} WrittenTables(
      crc: Crc, n: nat, guid: Guid, table: seq<byte>, parts: seq<Region>, c: Pieces)
    requires 2048 <= n <= LIMIT64 && |table| == 16384 && c == Tables(crc, n, guid, table, parts) && PiecesOk(c)
    ensures TablesAre(crc, Written(c), n, guid) && Written(c)[1024..1024 + 16384] == table
    ensures forall i :: 0 <= i < |parts| ==> HoldsRegion(Written(c), parts[i])
  {
    PiecesRead(c);
    hide Written, PiecesOk, TablesAre, HeaderSector, HoldsRegion, Sector, ProtectiveMbr, Primary, Backup;
    BothTables(crc, Written(c), n, guid, table);
  }

  ghost predicate Earliest(specs: seq<Spec>, starts: seq<nat>, n: nat)
  {
    && FitTogether(specs, starts, n)
    && forall other, i :: FitTogether(specs, other, n) && 0 <= i < |specs| ==> starts[i] <= other[i]
  }

  /** Every slot of the primary table. */
  ghost predicate SlotsAre(d: seq<byte>, specs: seq<Spec>, starts: seq<nat>)
    requires |d| >= 34 * 512 && |specs| == |starts|
  {
    forall i :: 0 <= i < 128 ==> SlotIs(d, 1024, specs, starts, i)
  }

  lemma {:induction false} EarliestOfAll(specs: seq<Spec>, starts: seq<nat>, n: nat, other: seq<nat>, sizeMb: int)
    requires n == sizeMb * 2048 >= 2048 && Layout(specs, sizeMb) == Some(starts) && FitTogether(specs, other, n)
    ensures |other| == |starts| == |specs| && forall i :: 0 <= i < |specs| ==> starts[i] <= other[i]
  {
    assert n == TotalLbas(sizeMb);
    FitsComposable(specs, other, n);
    hide FitTogether;
    PlaceIsLeast(Slots(specs), 34, n - 34, other, 34);
  }

  lemma {:induction false} DiskFits(crc: Crc, specs: seq<Spec>, sizeMb: int, guid: Guid) returns (starts: seq<nat>)
    requires GptDisk(crc, specs, sizeMb, guid).Some?
    ensures Layout(specs, sizeMb) == Some(starts) && sizeMb > 0 && |starts| == |specs|
    ensures Earliest(specs, starts, sizeMb * 2048)
  {
    var c: Pieces;
    var n := sizeMb * 2048;
    assert n == TotalLbas(sizeMb);
    starts, c := GptPieces(crc, specs, sizeMb, guid);
    assert n >= 2048;
    hide GptDisk, Layout, PiecesOf, PiecesOk, Listable, TotalLbas, Composable, FitTogether;
    ComposableFits(specs, starts, n);
    forall other, i | FitTogether(specs, other, n) && 0 <= i < |specs| ensures starts[i] <= other[i] {
      EarliestOfAll(specs, starts, n, other, sizeMb);
    }
  }

  lemma {:induction false} SlotsRead(d: seq<byte>, specs: seq<Spec>, starts: seq<nat>)
    requires Listable(specs, starts) && |d| >= 34 * 512 && d[1024..1024 + 16384] == Table(specs, starts)
    ensures |specs| == |starts| && SlotsAre(d, specs, starts)
  {
    assert |specs| == |starts|;
    hide Listable, Table, SlotIs;
    forall i | 0 <= i < 128 ensures SlotIs(d, 1024, specs, starts, i) { SlotReads(d, 1024, specs, starts, i); }
  }

  lemma {:induction false} DiskTables(crc: Crc, specs: seq<Spec>, sizeMb: int, guid: Guid, starts: seq<nat>)
    requires GptDisk(crc, specs, sizeMb, guid).Some? && Layout(specs, sizeMb) == Some(starts)
    ensures var d := GptDisk(crc, specs, sizeMb, guid).value; var n := sizeMb * 2048;
            && n >= 2048 && |d| == n * 512 && |starts| == |specs| && TablesAre(crc, d, n, guid)
            && SlotsAre(d, specs, starts)
  {
    var s, c := GptPieces(crc, specs, sizeMb, guid);
    var n := sizeMb * 2048;
    assert n == TotalLbas(sizeMb);
    PiecesAre(crc, specs, starts, n, guid);
    assert 2048 <= n <= LIMIT64 && |Written(c)| == n * 512;
    hide GptDisk, Layout, PiecesOf, PiecesOk, Written, TotalLbas, Composable, AllReady, PartRegions, Tables;
    hide HoldsRegion, TablesAre, SlotIs, Listable;
    WrittenTables(crc, n, guid, Table(specs, starts), PartRegions(Volumes(specs), starts), c);
    hide Table, SlotsAre;
    SlotsRead(Written(c), specs, starts);
  }

  lemma {:induction false} PartitionHeld(
      crc: Crc, specs: seq<Spec>, sizeMb: int, guid: Guid, starts: seq<nat>, i: nat)
    requires GptDisk(crc, specs, sizeMb, guid).Some? && Layout(specs, sizeMb) == Some(starts) && i < |specs|
    ensures |starts| == |specs| && starts[i] * 512 + |specs[i].image| <= |GptDisk(crc, specs, sizeMb, guid).value|
    ensures PartitionIs(GptDisk(crc, specs, sizeMb, guid).value, specs[i].image, specs[i].patch, starts[i])
  {
    hide GptDisk, Layout, PartitionIs, PartitionReady, FatPatch.Content;
    GptPartitionReads(crc, specs, sizeMb, guid, i);
    ContentIs(GptDisk(crc, specs, sizeMb, guid).value, specs[i].image, specs[i].patch, starts[i]);
  }

  lemma {:induction false} GapIsZero(crc: Crc, specs: seq<Spec>, sizeMb: int, guid: Guid, starts: seq<nat>, k: nat)
    requires GptDisk(crc, specs, sizeMb, guid).Some? && Layout(specs, sizeMb) == Some(starts) && |starts| == |specs|
    requires |GptDisk(crc, specs, sizeMb, guid).value| == TotalLbas(sizeMb) * 512
    requires 34 * 512 <= k < |GptDisk(crc, specs, sizeMb, guid).value| - 33 * 512 && Outside(specs, starts, k)
    ensures GptDisk(crc, specs, sizeMb, guid).value[k] == 0
  {
    hide GptDisk, Layout, TotalLbas;
    GptElsewhereZero(crc, specs, sizeMb, guid, k);
  }

  /** Every partition is in place, and what is neither a partition nor a table is zero. */
  ghost predicate PartitionsAre(d: seq<byte>, specs: seq<Spec>, starts: seq<nat>)
    requires |specs| == |starts|
  {
    && (forall i :: 0 <= i < |specs| ==>
          starts[i] * 512 + |specs[i].image| <= |d| && PartitionIs(d, specs[i].image, specs[i].patch, starts[i]))
    && forall k :: 34 * 512 <= k < |d| - 33 * 512 && Outside(specs, starts, k) ==> d[k] == 0
  }

  lemma {:induction false} AllHeld(crc: Crc, specs: seq<Spec>, sizeMb: int, guid: Guid, starts: seq<nat>)
    requires GptDisk(crc, specs, sizeMb, guid).Some? && Layout(specs, sizeMb) == Some(starts) && |starts| == |specs|
    ensures var d := GptDisk(crc, specs, sizeMb, guid).value;
            forall i :: 0 <= i < |specs| ==>
              && starts[i] * 512 + |specs[i].image| <= |d|
              && PartitionIs(d, specs[i].image, specs[i].patch, starts[i])
  {
    hide GptDisk, Layout, PartitionIs;
    forall i | 0 <= i < |specs|
      ensures starts[i] * 512 + |specs[i].image| <= |GptDisk(crc, specs, sizeMb, guid).value|
      ensures PartitionIs(GptDisk(crc, specs, sizeMb, guid).value, specs[i].image, specs[i].patch, starts[i])
    {
      PartitionHeld(crc, specs, sizeMb, guid, starts, i);
    }
  }

  lemma {:induction false} DiskContents(crc: Crc, specs: seq<Spec>, sizeMb: int, guid: Guid, starts: seq<nat>)
    requires GptDisk(crc, specs, sizeMb, guid).Some? && Layout(specs, sizeMb) == Some(starts) && |starts| == |specs|
    requires |GptDisk(crc, specs, sizeMb, guid).value| == TotalLbas(sizeMb) * 512
    ensures PartitionsAre(GptDisk(crc, specs, sizeMb, guid).value, specs, starts)
  {
    hide GptDisk, Layout, PartitionIs, Outside, TotalLbas;
    AllHeld(crc, specs, sizeMb, guid, starts);
    GapsAreZero(crc, specs, sizeMb, guid, starts);
  }

  lemma {:induction false} GapsAreZero(crc: Crc, specs: seq<Spec>, sizeMb: int, guid: Guid, starts: seq<nat>)
    requires GptDisk(crc, specs, sizeMb, guid).Some? && Layout(specs, sizeMb) == Some(starts) && |starts| == |specs|
    requires |GptDisk(crc, specs, sizeMb, guid).value| == TotalLbas(sizeMb) * 512
    ensures var d := GptDisk(crc, specs, sizeMb, guid).value;
            forall k :: 34 * 512 <= k < |d| - 33 * 512 && Outside(specs, starts, k) ==> d[k] == 0
  {
    hide GptDisk, Layout, Outside, TotalLbas;
    var n := |GptDisk(crc, specs, sizeMb, guid).value|;
    forall k | 34 * 512 <= k < n - 33 * 512 && Outside(specs, starts, k)
      ensures GptDisk(crc, specs, sizeMb, guid).value[k] == 0
    {
      GapIsZero(crc, specs, sizeMb, guid, starts, k);
    }
  }

  /** The whole disk: its length; where the partitions are, each as early as any placement allows;
      both headers, both tables and the protective table; what each partition holds; zeros between. */
  lemma {:induction false} GptDiskIs(crc: Crc, specs: seq<Spec>, sizeMb: int, guid: Guid) returns (starts: seq<nat>)
    requires GptDisk(crc, specs, sizeMb, guid).Some?
    ensures var d := GptDisk(crc, specs, sizeMb, guid).value; var n := sizeMb * 2048;
            && |d| == sizeMb * 1024 * 1024 && n >= 2048 && |starts| == |specs|
            && Earliest(specs, starts, n) && TablesAre(crc, d, n, guid)
            && SlotsAre(d, specs, starts) && PartitionsAre(d, specs, starts)
  {
    hide GptDisk, Layout, Earliest, TablesAre, SlotsAre, PartitionsAre;
    starts := DiskFits(crc, specs, sizeMb, guid);
    DiskTables(crc, specs, sizeMb, guid, starts);
    assert TotalLbas(sizeMb) * 512 == sizeMb * 1024 * 1024;
    DiskContents(crc, specs, sizeMb, guid, starts);
  }
}
