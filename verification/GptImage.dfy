/** `create_gpt_image`: tables at both ends of the disk, partitions between them. */
module GptImage {
  import opened Bytes
  import opened Text
  import opened Regions
  import opened Placement
  import opened FatPatch
  import opened Disk
  import opened GptTable

  /** A partition spec with its image read and its GUIDs settled. */
  datatype Spec = Spec(
    image: seq<byte>, typeGuid: Guid, uniqueGuid: Guid, name: string, attributes: int, alignment: int, start: int,
    patch: bool)

  const FIRST := 34

  function SlotOf(s: Spec): Slot { Slot(|s.image|, s.alignment, s.start, 0 <= s.attributes < LIMIT64) }

  function Slots(specs: seq<Spec>): (r: seq<Slot>)
    ensures |r| == |specs| && forall i :: 0 <= i < |r| ==> r[i] == SlotOf(specs[i])
  {
    seq(|specs|, i requires 0 <= i < |specs| => SlotOf(specs[i]))
  }

  function Volumes(specs: seq<Spec>): (r: seq<Volume>)
    ensures |r| == |specs| && forall i :: 0 <= i < |r| ==> r[i] == Volume(specs[i].image, specs[i].patch)
  {
    seq(|specs|, i requires 0 <= i < |specs| => Volume(specs[i].image, specs[i].patch))
  }

  /** The start LBAs, if the partitions can be placed and their LBAs packed. */
  function Layout(specs: seq<Spec>, sizeMb: int): (r: Option<seq<nat>>)
    ensures r.Some? ==> |r.value| == |specs|
  {
    var total := TotalLbas(sizeMb);
    if sizeMb <= 0 || specs == [] || |specs| > ENTRIES || total > LIMIT64 then None
    else Place(Slots(specs), FIRST, total - 34)
  }

  ghost predicate LaidOut(specs: seq<Spec>, starts: seq<nat>, total: int)
  {
    && 0 < |specs| <= ENTRIES && |starts| == |specs| && 2048 <= total <= LIMIT64
    && Placed(Slots(specs), starts, FIRST, total - 34)
  }

  lemma {:induction false} LayoutLaidOut(specs: seq<Spec>, sizeMb: int)
    requires Layout(specs, sizeMb).Some?
    ensures LaidOut(specs, Layout(specs, sizeMb).value, TotalLbas(sizeMb))
  {
    assert TotalLbas(sizeMb) == sizeMb * 2048;
    hide Place, Placed;
    PlaceIsSound(Slots(specs), FIRST, TotalLbas(sizeMb) - 34);
  }

  predicate InfoFits(s: Spec, start: nat)
  {
    0 <= s.attributes < LIMIT64 && |s.image| >= 512 && start + |s.image| / 512 <= LIMIT64
  }

  function InfoOf(s: Spec, start: nat): Info
    requires InfoFits(s, start)
  {
    Info(s.typeGuid, s.uniqueGuid, start, start + |s.image| / 512 - 1, s.attributes, s.name)
  }

  lemma {:induction false} SpecFits(specs: seq<Spec>, starts: seq<nat>, total: int, i: nat)
    requires LaidOut(specs, starts, total) && i < |specs|
    ensures InfoFits(specs[i], starts[i])
    ensures FIRST * 512 <= starts[i] * 512 && starts[i] * 512 + |specs[i].image| <= (total - 33) * 512
  {
    SlotBytes(Slots(specs), starts, FIRST, total - 34, i);
    PlacedInside(Slots(specs), starts, FIRST, total - 34, i);
    assert PlacedAt(Slots(specs), starts, FIRST, total - 34, i);
  }

  function Infos(specs: seq<Spec>, starts: seq<nat>): (r: seq<Info>)
    requires |specs| == |starts| && forall i :: 0 <= i < |specs| ==> InfoFits(specs[i], starts[i])
    ensures |r| == |specs| && forall i :: 0 <= i < |r| ==> r[i] == InfoOf(specs[i], starts[i])
  {
    seq(|specs|, i requires 0 <= i < |specs| => InfoOf(specs[i], starts[i]))
  }

  /** The entries can be packed: every name fits its field. */
  predicate Listable(specs: seq<Spec>, starts: seq<nat>)
  {
    && |specs| == |starts| && (forall i :: 0 <= i < |specs| ==> InfoFits(specs[i], starts[i]))
    && ValidInfos(Infos(specs, starts))
  }

  function Table(specs: seq<Spec>, starts: seq<nat>): (r: seq<byte>)
    requires Listable(specs, starts)
    ensures |r| == ARRAY_SIZE
  {
    EntryArray(Infos(specs, starts))
  }

  // ----- the writes -----

  function ProtectiveMbr(total: nat): (r: seq<byte>)
    requires total >= 1
    ensures |r| == 512
  {
    Zeros(446) + [0] + [0, 2, 0] + [0xEE] + [0xFF, 0xFF, 0xFF] + Le32(1) + Le32(Min(total - 1, 0xFFFF_FFFF)) + Zeros(48)
    + [0x55, 0xAA]
  }

  /** The protective entry covers the disk, or as much of it as 32 bits can say. */
  lemma {:induction false} ProtectiveEntry(total: nat)
    requires total >= 1
    ensures var m := ProtectiveMbr(total);
            && m[446] == 0 && m[450] == 0xEE && m[510] == 0x55 && m[511] == 0xAA
            && GetLe32(m, 454) == 1 && GetLe32(m, 458) == Min(total - 1, 0xFFFF_FFFF)
            && forall k :: 462 <= k < 510 ==> m[k] == 0
  {
    var m := ProtectiveMbr(total);
    hide Le32;
    assert m[454..458] == Le32(1) && m[458..462] == Le32(Min(total - 1, 0xFFFF_FFFF));
    Le32RoundTrip(m, 454, 1);
    Le32RoundTrip(m, 458, Min(total - 1, 0xFFFF_FFFF));
  }

  function Primary(total: nat, guid: Guid, entriesCrc: word32): Header
    requires 2048 <= total <= LIMIT64
  {
    Header(1, total - 1, FIRST, total - 34, guid, 2, entriesCrc)
  }

  function Backup(total: nat, guid: Guid, entriesCrc: word32): Header
    requires 2048 <= total <= LIMIT64
  {
    Header(total - 1, 1, FIRST, total - 34, guid, total - 33, entriesCrc)
  }

  function Head(total: nat, mbr: seq<byte>, header: seq<byte>, table: seq<byte>): seq<Region>
  {
    [Region(0, mbr), Region(512, header), Region(1024, table)]
  }

  function Tail(total: nat, header: seq<byte>, table: seq<byte>): seq<Region>
    requires total >= 2048
  {
    [Region((total - 33) * 512, table), Region((total - 1) * 512, header)]
  }

  lemma {:induction false} TablesApart(
      total: nat, mbr: seq<byte>, primary: seq<byte>, backup: seq<byte>, table: seq<byte>)
    requires total >= 2048 && |mbr| == |primary| == |backup| == 512 && |table| == ARRAY_SIZE
    ensures Within(0, FIRST * 512, Head(total, mbr, primary, table)) && Disjoint(Head(total, mbr, primary, table))
    ensures Within((total - 33) * 512, total * 512, Tail(total, backup, table)) && Disjoint(Tail(total, backup, table))
  {
  }

  /** All that is written. */
  datatype Pieces = Pieces(
    total: nat, mbr: seq<byte>, primary: seq<byte>, backup: seq<byte>, table: seq<byte>, parts: seq<Region>)

  ghost predicate PiecesOk(c: Pieces)
  {
    && c.total >= 2048 && |c.mbr| == |c.primary| == |c.backup| == 512 && |c.table| == ARRAY_SIZE
    && Within(FIRST * 512, (c.total - 33) * 512, c.parts) && Disjoint(c.parts)
  }

  function Writes(c: Pieces): seq<Region>
    requires c.total >= 2048
  {
    Head(c.total, c.mbr, c.primary, c.table) + c.parts + Tail(c.total, c.backup, c.table)
  }

  lemma {:induction false} WritesApart(c: Pieces)
    requires PiecesOk(c)
    ensures Fits(c.total * 512, Writes(c)) && Disjoint(Writes(c))
  {
    TablesApart(c.total, c.mbr, c.primary, c.backup, c.table);
    hide Head, Tail, Within, Disjoint;
    Sandwich(c.total * 512, Head(c.total, c.mbr, c.primary, c.table), c.parts, Tail(c.total, c.backup, c.table),
             FIRST * 512, (c.total - 33) * 512);
  }

  function Written(c: Pieces): (disk: seq<byte>)
    requires PiecesOk(c)
    ensures |disk| == c.total * 512
  {
    WritesApart(c);
    WriteAll(Zeros(c.total * 512), Writes(c))
  }

  function Tables(crc: Crc, total: nat, guid: Guid, table: seq<byte>, parts: seq<Region>): (c: Pieces)
    requires 2048 <= total <= LIMIT64 && |table| == ARRAY_SIZE
    ensures Within(FIRST * 512, (total - 33) * 512, parts) && Disjoint(parts) ==> PiecesOk(c)
  {
    hide Within, Disjoint, HeaderSector, ProtectiveMbr;
    Pieces(total, ProtectiveMbr(total), HeaderSector(crc, Primary(total, guid, crc(table))),
           HeaderSector(crc, Backup(total, guid, crc(table))), table, parts)
  }

  lemma {:induction false} PartsOk(specs: seq<Spec>, starts: seq<nat>, total: nat)
    requires LaidOut(specs, starts, total) && AllReady(Volumes(specs), starts)
    ensures Within(FIRST * 512, (total - 33) * 512, PartRegions(Volumes(specs), starts))
    ensures Disjoint(PartRegions(Volumes(specs), starts))
  {
    hide PartitionReady, Within, Disjoint, PartRegions, Placed, AllReady;
    PartsInside(Volumes(specs), Slots(specs), starts, FIRST, total - 34);
    PartsApart(Volumes(specs), Slots(specs), starts, FIRST, total - 34);
  }

  function PiecesOf(crc: Crc, specs: seq<Spec>, starts: seq<nat>, total: nat, guid: Guid): (c: Pieces)
    requires LaidOut(specs, starts, total) && AllReady(Volumes(specs), starts)
    requires Listable(specs, starts)
    ensures PiecesOk(c)
  {
    PartsOk(specs, starts, total);
    hide Listable, AllReady, Within, Disjoint, PartRegions, Placed, Table, Tables;
    Tables(crc, total, guid, Table(specs, starts), PartRegions(Volumes(specs), starts))
  }

  ghost predicate Composable(specs: seq<Spec>, starts: seq<nat>, total: int)
  {
    && LaidOut(specs, starts, total) && AllReady(Volumes(specs), starts)
    && NamesFit(specs)
  }

  predicate NamesFit(specs: seq<Spec>) { forall i :: 0 <= i < |specs| ==> |EncodeUtf16(specs[i].name)| <= 36 }

  lemma {:induction false} ComposableInfos(specs: seq<Spec>, starts: seq<nat>, total: int)
    requires LaidOut(specs, starts, total)
    ensures forall i :: 0 <= i < |specs| ==> InfoFits(specs[i], starts[i])
    ensures Listable(specs, starts) <==> NamesFit(specs)
  {
    hide InfoFits, Placed;
    forall i | 0 <= i < |specs| ensures InfoFits(specs[i], starts[i]) { SpecFits(specs, starts, total, i); }
    var infos := Infos(specs, starts);
    assert forall i :: 0 <= i < |specs| ==> infos[i].name == specs[i].name;
    if ValidInfos(infos) {
      forall i | 0 <= i < |specs| ensures |EncodeUtf16(specs[i].name)| <= 36 { assert ValidInfo(infos[i]); }
    }
  }

  /** What the tool produces; `None` is any exception. */
  ghost function GptDisk(crc: Crc, specs: seq<Spec>, sizeMb: int, guid: Guid): Option<seq<byte>>
  {
    var starts, total := Layout(specs, sizeMb), TotalLbas(sizeMb);
    if starts.None? then None
    else
      LayoutLaidOut(specs, sizeMb);
      ComposableInfos(specs, starts.value, total);
      hide Layout, LaidOut, PiecesOf, PiecesOk;
      if !Composable(specs, starts.value, total) then None
      else Some(Written(PiecesOf(crc, specs, starts.value, total, guid)))
  }

  // ----- what a reader of the disk finds -----

  lemma {:induction false} WriteReadsBack(c: Pieces, i: nat)
    requires PiecesOk(c) && i < |Writes(c)|
    ensures var r := Writes(c)[i]; r.End() <= c.total * 512 && Written(c)[r.at..r.End()] == r.data
  {
    WritesApart(c);
    hide Disjoint, Fits, Writes, PiecesOk, WriteAll;
    DisjointReadsBack(Zeros(c.total * 512), Writes(c), i);
  }

  /** Both copies of every table, and every partition. */
  lemma {:induction false} PiecesRead(c: Pieces)
    requires PiecesOk(c)
    ensures var d := Written(c); var n := c.total;
            && d[..512] == c.mbr && Sector(d, 1) == c.primary && Sector(d, n - 1) == c.backup
            && d[2 * 512..2 * 512 + ARRAY_SIZE] == c.table
            && d[(n - 33) * 512..(n - 33) * 512 + ARRAY_SIZE] == c.table
            && forall i :: 0 <= i < |c.parts| ==> HoldsRegion(d, c.parts[i])
  {
    hide Written, Within, Disjoint;
    var rs, m := Writes(c), |c.parts|;
    assert rs[0] == Region(0, c.mbr) && rs[1] == Region(512, c.primary) && rs[2] == Region(1024, c.table);
    assert rs[3 + m] == Region((c.total - 33) * 512, c.table) && rs[4 + m] == Region((c.total - 1) * 512, c.backup);
    WriteReadsBack(c, 0);
    WriteReadsBack(c, 1);
    WriteReadsBack(c, 2);
    WriteReadsBack(c, 3 + m);
    WriteReadsBack(c, 4 + m);
    forall i | 0 <= i < m ensures HoldsRegion(Written(c), c.parts[i]) {
      assert rs[3 + i] == c.parts[i];
      WriteReadsBack(c, 3 + i);
    }
  }

  /** Nothing else is written. */
  lemma {:induction false} OthersZero(c: Pieces, k: nat)
    requires PiecesOk(c) && FIRST * 512 <= k < (c.total - 33) * 512
    requires forall i :: 0 <= i < |c.parts| ==> k < c.parts[i].at || c.parts[i].End() <= k
    ensures Written(c)[k] == 0
  {
    WritesApart(c);
    var rs, m := Writes(c), |c.parts|;
    forall i | 0 <= i < |rs| ensures k + 1 <= rs[i].at || rs[i].End() <= k {
      assert rs[i] == if i < 3 then Head(c.total, c.mbr, c.primary, c.table)[i]
                      else if i < 3 + m then c.parts[i - 3] else Tail(c.total, c.backup, c.table)[i - 3 - m];
    }
    hide Disjoint, WriteAll, Writes;
    var blank := Zeros(c.total * 512);
    Untouched(blank, rs, k, k + 1);
    assert Written(c)[k..k + 1][0] == blank[k..k + 1][0] == 0;
  }

  ghost predicate Mirrors(a: Header, b: Header)
  {
    a.current == b.backup && a.backup == b.current && a.first == b.first && a.last == b.last && a.guid == b.guid
  }

  /** Both tables pass every check of the reader, mirror each other and list the same entries. */
  ghost predicate TablesValidate(crc: Crc, d: seq<byte>, n: nat, guid: Guid, table: seq<byte>)
    requires 2048 <= n <= LIMIT64
  {
    var p, b := Primary(n, guid, crc(table)), Backup(n, guid, crc(table));
    && ReadTable(crc, d, 1) == Some((p, table)) && ReadTable(crc, d, n - 1) == Some((b, table)) && Mirrors(p, b)
  }

  lemma {:induction false} TwoTables(crc: Crc, d: seq<byte>, n: nat, guid: Guid, table: seq<byte>)
    requires 2048 <= n <= LIMIT64 && |d| == n * 512 && |table| == ARRAY_SIZE
    requires Sector(d, 1) == HeaderSector(crc, Primary(n, guid, crc(table)))
    requires d[2 * 512..2 * 512 + ARRAY_SIZE] == table
    requires Sector(d, n - 1) == HeaderSector(crc, Backup(n, guid, crc(table)))
    requires d[(n - 33) * 512..(n - 33) * 512 + ARRAY_SIZE] == table
    ensures TablesValidate(crc, d, n, guid, table)
  {
    hide HeaderSector, ReadTable, Sector;
    TableReadsBack(crc, d, Primary(n, guid, crc(table)), table);
    TableReadsBack(crc, d, Backup(n, guid, crc(table)), table);
  }

  lemma {:induction false} TablesRead(crc: Crc, c: Pieces, total: nat, guid: Guid, table: seq<byte>, parts: seq<Region>)
    requires 2048 <= total <= LIMIT64 && |table| == ARRAY_SIZE && c == Tables(crc, total, guid, table, parts)
    requires PiecesOk(c)
    ensures TablesValidate(crc, Written(c), total, guid, table)
  {
    PiecesRead(c);
    hide Written, PiecesOk, TablesValidate, HeaderSector, HoldsRegion, Sector, ProtectiveMbr, Primary, Backup;
    TwoTables(crc, Written(c), total, guid, table);
  }

  // ----- the tool -----

  lemma {:induction false} GptPieces(
      crc: Crc, specs: seq<Spec>, sizeMb: int, guid: Guid)
    returns (starts: seq<nat>, c: Pieces)
    requires GptDisk(crc, specs, sizeMb, guid).Some?
    ensures Layout(specs, sizeMb) == Some(starts) && Composable(specs, starts, TotalLbas(sizeMb))
    ensures Listable(specs, starts)
    ensures PiecesOk(c) && c == PiecesOf(crc, specs, starts, TotalLbas(sizeMb), guid)
    ensures GptDisk(crc, specs, sizeMb, guid).value == Written(c)
  {
    starts := Layout(specs, sizeMb).value;
    LayoutLaidOut(specs, sizeMb);
    ComposableInfos(specs, starts, TotalLbas(sizeMb));
    hide Layout, LaidOut, PiecesOf, PiecesOk, AllReady, Listable;
    c := PiecesOf(crc, specs, starts, TotalLbas(sizeMb), guid);
  }

  lemma {:induction false} PiecesAre(crc: Crc, specs: seq<Spec>, starts: seq<nat>, total: nat, guid: Guid)
    requires LaidOut(specs, starts, total) && AllReady(Volumes(specs), starts)
    requires Listable(specs, starts)
    ensures PiecesOf(crc, specs, starts, total, guid)
         == Tables(crc, total, guid, Table(specs, starts), PartRegions(Volumes(specs), starts))
  {
    hide Listable, AllReady, PartRegions, Placed, Table, Tables, LaidOut;
  }

  /** The finished disk validates as GPT. */
  lemma {:induction false} GptTablesValidate(
      crc: Crc, specs: seq<Spec>, sizeMb: int, guid: Guid)
    returns (starts: seq<nat>, table: seq<byte>)
    requires GptDisk(crc, specs, sizeMb, guid).Some?
    ensures Layout(specs, sizeMb) == Some(starts) && 2048 <= TotalLbas(sizeMb) <= LIMIT64
    ensures Listable(specs, starts)
    ensures table == Table(specs, starts)
    ensures TablesValidate(crc, GptDisk(crc, specs, sizeMb, guid).value, TotalLbas(sizeMb), guid, table)
  {
    hide GptDisk, Layout, PiecesOf, PiecesOk, Placed, AllReady, Listable, Written, Table, TablesValidate;
    var c: Pieces;
    starts, c := GptPieces(crc, specs, sizeMb, guid);
    table := Table(specs, starts);
    PiecesAre(crc, specs, starts, TotalLbas(sizeMb), guid);
    hide Tables, PartRegions;
    TablesRead(crc, c, TotalLbas(sizeMb), guid, table, PartRegions(Volumes(specs), starts));
  }

  /** Its entries read back: the i-th is the i-th partition, where it was placed; the rest are blank. */
  lemma {:induction false} GptEntriesRead(specs: seq<Spec>, starts: seq<nat>, i: nat)
    requires Listable(specs, starts) && i < ENTRIES
    ensures i < |specs| ==>
              ReadEntry(EntryAt(Table(specs, starts), i)) ==
              Some(InfoOf(specs[i], starts[i]).(name := RStrip(specs[i].name)))
    ensures i >= |specs| ==> EntryAt(Table(specs, starts), i) == Zeros(128)
  {
    var infos := Infos(specs, starts);
    hide ReadEntry, EntryAt, EntryArray, EntryBytes, RStrip;
    ArrayReadsBack(infos, i);
    if i < |specs| {
      assert ValidInfo(infos[i]);
      EntryReadsBack(infos[i]);
    }
  }

  /** Every partition holds its image, but for the hidden-sector fields of a patched one. */
  lemma {:induction false} GptPartitionReads(crc: Crc, specs: seq<Spec>, sizeMb: int, guid: Guid, i: nat)
    requires GptDisk(crc, specs, sizeMb, guid).Some? && i < |specs|
    ensures Layout(specs, sizeMb).Some?
    ensures var at := Layout(specs, sizeMb).value[i]; var disk := GptDisk(crc, specs, sizeMb, guid).value;
            && PartitionReady(specs[i].image, specs[i].patch, at) && at * 512 + |specs[i].image| <= |disk|
            && disk[at * 512..at * 512 + |specs[i].image|] == FatPatch.Content(specs[i].image, specs[i].patch, at)
  {
    hide GptDisk, Layout, PiecesOf, PiecesOk, Placed, Listable, Written, Table, FatPatch.Content, PartitionReady;
    hide PartRegions, AllReady, TotalLbas, Sector;
    var starts, c := GptPieces(crc, specs, sizeMb, guid);
    PartsAre(crc, specs, starts, TotalLbas(sizeMb), guid);
    PartitionIn(specs, starts, i);
    PiecesRead(c);
    assert HoldsRegion(Written(c), c.parts[i]);
  }

  lemma {:induction false} PartsAre(crc: Crc, specs: seq<Spec>, starts: seq<nat>, total: nat, guid: Guid)
    requires LaidOut(specs, starts, total) && AllReady(Volumes(specs), starts) && Listable(specs, starts)
    ensures var c := PiecesOf(crc, specs, starts, total, guid);
            c.parts == PartRegions(Volumes(specs), starts) && c.total == total
  {
    PiecesAre(crc, specs, starts, total, guid);
    hide PiecesOf, Listable, AllReady, PartRegions, Table, LaidOut, HeaderSector, ProtectiveMbr, Primary, Backup;
  }

  lemma {:induction false} PartitionIn(specs: seq<Spec>, starts: seq<nat>, i: nat)
    requires AllReady(Volumes(specs), starts) && i < |specs|
    ensures PartitionReady(specs[i].image, specs[i].patch, starts[i])
    ensures PartRegions(Volumes(specs), starts)[i] ==
            Region(starts[i] * 512, FatPatch.Content(specs[i].image, specs[i].patch, starts[i]))
  {
    assert VolumeReady(Volumes(specs)[i], starts[i]);
    hide PartitionReady, FatPatch.Content;
  }

  /** Between the tables, bytes outside every partition are zero. */
  lemma {:induction false} GptElsewhereZero(crc: Crc, specs: seq<Spec>, sizeMb: int, guid: Guid, k: nat)
    requires GptDisk(crc, specs, sizeMb, guid).Some? && Layout(specs, sizeMb).Some?
    requires FIRST * 512 <= k < (TotalLbas(sizeMb) - 33) * 512 <= |GptDisk(crc, specs, sizeMb, guid).value|
    requires forall i :: 0 <= i < |specs| ==>
               var at := Layout(specs, sizeMb).value[i] * 512; k < at || at + |specs[i].image| <= k
    ensures GptDisk(crc, specs, sizeMb, guid).value[k] == 0
  {
    hide GptDisk, Layout, PiecesOf, PiecesOk, Placed, Listable, Written, Table, FatPatch.Content, PartitionReady;
    hide PartRegions, AllReady, TotalLbas;
    var starts, c := GptPieces(crc, specs, sizeMb, guid);
    PartsAre(crc, specs, starts, TotalLbas(sizeMb), guid);
    forall i | 0 <= i < |c.parts| ensures k < c.parts[i].at || c.parts[i].End() <= k {
      PartitionIn(specs, starts, i);
    }
    OthersZero(c, k);
  }

  /** A disk is produced if and only if some placement can be composed. */
  lemma {:induction false} ComposedIff(crc: Crc, specs: seq<Spec>, sizeMb: int, guid: Guid)
    ensures GptDisk(crc, specs, sizeMb, guid).Some? <==> exists starts :: Composable(specs, starts, TotalLbas(sizeMb))
  {
    var total := TotalLbas(sizeMb);
    if GptDisk(crc, specs, sizeMb, guid).Some? {
      hide GptDisk, Layout, Composable, PiecesOf;
      var starts, c := GptPieces(crc, specs, sizeMb, guid);
    }
    if other :| Composable(specs, other, total) {
      PlaceIsLeast(Slots(specs), FIRST, total - 34, other, FIRST);
      hide Place, Placed, AllReady, NamesFit;
      var starts := Layout(specs, sizeMb).value;
      LayoutLaidOut(specs, sizeMb);
      AllReadyEarlier(Volumes(specs), other, starts);
      hide LaidOut, Layout, PiecesOf;
      assert Composable(specs, starts, total);
    }
  }

  method WriteDisk(total: nat, mbr: seq<byte>, primary: seq<byte>, backup: seq<byte>, table: seq<byte>,
                   vs: seq<Volume>, starts: seq<nat>)
    returns (r: Option<seq<byte>>)
    requires |vs| == |starts| && total >= 2048 && |mbr| == |primary| == |backup| == 512 && |table| == ARRAY_SIZE
    requires forall i :: 0 <= i < |vs| ==> |vs[i].bytes| >= 512 && starts[i] * 512 + |vs[i].bytes| <= total * 512
    ensures r.Some? <==> AllReady(vs, starts)
    ensures r.Some? ==>
              var rs := Writes(Pieces(total, mbr, primary, backup, table, PartRegions(vs, starts)));
              Fits(total * 512, rs) && r.value == WriteAll(Zeros(total * 512), rs)
  {
    hide WriteAll, PartRegions, AllReady;
    var a := NewZeros(total * 512);
    WriteRegions(a, Head(total, mbr, primary, table));
    var ok := WritePartitions(a, vs, starts);
    if !ok { return None; }
    WriteRegions(a, Tail(total, backup, table));
    WriteInParts(Zeros(total * 512), Head(total, mbr, primary, table), PartRegions(vs, starts),
                 Tail(total, backup, table));
    return Some(a[..]);
  }

  /** The entry array and the two headers that carry its checksum. */
  method MakeTables(crc: Crc, specs: seq<Spec>, starts: seq<nat>, total: nat, guid: Guid)
    returns (ok: bool, table: seq<byte>, primary: seq<byte>, backup: seq<byte>)
    requires LaidOut(specs, starts, total)
    ensures ok <==> Listable(specs, starts)
    ensures ok ==> table == Table(specs, starts) && primary == HeaderSector(crc, Primary(total, guid, crc(table)))
    ensures ok ==> backup == HeaderSector(crc, Backup(total, guid, crc(table)))
  {
    ComposableInfos(specs, starts, total);
    hide Placed, InfoFits, EntryArray, HeaderSector, ValidInfo;
    var entries := PartitionEntries(Infos(specs, starts));
    if entries.None? { return false, [], [], []; }
    table := entries.value;
    primary := GptHeader(crc, Primary(total, guid, crc(table)));
    backup := GptHeader(crc, Backup(total, guid, crc(table)));
    ok := true;
  }

  method Compose(crc: Crc, specs: seq<Spec>, starts: seq<nat>, total: nat, guid: Guid) returns (r: Option<seq<byte>>)
    requires LaidOut(specs, starts, total)
    ensures r.Some? <==> Composable(specs, starts, total)
    ensures r.Some? ==> Listable(specs, starts) && r.value == Written(PiecesOf(crc, specs, starts, total, guid))
  {
    ComposableInfos(specs, starts, total);
    hide Placed, Listable, AllReady, HeaderSector, ProtectiveMbr;
    hide PiecesOf, PartRegions, Writes, WriteAll, Written, InfoFits;
    hide Primary, Backup, Table, NamesFit;
    var ok, table, primary, backup := MakeTables(crc, specs, starts, total, guid);
    if !ok { return None; }
    VolumeBytes(specs, starts, total);
    r := WriteDisk(total, ProtectiveMbr(total), primary, backup, table, Volumes(specs), starts);
    if r.Some? { WrittenIs(crc, specs, starts, total, guid); }
  }

  lemma {:induction false} WrittenIs(crc: Crc, specs: seq<Spec>, starts: seq<nat>, total: nat, guid: Guid)
    requires LaidOut(specs, starts, total) && AllReady(Volumes(specs), starts) && Listable(specs, starts)
    ensures var table := Table(specs, starts);
            var rs := Writes(Pieces(total, ProtectiveMbr(total), HeaderSector(crc, Primary(total, guid, crc(table))),
                                    HeaderSector(crc, Backup(total, guid, crc(table))), table,
                                    PartRegions(Volumes(specs), starts)));
            && Fits(total * 512, rs)
            && Written(PiecesOf(crc, specs, starts, total, guid)) == WriteAll(Zeros(total * 512), rs)
  {
    PiecesAre(crc, specs, starts, total, guid);
    hide PiecesOf, Listable, AllReady, PartRegions, Table, HeaderSector;
    hide ProtectiveMbr, Primary, Backup, Placed, Writes, WriteAll;
    WritesApart(PiecesOf(crc, specs, starts, total, guid));
  }

  method CreateGptImage(crc: Crc, specs: seq<Spec>, sizeMb: int, guid: Guid) returns (r: Option<seq<byte>>)
    ensures r == GptDisk(crc, specs, sizeMb, guid)
  {
    var total := sizeMb * 1024 * 1024 / 512;
    if sizeMb <= 0 || specs == [] || |specs| > ENTRIES { return None; }
    var starts := LayoutPartitions(Slots(specs), FIRST, total - 34);
    if starts.None? || total > LIMIT64 { return None; }
    LayoutLaidOut(specs, sizeMb);
    assert Layout(specs, sizeMb) == starts;
    hide Layout, LaidOut, PiecesOf, Composable, Written;
    r := Compose(crc, specs, starts.value, total, guid);
  }

  lemma {:induction false} VolumeBytes(specs: seq<Spec>, starts: seq<nat>, total: int)
    requires LaidOut(specs, starts, total)
    ensures var vs := Volumes(specs);
            forall i :: 0 <= i < |vs| ==> |vs[i].bytes| >= 512 && starts[i] * 512 + |vs[i].bytes| <= total * 512
  {
    hide Placed;
    var vs := Volumes(specs);
    forall i | 0 <= i < |vs| ensures |vs[i].bytes| >= 512 && starts[i] * 512 + |vs[i].bytes| <= total * 512 {
      SpecBytes(specs, starts, total, i);
    }
  }

  lemma {:induction false} SpecBytes(specs: seq<Spec>, starts: seq<nat>, total: int, i: nat)
    requires LaidOut(specs, starts, total) && i < |specs|
    ensures |specs[i].image| >= 512 && starts[i] * 512 + |specs[i].image| <= total * 512
  {
    hide LaidOut;
    SpecFits(specs, starts, total, i);
  }
}
