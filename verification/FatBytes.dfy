/** A finished FAT image in plain arithmetic: its length, boot sectors, FSInfo sectors and FATs, how
    many clusters each node gets, and the records of a directory. */
module FatBytes {
  import opened Bytes
  import opened Text
  import opened FatNames
  import opened FatAliases
  import opened FatTree
  import opened FatEntries
  import opened FatPlan
  import opened FatLayout
  import opened FatAlloc
  import opened Ranges
  import opened FatBlocks
  import opened FatDirectory
  import opened FatDirectoryData
  import opened FatVolume
  import opened FatImage
  import opened FatCreate
  import opened FatRoundTrip

  // ----- boot sector and FSInfo -----

  ghost predicate BootIs(b: seq<byte>, total: nat, fat: nat, volume: string, volumeId: nat)
  {
    && |b| == 512 && b[..11] == [0xEB, 0x58, 0x90, 0x4F, 0x53, 0x54, 0x45, 0x53, 0x54, 0x20, 0x20]
    && b[11..28] == [0, 2, 1, 32, 0, 2, 0, 0, 0, 0, 0xF8, 0, 0, 63, 0, 255, 0]
    && b[28..32] == [0, 0, 0, 0] && GetLe32(b, 32) == total && GetLe32(b, 36) == fat
    && b[40..52] == [0, 0, 0, 0, 2, 0, 0, 0, 1, 0, 6, 0] && AllZero(b, 52, 64)
    && b[64..67] == [0x80, 0, 0x29] && GetLe32(b, 67) == volumeId && LabelIs(b, 71, volume)
    && b[82..90] == [0x46, 0x41, 0x54, 0x33, 0x32, 0x20, 0x20, 0x20] && AllZero(b, 90, 510)
    && b[510] == 0x55 && b[511] == 0xAA
  }

  ghost predicate AllZero(b: seq<byte>, lo: nat, hi: nat)
    requires hi <= |b|
  {
    forall k :: lo <= k < hi ==> b[k] == 0
  }

  /** The label at `o`, padded with blanks to eleven bytes. */
  ghost predicate LabelIs(b: seq<byte>, o: nat, volume: string)
    requires o + 11 <= |b|
  {
    forall k :: 0 <= k < 11 ==> b[o + k] == if k < |volume| then volume[k] as int else 32
  }

  ghost predicate FsInfoIs(b: seq<byte>, free: nat, hint: nat)
  {
    && |b| == 512 && GetLe32(b, 0) == 0x4161_5252 && AllZero(b, 4, 484) && GetLe32(b, 484) == 0x6141_7272
    && GetLe32(b, 488) == free && GetLe32(b, 492) == hint && AllZero(b, 496, 508) && GetLe32(b, 508) == 0xAA55_0000
  }

  lemma {:induction false} LabelBytesAre(volume: string)
    requires ValidLabel(volume)
    ensures 1 <= |volume| <= 11 && LabelIs(LabelBytes(volume), 0, volume)
  {
    var text := LJust(volume, 11);
    assert forall k :: 0 <= k < 11 ==> LabelBytes(volume)[k] == text[k] as int;
  }

  lemma {:induction false} AsciiNames()
    ensures IsAscii("OSTEST  ") && Ascii("OSTEST  ") == [0x4F, 0x53, 0x54, 0x45, 0x53, 0x54, 0x20, 0x20]
    ensures IsAscii("FAT32   ") && Ascii("FAT32   ") == [0x46, 0x41, 0x54, 0x33, 0x32, 0x20, 0x20, 0x20]
  {
  }

  lemma {:induction false} HeadIs()
    ensures BootHead()[..11] == [0xEB, 0x58, 0x90, 0x4F, 0x53, 0x54, 0x45, 0x53, 0x54, 0x20, 0x20]
    ensures BootHead()[11..] == [0, 2, 1, 32, 0, 2, 0, 0, 0, 0, 0xF8, 0, 0, 63, 0, 255, 0]
  {
    AsciiNames();
    hide Ascii;
  }

  lemma {:induction false} TailIs(total: nat, fat: nat)
    requires total < 0x1_0000_0000 && fat < 0x1_0000_0000
    ensures var t := BootTail(total, fat);
            && t[..4] == Le32(total) && t[4..8] == Le32(fat)
            && t[8..20] == [0, 0, 0, 0, 2, 0, 0, 0, 1, 0, 6, 0] && AllZero(t, 20, 32)
  {
    assert Le32(2) == [2, 0, 0, 0];
    hide Le32;
  }

  lemma {:induction false} EndIs(volume: string, volumeId: nat)
    requires ValidLabel(volume) && volumeId < 0x1_0000_0000
    ensures var e := BootEnd(volume, volumeId);
            && e[..3] == [0x80, 0, 0x29] && e[3..7] == Le32(volumeId) && e[7..18] == LabelBytes(volume)
            && e[18..26] == [0x46, 0x41, 0x54, 0x33, 0x32, 0x20, 0x20, 0x20] && AllZero(e, 26, 446)
            && e[446] == 0x55 && e[447] == 0xAA
  {
    AsciiNames();
    hide Le32, Ascii, LabelBytes;
  }

  lemma {:induction false} BootSectorIs(total: nat, fat: nat, volume: string, volumeId: nat)
    requires total < 0x1_0000_0000 && fat < 0x1_0000_0000 && volumeId < 0x1_0000_0000 && ValidLabel(volume)
    ensures BootIs(BootSector(total, fat, volume, volumeId, 0), total, fat, volume, volumeId)
  {
    var b := BootSector(total, fat, volume, volumeId, 0);
    HeadIs();
    TailIs(total, fat);
    EndIs(volume, volumeId);
    LabelBytesAre(volume);
    assert Le32(0) == [0, 0, 0, 0];
    hide BootSector, BootHead, BootTail, BootEnd, Le32, LabelBytes, GetLe32, ValidLabel;
    BootPieces(b, BootHead(), BootTail(total, fat), BootEnd(volume, volumeId));
    Le32RoundTrip(b, 32, total);
    Le32RoundTrip(b, 36, fat);
    Le32RoundTrip(b, 67, volumeId);
    assert forall k :: 0 <= k < 11 ==> b[71 + k] == b[71..82][k];
  }

  lemma {:induction false} BootPieces(b: seq<byte>, head: seq<byte>, tail: seq<byte>, end: seq<byte>)
    requires |b| == 512 && |head| == 28 && |tail| == 32 && |end| == 448
    requires b[..28] == head && b[32..64] == tail && b[64..] == end
    ensures b[..11] == head[..11] && b[11..28] == head[11..] && b[32..36] == tail[..4] && b[36..40] == tail[4..8]
    ensures b[40..52] == tail[8..20] && (AllZero(tail, 20, 32) ==> AllZero(b, 52, 64))
    ensures b[64..67] == end[..3] && b[67..71] == end[3..7] && b[71..82] == end[7..18] && b[82..90] == end[18..26]
    ensures (AllZero(end, 26, 446) ==> AllZero(b, 90, 510)) && b[510] == end[446] && b[511] == end[447]
  {
    assert forall k :: 0 <= k < 32 ==> b[32 + k] == tail[k];
    assert forall k :: 0 <= k < 448 ==> b[64 + k] == end[k];
    if AllZero(tail, 20, 32) { assert forall k :: 52 <= k < 64 ==> b[k] == tail[k - 32]; }
    if AllZero(end, 26, 446) { assert forall k :: 90 <= k < 510 ==> b[k] == end[k - 64]; }
  }

  lemma {:induction false} FsInfoSectorIs(free: nat, hint: nat)
    requires free < 0x1_0000_0000 && hint < 0x1_0000_0000
    ensures FsInfoIs(FsInfoSector(free, hint), free, hint)
  {
    var b := FsInfoSector(free, hint);
    hide Le32, GetLe32;
    assert b[0..4] == Le32(0x4161_5252) && b[484..488] == Le32(0x6141_7272) && b[488..492] == Le32(free);
    assert b[492..496] == Le32(hint) && b[508..512] == Le32(0xAA55_0000);
    Le32RoundTrip(b, 0, 0x4161_5252);
    Le32RoundTrip(b, 484, 0x6141_7272);
    Le32RoundTrip(b, 488, free);
    Le32RoundTrip(b, 492, hint);
    Le32RoundTrip(b, 508, 0xAA55_0000);
  }

  // ----- the FAT -----

  /** The word of cluster `c`: reserved, the next cluster of the same node, the end of a chain, or free. */
  ghost predicate WordIs(w: int, sizes: seq<nat>, c: nat)
  {
    && (c == 0 ==> w == 0x0FFF_FFF8) && (c == 1 ==> w == 0xFFFF_FFFF)
    && (forall i :: InRange(sizes, i, c) ==> w == if c + 1 == Start(sizes, i) + sizes[i] then 0x0FFF_FFFF else c + 1)
    && (Start(sizes, |sizes|) <= c ==> w == 0)
  }

  ghost predicate TableIs(t: seq<byte>, sizes: seq<nat>)
  {
    |t| % 4 == 0 && forall c :: 0 <= c < |t| / 4 ==> WordIs(GetLe32(t, 4 * c), sizes, c)
  }

  lemma {:induction false} FatWordIs(entries: nat, sizes: seq<nat>, c: nat)
    requires FatFits(entries, sizes) && 2 <= entries && c < entries
    ensures WordIs(FatWords(entries, sizes)[c], sizes, c)
  {
    EntryReserved(entries, sizes, |sizes|);
    if c >= Start(sizes, |sizes|) { EntryFree(entries, sizes, |sizes|, c); }
    forall i | InRange(sizes, i, c)
      ensures FatWords(entries, sizes)[c] == if c + 1 == Start(sizes, i) + sizes[i] then 0x0FFF_FFFF else c + 1
    {
      EntryLinked(entries, sizes, |sizes|, i, c);
    }
    hide FatAfter;
  }

  lemma {:induction false} PackedTableIs(entries: nat, sizes: seq<nat>)
    requires FatFits(entries, sizes) && 2 <= entries
    ensures TableIs(Pack(FatWords(entries, sizes)), sizes)
  {
    var ws := FatWords(entries, sizes);
    var t := Pack(ws);
    hide Pack, FatWords, WordIs, FatFits, GetLe32, Le32;
    forall c | 0 <= c < |t| / 4 ensures WordIs(GetLe32(t, 4 * c), sizes, c) {
      Le32RoundTrip(t, 4 * c, ws[c]);
      FatWordIs(entries, sizes, c);
    }
  }

  // ----- the whole front of the image -----

  /** The least FAT that has a word for every cluster behind it, and the clusters. */
  ghost predicate SizedFor(total: int, fat: int, clusters: int)
  {
    && fat >= 1 && clusters == total - 32 - 2 * fat && 128 * fat >= clusters + 2 && clusters >= 65_525
    && (fat > 1 ==> 128 * (fat - 1) < total - 32 - 2 * (fat - 1) + 2)
  }

  lemma {:induction false} LayoutSized(sizeMb: int, g: Geometry)
    requires sizeMb <= MAX_MIB && Layout(sizeMb) == Some(g)
    ensures g.total == sizeMb * 2048 && SizedFor(g.total, g.fat, g.clusters)
  {
    var total := sizeMb * 2048;
    LeastFatIsLeast(total);
    LayoutFacts(total);
    var fat := LeastFat(total);
    hide LeastFat;
    if fat > 1 { assert !Addresses(total, fat - 1); }
  }

  ghost predicate FrontIs(
      d: seq<byte>, total: nat, fat: nat, volume: string, volumeId: nat, free: nat, hint: nat, sizes: seq<nat>)
  {
    && |d| == total * 512 && (32 + 2 * fat) * 512 <= |d|
    && BootIs(d[..512], total, fat, volume, volumeId) && d[6 * 512..7 * 512] == d[..512]
    && FsInfoIs(d[512..1024], free, hint) && d[7 * 512..8 * 512] == d[512..1024]
    && TableIs(d[32 * 512..(32 + fat) * 512], sizes)
    && d[(32 + fat) * 512..(32 + 2 * fat) * 512] == d[32 * 512..(32 + fat) * 512]
  }

  lemma {:induction false} FrontFrom(
      d: seq<byte>, total: nat, fat: nat, volume: string, volumeId: nat, free: nat, hint: nat, sizes: seq<nat>,
      boot: seq<byte>, info: seq<byte>, table: seq<byte>)
    requires |d| == total * 512 && (32 + 2 * fat) * 512 <= |d| && |table| == 512 * fat
    requires HoldsPrologue(d, fat, boot, info, table)
    requires BootIs(boot, total, fat, volume, volumeId) && FsInfoIs(info, free, hint) && TableIs(table, sizes)
    ensures FrontIs(d, total, fat, volume, volumeId, free, hint, sizes)
  {
    assert |boot| == 512 && |info| == 512;
    PrologueParts(d, fat, boot, info, table);
    hide BootIs, FsInfoIs, TableIs, HoldsPrologue;
    assert d[..512] == boot && d[512..1024] == info;
    assert d[32 * 512..(32 + fat) * 512] == table;
  }

  /** The image: its length, the FAT's size, both boot sectors, both FSInfo sectors and both FATs. */
  lemma {:induction false} ImageFrontIs(
      u: Unicode, entries: seq<Entry>, sizeMb: int, volume: string, volumeId: int)
    returns (plan: Plan, fat: nat, clusters: nat)
    requires sizeMb <= MAX_MIB && CreateImage(u, entries, sizeMb, volume, volumeId).Some?
    ensures PlanOk(u, plan) && Build(u, entries) == Some(plan.tree)
    ensures SizedFor(sizeMb * 2048, fat, clusters) && plan.Next() - 2 <= clusters && 0 <= volumeId
    ensures var d := CreateImage(u, entries, sizeMb, volume, volumeId).value;
            var free := clusters - (plan.Next() - 2);
            && |d| == sizeMb * 1024 * 1024
            && FrontIs(d, sizeMb * 2048, fat, volume, volumeId, free, if free > 0 then plan.Next() else 0xFFFF_FFFF,
                       plan.sizes)
  {
    var g: Geometry;
    plan, g := CreatedImageHolds(u, entries, sizeMb, volume, volumeId);
    fat, clusters := g.fat, g.clusters;
    LayoutSized(sizeMb, g);
    hide CreateImage, Layout, Build, Holds, PlanOk, SizedFor;
    PlanFront(u, plan, g, volume, volumeId);
  }

  lemma {:induction false} PlanFront(u: Unicode, plan: Plan, g: Geometry, volume: string, volumeId: nat)
    requires Ready(u, plan, g, volume) && volumeId < LIMIT
    ensures var free := g.clusters - (plan.Next() - 2);
            FrontIs(ImageBytes(u, plan, g, volume, volumeId), g.total, g.fat, volume, volumeId, free,
                    if free > 0 then plan.Next() else 0xFFFF_FFFF, plan.sizes)
  {
    var free := g.clusters - (plan.Next() - 2);
    hide PlanOk, BootSector, FsInfoSector, Pack, FatWords, HoldsPrologue, BootIs, FsInfoIs, TableIs, FrontIs;
    var d := ImageBytes(u, plan, g, volume, volumeId);
    assert |d| == g.total * 512 && (32 + 2 * g.fat) * 512 <= |d|;
    hide ImageBytes;
    ImagePrologue(u, plan, g, volume, volumeId);
    PackedTableIs(128 * g.fat, plan.sizes);
    FsInfoSectorIs(free, FreeHint(free, plan.Next()));
    BootSectorIs(g.total, g.fat, volume, volumeId);
    hide ValidLabel, FatFits;
    FrontFrom(d, g.total, g.fat, volume, volumeId, free, FreeHint(free, plan.Next()), plan.sizes,
              BootSector(g.total, g.fat, volume, volumeId, 0), FsInfoOf(plan, g.clusters),
              Pack(FatWords(128 * g.fat, plan.sizes)));
  }

  // ----- how many clusters a node gets -----

  /** No node has a cluster to spare: a file has none left over, a directory none beyond its records. */
  lemma {:induction false} SizesAreTight(u: Unicode, plan: Plan, volume: string, i: nat)
    requires PlanOk(u, plan) && Fits32(plan) && ValidLabel(volume) && i < |plan.order|
    ensures i < |plan.sizes| && plan.order[i] in plan.tree
    ensures var p, n := plan.order[i], plan.sizes[i];
            match plan.tree[p]
            case File(_, content) => 512 * n - 512 < |content| <= 512 * n
            case Dir(_) =>
              && p in plan.first && p in plan.kids && HasFields(plan, plan.kids[p])
              && Packable(ListingOf(plan, volume, p))
              && 512 * n - 512 < 32 * |Records(ListingOf(plan, volume, p))| <= 512 * n
  {
    var p := plan.order[i];
    NodeSized(u, plan, i);
    hide PlanOk, Fits32, ValidListing, ValidLabel, PackableChild, ChildOf, ChildrenEntryCount, ChildrenRecords;
    if plan.tree[p].Dir? {
      ListingReady(u, plan, volume, i);
      KidsHaveFields(u, plan, p);
      hide HasFields, ListingOf;
      RecordsCounted(u, plan, volume, p);
    }
  }

  lemma {:induction false} RecordsCounted(u: Unicode, plan: Plan, volume: string, p: Path)
    requires PlanOk(u, plan) && Fits32(plan) && p in plan.tree && p in plan.first && p in plan.kids
    requires HasFields(plan, plan.kids[p]) && Packable(ListingOf(plan, volume, p))
    ensures KidsOk(plan.tree, plan.kids) && AllAliased(plan.tree, plan.alias)
    ensures |Records(ListingOf(plan, volume, p))| == DirectoryEntryCount(plan.tree, plan.kids, plan.alias, p)
  {
    KidsHaveFields(u, plan, p);
    ChildrenRecordCount(u, plan, plan.kids[p]);
    hide Fits32, PackableChild, ChildOf, ChildrenEntryCount, ChildrenRecords, TreeShape, LegalAliases, Ordered, Sized;
    hide KidsOk, AllAliased;
  }

  // ----- records -----

  /** The 32 bytes of a short entry: name, attribute, the date 1980-01-01, first cluster and size. */
  lemma {:induction false} ShortIs(raw: Alias, attr: byte, first: nat, size: nat)
    requires first < 0x1_0000_0000 && size < 0x1_0000_0000
    ensures var r := ShortEntry(raw, attr, first, size);
            && r[..11] == raw && r[11] == attr && r[12..20] == [0, 0, 0, 0, 33, 0, 33, 0]
            && GetLe16(r, 20) == first / 65536 && r[22..26] == [0, 0, 33, 0]
            && GetLe16(r, 26) == first % 65536 && GetLe32(r, 28) == size
  {
    assert Le16(33) == [33, 0];
    hide Le16, Le32, GetLe16, GetLe32;
  }

  /** `sums` are the checksums of the prefixes: each is the one before, rotated right by one bit, plus
      the next byte, modulo 256. */
  ghost predicate SumsOf(raw: seq<byte>, sums: seq<int>)
  {
    && |sums| == |raw| + 1 && sums[0] == 0
    && forall i :: 0 <= i < |raw| ==> Rotated(sums[i], sums[i + 1], raw[i])
  }

  ghost predicate Rotated(s: int, t: int, b: byte)
  {
    && 0 <= s < 256 && 0 <= t < 256
    && t == (if s % 2 == 0 then s / 2 + b as int else (s - 1) / 2 + 128 + b as int) % 256
  }

  lemma {:induction false} ChecksumIs(raw: seq<byte>) returns (sums: seq<int>)
    ensures SumsOf(raw, sums) && sums[|raw|] == Checksum(raw)
  {
    if raw == [] {
      sums := [0];
    } else {
      var n := |raw| - 1;
      var before := ChecksumIs(raw[..n]);
      sums := before + [Checksum(raw) as int];
      forall i | 0 <= i < |raw| ensures Rotated(sums[i], sums[i + 1], raw[i]) {
        if i < n { assert Rotated(before[i], before[i + 1], raw[..n][i]); }
      }
    }
  }

  /** The records of one child: long-name entries that carry the checksum of its alias, if its name
      needs them, and its short entry. */
  lemma {:induction false} ChildRecordsAre(c: Child) returns (sums: seq<int>)
    requires PackableChild(c)
    ensures SumsOf(c.raw, sums)
    ensures var rs := ChildRecords(c); var n := |rs| - 1;
            && n >= 0 && rs[n] == ShortEntry(c.raw, c.attr, c.first, c.size)
            && (!c.lfn ==> n == 0) && (c.lfn ==> n >= 1 && 13 * n - 13 < |EncodeUtf16(c.name)| + 1 <= 13 * n)
            && forall i :: 0 <= i < n ==>
                 rs[i][0] == n - i + (if i == 0 then 0x40 else 0) && rs[i][11] == 0x0F && rs[i][13] == sums[11]
  {
    sums := ChecksumIs(c.raw);
    if c.lfn {
      var us, n := PaddedUnits(c.name), LfnCount(c.name);
      forall i | 0 <= i < n ensures
          var r := LfnEntries(c.name, c.raw)[i];
          r[0] == n - i + (if i == 0 then 0x40 else 0) && r[11] == 0x0F && r[13] == Checksum(c.raw)
      {
        LfnRunShape(us, n, Checksum(c.raw), n, i);
      }
    }
    hide ShortEntry, SumsOf, Checksum, EncodeUtf16;
  }

  /** A directory starts with the volume label, or with its two dot entries. */
  lemma {:induction false} HeaderRecordsAre(d: Listing)
    requires Packable(d)
    ensures var rs := Records(d);
            if d.root then
              && |rs| >= 1 && LabelIs(rs[0], 0, d.volume) && rs[0][11] == 0x08
              && GetLe16(rs[0], 20) == 0 && GetLe16(rs[0], 26) == 0 && GetLe32(rs[0], 28) == 0
            else
              && |rs| >= 2 && LabelIs(rs[0], 0, ".") && LabelIs(rs[1], 0, "..")
              && rs[0][11] == 0x10 && rs[1][11] == 0x10
              && 65536 * GetLe16(rs[0], 20) + GetLe16(rs[0], 26) == d.first
              && 65536 * GetLe16(rs[1], 20) + GetLe16(rs[1], 26) == d.parent
  {
    if d.root {
      LabelBytesAre(d.volume);
      var r := ShortEntry(LabelBytes(d.volume), ATTR_VOLUME, 0, 0);
      assert forall k :: 0 <= k < 11 ==> r[k] == LabelBytes(d.volume)[k] by { assert r[..11] == LabelBytes(d.volume); }
    } else {
      var a, b := ShortEntry(DotRaw(1), ATTR_DIRECTORY, d.first, 0), ShortEntry(DotRaw(2), ATTR_DIRECTORY, d.parent, 0);
      assert forall k :: 0 <= k < 11 ==> a[k] == a[..11][k] && b[k] == b[..11][k];
    }
    hide ShortEntry, GetLe16, GetLe32, ChildrenRecords;
  }

  /** The short entry of a stored node: its alias, attribute, first cluster and size; a long name if
      and only if the alias does not display as the name. */
  lemma {:induction false} NodeRecordIs(u: Unicode, plan: Plan, c: Path)
    requires PlanOk(u, plan) && Fits32(plan) && c in plan.tree && c != []
    ensures c in plan.alias && c in plan.first && PackableChild(ChildOf(plan, c))
    ensures var rs := ChildRecords(ChildOf(plan, c)); var r := rs[|rs| - 1];
            && r[..11] == plan.alias[c] && 65536 * GetLe16(r, 20) + GetLe16(r, 26) == plan.first[c]
            && (match plan.tree[c]
                case File(_, content) => r[11] == 0x20 && GetLe32(r, 28) == |content|
                case Dir(_) => r[11] == 0x10 && GetLe32(r, 28) == 0)
            && (|rs| > 1 <==> DisplayName(plan.alias[c]) != plan.tree[c].name)
  {
    ChildIsValid(u, plan, c);
    var child := ChildOf(plan, c);
    var sums := ChildRecordsAre(child);
    hide PlanOk, Fits32, ShortEntry, ChildRecords, GetLe16, GetLe32, DisplayName, EncodeUtf16, SumsOf;
  }

  // ----- aliases in the tree -----

  lemma {:induction false} DirectoryList(u: Unicode, t: Tree, p: Path, cs: seq<Path>) returns (names: seq<string>)
    requires TreeShape(u, t) && TreeAliases(u, t).Some? && p in t && t[p].Dir? && cs == Children(t, p)
    ensures |names| == |cs| && forall i :: 0 <= i < |cs| ==> cs[i] in t && names[i] == t[cs[i]].name
    ensures AliasList(u, names).Some? && HoldsAll(TreeAliases(u, t).value, cs, AliasList(u, names).value)
  {
    KidsAreOk(t);
    names := NamesOf(t, Kids(t)[p]);
    WalkOrdered(u, t);
    var all := DirAliases(u, t, Kids(t));
    AliasMapFacts(t, Kids(t), all, Walk(t, []));
    assert AliasedDir(Kids(t), all, TreeAliases(u, t).value, p);
    hide TreeAliases, HoldsAll, AliasList, TreeShape, Walk;
  }

  lemma {:induction false} HeldAliasIs(
      u: Unicode, alias: map<Path, Alias>, cs: seq<Path>, names: seq<string>, i: nat, b: string, x: string)
    requires AliasList(u, names).Some? && HoldsAll(alias, cs, AliasList(u, names).value)
    requires i < |cs| == |names| && SplitsAs(names[i], b, x)
    ensures forall k :: 0 <= k < |cs| ==> cs[k] in alias
    ensures AliasIs(u, b, x, set k | 0 <= k < i :: alias[cs[k]], alias[cs[i]])
  {
    var raws := AliasList(u, names).value;
    hide AliasList, AliasIs;
    AliasesAre(u, names, i, b, x);
    assert (set k | 0 <= k < i :: raws[k]) == set k | 0 <= k < i :: alias[cs[k]];
  }

  /** Every node holds the alias that its own name, and those of its siblings before it, determine. */
  lemma {:induction false} ChildAliasIs(u: Unicode, t: Tree, p: Path, i: nat, b: string, x: string)
    requires TreeShape(u, t) && TreeAliases(u, t).Some? && p in t && t[p].Dir? && i < |Children(t, p)|
    requires Children(t, p)[i] in t && SplitsAs(t[Children(t, p)[i]].name, b, x)
    ensures var cs, alias := Children(t, p), TreeAliases(u, t).value;
            && (forall k :: 0 <= k < |cs| ==> cs[k] in alias)
            && AliasIs(u, b, x, set k | 0 <= k < i :: alias[cs[k]], alias[cs[i]])
  {
    hide TreeAliases, AliasList, AliasIs, Children, TreeShape, HoldsAll, SplitsAs;
    var names := DirectoryList(u, t, p, Children(t, p));
    HeldAliasIs(u, TreeAliases(u, t).value, Children(t, p), names, i, b, x);
  }
}
