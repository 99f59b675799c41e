/** The reader undoes the writer: every stored file is found under its stored path with its
    bytes.  FSInfo counts the free clusters, and no cluster has two owners. */
module FatRoundTrip {
  import opened Bytes
  import opened Text
  import opened FatNames
  import opened FatTree
  import opened FatEntries
  import opened FatPlan
  import opened FatAlloc
  import opened Ranges
  import opened FatBlocks
  import opened FatDirectory
  import opened FatDirectoryData
  import opened FatReader
  import opened FatVolume
  import opened FatImage
  import opened FatCreate

  /** An image that holds the planned files, whatever its hidden-sector fields say. */
  ghost predicate Holds(img: seq<byte>, u: Unicode, plan: Plan, fat: nat, volume: string)
  {
    && PlanOk(u, plan) && Fits32(plan) && ValidLabel(volume)
    && Readable(img, fat, plan.sizes, Blocks(u, plan, volume))
  }

  // ----- one node -----

  lemma {:induction false} DirectoryChain(img: seq<byte>, u: Unicode, plan: Plan, fat: nat, volume: string, p: Path)
    requires Holds(img, u, plan, fat, volume) && p in plan.tree && plan.tree[p].Dir?
    ensures p in plan.first && p in plan.kids && HasFields(plan, plan.kids[p])
    ensures ValidListing(ListingOf(plan, volume, p))
    ensures Directory(FsOf(img, fat), plan.first[p]) ==
            Some(AddAll(HeaderResult(ListingOf(plan, volume, p)), ListingOf(plan, volume, p).children))
  {
    hide PlanOk, Fits32, ValidLabel, Readable, ValidListing, Packable, ListingOf, ScanBytes, Chain, Records;
    var i := NodePlaced(u, plan, p);
    ListingReady(u, plan, volume, i);
    var data := NodeChainReads(img, fat, plan.sizes, Blocks(u, plan, volume), i);
    var d := ListingOf(plan, volume, p);
    assert data == DirectoryBytes(d, plan.sizes[i] * 512) by {
      assert Blocks(u, plan, volume)[i] == NodeBlock(u, plan, volume, i);
    }
    DirectoryReadsBack(d, plan.sizes[i] * 512);
  }

  lemma {:induction false} FileChain(img: seq<byte>, u: Unicode, plan: Plan, fat: nat, volume: string, p: Path)
    requires Holds(img, u, plan, fat, volume) && p in plan.tree && plan.tree[p].File?
    ensures p in plan.first
    ensures ReadFile(FsOf(img, fat), Info(ATTR_ARCHIVE, plan.first[p], |plan.tree[p].content|)) ==
            Some(plan.tree[p].content)
  {
    hide PlanOk, Fits32, ValidLabel, Readable, Chain;
    var i := NodePlaced(u, plan, p);
    NodeSized(u, plan, i);
    var content := plan.tree[p].content;
    if content != [] {
      var data := NodeChainReads(img, fat, plan.sizes, Blocks(u, plan, volume), i);
      assert Blocks(u, plan, volume)[i] == NodeBlock(u, plan, volume, i) == content;
    }
  }

  // ----- one lookup -----

  /** A directory lists its children under their names and, below the root, `.` and `..`. */
  lemma {:induction false} LookupReads(
      img: seq<byte>, u: Unicode, plan: Plan, fat: nat, volume: string, p: Path, c: Path)
    requires Holds(img, u, plan, fat, volume) && p in plan.tree && plan.tree[p].Dir?
    requires c in plan.tree && IsChild(p, c)
    ensures p in plan.first && c in plan.alias && c in plan.first
    ensures Lookup(FsOf(img, fat), plan.first[p], plan.tree[c].name) == Some(InfoOf(ChildOf(plan, c)))
  {
    hide PlanOk, Fits32, ValidLabel, Readable, ValidChild, ChildOf, Directory, AddAll;
    DirectoryChain(img, u, plan, fat, volume, p);
    KidsKnown(u, plan, p);
    ChildIsValid(u, plan, c);
    var d := ListingOf(plan, volume, p);
    AddAllFinds(HeaderResult(d), d.children);
    var k :| 0 <= k < |plan.kids[p]| && plan.kids[p][k] == c;
    assert d.children[k] == ChildOf(plan, c);
  }

  lemma {:induction false} LookupFinds(
      img: seq<byte>, u: Unicode, plan: Plan, fat: nat, volume: string, p: Path, name: string)
    returns (c: Path)
    requires Holds(img, u, plan, fat, volume) && p in plan.tree && plan.tree[p].Dir? && name != "." && name != ".."
    requires p in plan.first && Lookup(FsOf(img, fat), plan.first[p], name).Some?
    ensures c in plan.tree && IsChild(p, c) && plan.tree[c].name == name
  {
    hide PlanOk, Fits32, ValidLabel, Readable, ValidChild, ChildOf, Directory, AddAll;
    DirectoryChain(img, u, plan, fat, volume, p);
    KidsKnown(u, plan, p);
    var d := ListingOf(plan, volume, p);
    AddAllFinds(HeaderResult(d), d.children);
    var k :| 0 <= k < |d.children| && d.children[k].name == name;
    c := plan.kids[p][k];
    ChildIsValid(u, plan, c);
  }

  // ----- whole paths -----

  /** What `read_path` does with one component. */
  lemma {:induction false} ReadStep(fs: Fs, cluster: nat, names: seq<string>, info: Info)
    requires names != [] && Lookup(fs, cluster, names[0]) == Some(info)
    ensures |names| == 1 && !IsDirectory(info.attr) ==> ReadFrom(fs, cluster, names) == ReadFile(fs, info)
    ensures |names| > 1 && IsDirectory(info.attr) ==>
              ReadFrom(fs, cluster, names) == ReadFrom(fs, info.cluster, names[1..])
  {
    hide Lookup, ReadFile;
  }

  lemma {:induction false} ChildInfo(plan: Plan, c: Path)
    requires c in plan.tree && c in plan.alias && c in plan.first
    ensures plan.tree[c].File? ==>
              InfoOf(ChildOf(plan, c)) == Info(ATTR_ARCHIVE, plan.first[c], |plan.tree[c].content|)
    ensures plan.tree[c].Dir? ==> InfoOf(ChildOf(plan, c)) == Info(ATTR_DIRECTORY, plan.first[c], 0)
    ensures IsDirectory(InfoOf(ChildOf(plan, c)).attr) <==> plan.tree[c].Dir?
  {
  }

  ghost predicate Named(t: Tree, q: Path, name: string) { q in t && t[q].name == name }

  /** `names` are the names of the nodes on the way to `p`. */
  ghost predicate Spelled(t: Tree, p: Path, names: seq<string>)
  {
    |names| == |p| && forall i :: 0 <= i < |p| ==> Named(t, p[..i + 1], names[i])
  }

  lemma {:induction false} SpelledAt(t: Tree, p: Path, names: seq<string>, k: nat)
    requires Spelled(t, p, names) && k < |p|
    ensures p[..k + 1] in t && t[p[..k + 1]].name == names[k..][0] && IsChild(p[..k], p[..k + 1])
    ensures |names| == |p| && names[k..][1..] == names[k + 1..]
  {
    assert p[..k + 1][..k] == p[..k];
    assert Named(t, p[..k + 1], names[k]);
  }

  lemma {:induction false} ReadDown(
      img: seq<byte>, u: Unicode, plan: Plan, fat: nat, volume: string, p: Path, names: seq<string>, k: nat)
    requires Holds(img, u, plan, fat, volume) && p in plan.tree && plan.tree[p].File? && k < |p|
    requires Spelled(plan.tree, p, names)
    ensures p[..k] in plan.first && |names| == |p|
    ensures ReadFrom(FsOf(img, fat), plan.first[p[..k]], names[k..]) == Some(plan.tree[p].content)
    decreases |p| - k
  {
    hide Holds, Lookup, ReadFile, ReadFrom, ChildOf, FsOf, Spelled, IsChild;
    var d, c := p[..k], p[..k + 1];
    SpelledAt(plan.tree, p, names, k);
    DirOnWay(img, u, plan, fat, volume, p, k);
    LookupReads(img, u, plan, fat, volume, d, c);
    ChildInfo(plan, c);
    ReadStep(FsOf(img, fat), plan.first[d], names[k..], InfoOf(ChildOf(plan, c)));
    if k == |p| - 1 {
      assert c == p;
      FileChain(img, u, plan, fat, volume, p);
    } else {
      DirOnWay(img, u, plan, fat, volume, p, k + 1);
      ReadDown(img, u, plan, fat, volume, p, names, k + 1);
    }
  }

  lemma {:induction false} DirOnWay(img: seq<byte>, u: Unicode, plan: Plan, fat: nat, volume: string, p: Path, k: nat)
    requires Holds(img, u, plan, fat, volume) && p in plan.tree && k < |p|
    ensures p[..k] in plan.tree && plan.tree[p[..k]].Dir?
  {
    hide KidsOk, AllAliased, LegalAliases, Ordered, Sized, Readable, Fits32, ShapeAt;
    AncestorsStored(u, plan.tree, p, k);
  }

  lemma {:induction false} RootCluster(img: seq<byte>, u: Unicode, plan: Plan, fat: nat, volume: string)
    requires Holds(img, u, plan, fat, volume)
    ensures [] in plan.tree && plan.tree[[]].Dir? && [] in plan.first && plan.first[[]] == 2
  {
    hide KidsOk, AllAliased, LegalAliases, Readable, Fits32, ShapeAt, ClusterCount, ValidLabel, Sized;
    NodeSized(u, plan, 0);
    assert plan.first[plan.order[0]] == FirstAt(plan.sizes, 0);
    ListingReady(u, plan, volume, 0);
  }

  /** Every stored file is read back, under the names its nodes carry. */
  lemma {:induction false} StoredFileReads(img: seq<byte>, u: Unicode, plan: Plan, fat: nat, volume: string, p: Path)
    requires Holds(img, u, plan, fat, volume) && p in plan.tree && plan.tree[p].File?
    ensures p != [] && forall i :: 0 <= i <= |p| ==> p[..i] in plan.tree
    ensures Mount(img) == Some(FsOf(img, fat))
    ensures ReadPath(FsOf(img, fat), Join(StoredNames(plan.tree, p))) == Some(plan.tree[p].content)
  {
    RootCluster(img, u, plan, fat, volume);
    MountReadable(img, fat);
    hide Holds, ReadFrom, FirstAt;
    PathInTree(img, u, plan, fat, volume, p);
    var names := StoredNames(plan.tree, p);
    ReadDown(img, u, plan, fat, volume, p, names, 0);
    assert p[..0] == [] && names[0..] == names;
    SplitJoin(names);
  }

  lemma {:induction false} PathInTree(img: seq<byte>, u: Unicode, plan: Plan, fat: nat, volume: string, p: Path)
    requires Holds(img, u, plan, fat, volume) && p in plan.tree
    ensures forall i :: 0 <= i <= |p| ==> p[..i] in plan.tree
    ensures forall name :: name in StoredNames(plan.tree, p) ==> '/' !in name
  {
    hide KidsOk, AllAliased, LegalAliases, Ordered, Sized, Readable, Fits32, ValidLabel, TreeShape;
    PathStored(u, plan.tree, p);
    var names := StoredNames(plan.tree, p);
    forall i | 0 <= i < |names| ensures '/' !in names[i] {
      NodeShaped(u, plan, p[..i + 1]);
      NoSlash(plan.tree[p[..i + 1]].name);
    }
  }

  lemma {:induction false} NoSlash(name: string)
    requires ValidComponent(name)
    ensures '/' !in name
  {
    assert ForbiddenChar('/');
  }

  // ----- the tool and the reader -----

  /** The image the tool writes holds the tree its entries name. */
  lemma {:induction false} CreatedImageHolds(
      u: Unicode, entries: seq<Entry>, sizeMb: int, volume: string, volumeId: int)
    returns (plan: Plan, g: Geometry)
    requires sizeMb <= MAX_MIB && CreateImage(u, entries, sizeMb, volume, volumeId).Some?
    ensures Build(u, entries) == Some(plan.tree) && Layout(sizeMb) == Some(g)
    ensures Ready(u, plan, g, volume) && 0 <= volumeId < LIMIT
    ensures CreateImage(u, entries, sizeMb, volume, volumeId).value == ImageBytes(u, plan, g, volume, volumeId)
    ensures Holds(CreateImage(u, entries, sizeMb, volume, volumeId).value, u, plan, g.fat, volume)
  {
    g := Layout(sizeMb).value;
    BuildShape(u, entries);
    plan := MakePlan(u, Build(u, entries).value).value;
    MadePlanOk(u, Build(u, entries).value);
    hide PlanOk, ImageBytes, MakePlan, Build, TreeShape;
    ImageHolds(u, plan, g, volume, volumeId);
  }

  lemma {:induction false} ImageHolds(u: Unicode, plan: Plan, g: Geometry, volume: string, volumeId: nat)
    requires Ready(u, plan, g, volume) && volumeId < LIMIT
    ensures Holds(ImageBytes(u, plan, g, volume, volumeId), u, plan, g.fat, volume)
  {
    ReadyFits(u, plan, g, volume);
    var boot := BootSector(g.total, g.fat, volume, volumeId, 0);
    BootFields(boot, g.total, g.fat, volume, volumeId, 0);
    hide PlanOk, Fits32, Blocks, Readable, BlocksFit, BootSector, BootsAs, Pack, FatWords, VolumeBytes, FsInfoSector;
    VolumeReadable(g.total * 512, g.fat, boot, FsInfoOf(plan, g.clusters), plan.sizes, Blocks(u, plan, volume));
  }

  /** Whole-image round trip: for every accepted manifest, label, identifier and size, mounting the
      image and reading any stored path returns exactly the source bytes. */
  lemma {:induction false} ImageRoundTrip(
      u: Unicode, entries: seq<Entry>, sizeMb: int, volume: string, volumeId: int, p: Path)
    requires sizeMb <= MAX_MIB && CreateImage(u, entries, sizeMb, volume, volumeId).Some?
    requires Build(u, entries).Some? && p in Build(u, entries).value && Build(u, entries).value[p].File?
    ensures var t := Build(u, entries).value;
            var fs := Mount(CreateImage(u, entries, sizeMb, volume, volumeId).value);
            && fs.Some? && p != [] && (forall i :: 0 <= i <= |p| ==> p[..i] in t)
            && ReadPath(fs.value, Join(StoredNames(t, p))) == Some(t[p].content)
  {
    hide CreateImage, Holds, Ready, Layout, Build, ReadPath, Mount;
    var plan, g := CreatedImageHolds(u, entries, sizeMb, volume, volumeId);
    StoredFileReads(CreateImage(u, entries, sizeMb, volume, volumeId).value, u, plan, g.fat, volume, p);
  }

  lemma {:induction false} EntryNames(u: Unicode, entries: seq<Entry>, i: nat) returns (names: seq<string>)
    requires Build(u, entries).Some? && i < |entries|
    ensures AllValid(entries) && entries[i].source.Some?
    ensures var t := Build(u, entries).value; var key := FoldPath(u, Parts(entries[i]));
            && key in t && t[key].File? && t[key].content == entries[i].source.value
            && (forall k :: 1 <= k <= |key| ==> key[..k] in t) && names == StoredNames(t, key)
            && |names| == |Parts(entries[i])| && FoldPath(u, names) == key
            && (SpellingsAgree(Items(u, entries)) ==> names == Parts(entries[i]))
  {
    EntryStored(u, entries, i);
    assert ValidEntry(entries[i]);
    hide SpellingsAgree, Parts, BuildItems;
    names := StoredNames(Build(u, entries).value, FoldPath(u, Parts(entries[i])));
  }

  /** In manifest terms: every entry is read back under its folded path, and under its own
      destination when entries that share a directory spell it alike. */
  lemma {:induction false} EntryRoundTrip(
      u: Unicode, entries: seq<Entry>, sizeMb: int, volume: string, volumeId: int, i: nat)
    requires sizeMb <= MAX_MIB && CreateImage(u, entries, sizeMb, volume, volumeId).Some? && i < |entries|
    ensures AllValid(entries)
    ensures var fs := Mount(CreateImage(u, entries, sizeMb, volume, volumeId).value);
            && fs.Some?
            && (exists names :: |names| == |Parts(entries[i])| && FoldPath(u, names) == FoldPath(u, Parts(entries[i]))
                  && ReadPath(fs.value, Join(names)) == entries[i].source)
            && (SpellingsAgree(Items(u, entries)) ==>
                  ReadPath(fs.value, Join(Parts(entries[i]))) == entries[i].source)
  {
    hide CreateImage, Holds, Ready, Layout, ReadPath, Mount, SpellingsAgree, Parts, Join, FoldPath;
    var plan, g := CreatedImageHolds(u, entries, sizeMb, volume, volumeId);
    var names := EntryNames(u, entries, i);
    hide Build;
    ImageRoundTrip(u, entries, sizeMb, volume, volumeId, FoldPath(u, Parts(entries[i])));
  }

  // ----- the rest of the image -----

  /** Node `p` occupies cluster `c`. */
  ghost predicate Owns(plan: Plan, p: Path, c: int)
  {
    exists i :: 0 <= i < |plan.order| && plan.order[i] == p && InRange(plan.sizes, i, c)
  }

  /** Every cluster of [2, next) is owned ... */
  lemma {:induction false} ClusterOwner(u: Unicode, plan: Plan, c: int) returns (p: Path)
    requires PlanOk(u, plan) && 2 <= c < plan.Next()
    ensures p in plan.tree && Owns(plan, p, c)
  {
    SizesMatch(u, plan);
    hide PlanOk;
    CoveredBelow(plan.sizes, |plan.sizes|, c);
    var i :| InRange(plan.sizes, i, c);
    NodeSized(u, plan, i);
    p := plan.order[i];
  }

  /** ... by one node only, and an owned cluster lies in [2, next) within the node's own range:
      no chain enters another. */
  lemma {:induction false} OwnerIsUnique(u: Unicode, plan: Plan, p: Path, q: Path, c: int)
    requires PlanOk(u, plan) && Owns(plan, p, c)
    ensures p in plan.tree && p in plan.first && 2 <= plan.first[p] <= c < plan.Next()
    ensures Owns(plan, q, c) ==> p == q
  {
    SizesMatch(u, plan);
    hide PlanOk, ClusterCount, KidsOk, AllAliased, Start;
    var i :| 0 <= i < |plan.order| && plan.order[i] == p && InRange(plan.sizes, i, c);
    NodeSized(u, plan, i);
    OwnerFirst(u, plan, i);
    FirstAtLeastTwo(plan.sizes, i, c);
    RangeBounds(plan.sizes, i);
    if Owns(plan, q, c) {
      var j :| 0 <= j < |plan.order| && plan.order[j] == q && InRange(plan.sizes, j, c);
      SameRange(plan.sizes, i, j, c);
    }
  }

  lemma {:induction false} FirstAtLeastTwo(sizes: seq<nat>, i: nat, c: int)
    requires InRange(sizes, i, c)
    ensures 2 <= FirstAt(sizes, i)
  {
    RangeBounds(sizes, i);
    hide Start;
  }

  lemma {:induction false} SameRange(sizes: seq<nat>, i: nat, j: nat, c: int)
    requires InRange(sizes, i, c) && InRange(sizes, j, c)
    ensures i == j
  {
    if i < j { RangesApart(sizes, i, j); }
    if j < i { RangesApart(sizes, j, i); }
    hide Start;
  }

  lemma {:induction false} OwnerFirst(u: Unicode, plan: Plan, i: nat)
    requires PlanOk(u, plan) && i < |plan.order|
    ensures plan.order[i] in plan.first && i < |plan.sizes|
    ensures plan.first[plan.order[i]] == FirstAt(plan.sizes, i) <= Start(plan.sizes, i)
  {
    hide TreeShape, KidsOk, AllAliased, LegalAliases, ClusterCount;
    assert plan.order[i] in plan.order;
  }

  lemma {:induction false} InfoFields(free: nat, hint: nat)
    requires free < LIMIT && hint < LIMIT
    ensures GetLe32(FsInfoSector(free, hint), 488) == free && GetLe32(FsInfoSector(free, hint), 492) == hint
  {
    var info := FsInfoSector(free, hint);
    hide FsInfoSector;
    Le32RoundTrip(info, 488, free);
    Le32RoundTrip(info, 492, hint);
  }

  ghost predicate CountsFree(info: seq<byte>, fat: seq<word>, clusters: nat)
    requires |info| == 512 && clusters + 2 <= |fat|
  {
    var free, hint := FreeEntries(fat, 2, clusters + 2), GetLe32(info, 492);
    && GetLe32(info, 488) == free
    && if free == 0 then hint == 0xFFFF_FFFF
       else 2 <= hint < clusters + 2 && fat[hint] == 0 && forall c :: 2 <= c < hint ==> fat[c] != 0
  }

  lemma {:induction false} CountedFree(entries: nat, sizes: seq<nat>, clusters: nat)
    requires FatFits(entries, sizes) && clusters + 2 <= entries && Start(sizes, |sizes|) <= clusters + 2
    ensures var next := Start(sizes, |sizes|); var free := clusters - (next - 2);
            CountsFree(FsInfoSector(free, FreeHint(free, next)), FatWords(entries, sizes), clusters)
  {
    var next := Start(sizes, |sizes|);
    var free := clusters - (next - 2);
    FreeCount(entries, sizes, clusters);
    hide FatWords, FsInfoSector, FreeEntries, GetLe32, Start, FatFits, CountsFree;
    InfoFields(free, FreeHint(free, next));
    FreeCounted(FsInfoSector(free, FreeHint(free, next)), FatWords(entries, sizes), clusters, next, free);
  }

  lemma {:induction false} FreeCounted(info: seq<byte>, fat: seq<word>, clusters: nat, next: nat, free: nat)
    requires |info| == 512 && clusters + 2 <= |fat| && 2 <= next <= clusters + 2 && free == clusters + 2 - next
    requires FreeEntries(fat, 2, clusters + 2) == free && (forall c :: 2 <= c < next ==> fat[c] != 0)
    requires next < clusters + 2 ==> fat[next] == 0
    requires GetLe32(info, 488) == free && GetLe32(info, 492) == FreeHint(free, next)
    ensures CountsFree(info, fat, clusters)
  {
    hide FreeEntries, GetLe32;
  }

  /** FSInfo counts the zero entries of the FAT, and its hint is the first of them. */
  lemma {:induction false} FsInfoIsExact(u: Unicode, plan: Plan, g: Geometry, volume: string)
    requires Ready(u, plan, g, volume)
    ensures FatFits(128 * g.fat, plan.sizes)
    ensures CountsFree(FsInfoOf(plan, g.clusters), FatWords(128 * g.fat, plan.sizes), g.clusters)
  {
    hide PlanOk, Fits32, Blocks, BlocksFit, FatWords, FsInfoSector, CountsFree, FsInfoOf, FatFits, ValidLabel, FreeHint;
    ReadyFits(u, plan, g, volume);
    InfoIs(plan, g.clusters);
    CountedFree(128 * g.fat, plan.sizes, g.clusters);
  }

  lemma {:induction false} InfoIs(plan: Plan, clusters: nat)
    requires plan.Next() - 2 <= clusters && clusters + 2 < LIMIT
    ensures var next := Start(plan.sizes, |plan.sizes|); var free := clusters - (next - 2);
            FsInfoOf(plan, clusters) == FsInfoSector(free, FreeHint(free, next))
  {
    hide FsInfoSector, FreeHint, Start;
  }

  /** Both copies of the boot sector, of FSInfo and of the FAT are in place and equal. */
  lemma {:induction false} ImagePrologue(u: Unicode, plan: Plan, g: Geometry, volume: string, volumeId: nat)
    requires Ready(u, plan, g, volume) && volumeId < LIMIT
    ensures FatFits(128 * g.fat, plan.sizes)
    ensures HoldsPrologue(ImageBytes(u, plan, g, volume, volumeId), g.fat,
                          BootSector(g.total, g.fat, volume, volumeId, 0), FsInfoOf(plan, g.clusters),
                          Pack(FatWords(128 * g.fat, plan.sizes)))
  {
    ReadyFits(u, plan, g, volume);
    hide PlanOk, Fits32, Blocks, BlocksFit, BootSector, Pack, FatWords, VolumeBytes, FsInfoSector, HoldsPrologue;
    VolumeHeads(g.total * 512, g.fat, BootSector(g.total, g.fat, volume, volumeId, 0), FsInfoOf(plan, g.clusters),
                Pack(FatWords(128 * g.fat, plan.sizes)), plan.sizes, Blocks(u, plan, volume));
  }

  /** Permuting the manifest does not change the image when spellings agree. */
  lemma {:induction false} CreateOrderFree(
      u: Unicode, a: seq<Entry>, b: seq<Entry>, sizeMb: int, volume: string, volumeId: int)
    requires sizeMb <= MAX_MIB && multiset(a) == multiset(b) && AllValid(a) && SpellingsAgree(Items(u, a))
    ensures CreateImage(u, a, sizeMb, volume, volumeId) == CreateImage(u, b, sizeMb, volume, volumeId)
  {
    BuildOrderFree(u, a, b);
    hide Build, Layout, MakePlan, ImageBytes, TreeShape, PlanOk;
  }
}
