/** `create_fat32_image`, end to end. */
module FatCreate {
  import opened Bytes
  import opened FatNames
  import opened FatTree
  import opened FatEntries
  import opened FatLayout
  import opened FatAlloc
  import opened Ranges
  import opened Regions
  import opened FatBlocks
  import opened FatDirectoryData
  import opened FatVolume
  import opened FatImage

  /** The rule that runs the tool admits at most 4096 MiB. */
  const MAX_MIB := 4096

  /** The sizes a layout settles. */
  datatype Geometry = Geometry(total: nat, fat: nat, clusters: nat)

  ghost predicate GeometryOk(g: Geometry)
  {
    && g.total <= MAX_MIB * 2048 && RESERVED_SECTORS + FAT_COUNT * g.fat + g.clusters == g.total
    && g.clusters + 2 <= 128 * g.fat && g.fat <= 0x1_0000
  }

  function Layout(sizeMb: int): (g: Option<Geometry>)
    requires sizeMb <= MAX_MIB
    ensures g.Some? ==> GeometryOk(g.value)
    ensures g.Some? <==> sizeMb >= 33
  {
    var total := sizeMb * 2048;
    LayoutFacts(total);
    LeastFatIsLeast(total);
    if DataSectors(total, LeastFat(total)) < FAT32_MIN_CLUSTERS then None
    else Some(Geometry(total, LeastFat(total), DataSectors(total, LeastFat(total))))
  }

  ghost predicate Ready(u: Unicode, plan: Plan, g: Geometry, volume: string)
  {
    PlanOk(u, plan) && GeometryOk(g) && ValidLabel(volume) && plan.Next() - 2 <= g.clusters
  }

  lemma {:induction false} ContentFits(u: Unicode, plan: Plan, g: Geometry, volume: string, p: Path)
    requires Ready(u, plan, g, volume) && p in plan.tree && plan.tree[p].File?
    ensures |plan.tree[p].content| < LIMIT
  {
    hide PlanOk;
    var i := NodePlaced(u, plan, p);
    NodeSized(u, plan, i);
    RangeBounds(plan.sizes, i);
    hide KidsOk, AllAliased;
  }

  lemma {:induction false} ReadyFits(u: Unicode, plan: Plan, g: Geometry, volume: string)
    requires Ready(u, plan, g, volume)
    ensures Fits32(plan) && FatFits(128 * g.fat, plan.sizes)
    ensures BlocksFit(g.total * 512, DataStart(g.fat), plan.sizes, Blocks(u, plan, volume))
  {
    hide PlanOk, ValidLabel;
    forall p | p in plan.tree && plan.tree[p].File? ensures |plan.tree[p].content| < LIMIT {
      ContentFits(u, plan, g, volume, p);
    }
    SizesMatch(u, plan);
    assert Fits32(plan);
    hide Fits32, NodeBlock;
    var blocks := Blocks(u, plan, volume);
    assert forall i :: 0 <= i < |blocks| ==> |NodeBlock(u, plan, volume, i)| <= plan.sizes[i] * 512;
  }

  lemma {:induction false} SizesMatch(u: Unicode, plan: Plan)
    requires PlanOk(u, plan)
    ensures |plan.sizes| == |plan.order|
  {
    hide TreeShape, KidsOk, AllAliased, LegalAliases, Ordered;
  }

  function FreeHint(free: nat, next: nat): nat { if free > 0 then next else 0xFFFF_FFFF }

  function FsInfoOf(plan: Plan, clusters: nat): (r: seq<byte>)
    requires plan.Next() - 2 <= clusters && clusters + 2 < LIMIT
    ensures |r| == 512
  {
    var free := clusters - (plan.Next() - 2);
    FsInfoSector(free, FreeHint(free, plan.Next()))
  }

  /** The finished file. */
  function ImageBytes(u: Unicode, plan: Plan, g: Geometry, volume: string, volumeId: nat): (img: seq<byte>)
    requires Ready(u, plan, g, volume) && volumeId < LIMIT
    ensures |img| == g.total * 512
  {
    ReadyFits(u, plan, g, volume);
    hide PlanOk, Fits32, BlocksFit, Pack, FatWords, Blocks;
    VolumeBytes(g.total * 512, g.fat, BootSector(g.total, g.fat, volume, volumeId, 0), FsInfoOf(plan, g.clusters),
                Pack(FatWords(128 * g.fat, plan.sizes)), plan.sizes, Blocks(u, plan, volume))
  }

  /** What the tool produces; `None` is any exception. */
  function CreateImage(u: Unicode, entries: seq<Entry>, sizeMb: int, volume: string, volumeId: int): Option<seq<byte>>
    requires sizeMb <= MAX_MIB
  {
    var g := Layout(sizeMb);
    if !ValidLabel(volume) || !(0 <= volumeId < LIMIT) || g.None? then None
    else
      var t := Build(u, entries);
      if t.None? then None
      else
        BuildShape(u, entries);
        var plan := MakePlan(u, t.value);
        if plan.None? || plan.value.Next() - 2 > g.value.clusters then None
        else
          MadePlanOk(u, t.value);
          Some(ImageBytes(u, plan.value, g.value, volume, volumeId))
  }

  /** The clusters the nodes take up. */
  function Demand(u: Unicode, t: Tree): nat
    requires TreeShape(u, t) && DirectoriesAliased(u, t)
  {
    TreeAliasesIff(u, t);
    MakePlan(u, t).value.Next() - 2
  }

  /** What the tool demands of its arguments. */
  ghost predicate Acceptable(u: Unicode, entries: seq<Entry>, sizeMb: int, volume: string, volumeId: int)
    requires sizeMb <= MAX_MIB
  {
    && 1 <= |volume| <= 11 && (forall c :: c in volume ==> 32 <= c as int <= 126)
    && 0 <= volumeId <= 0xFFFF_FFFF && 33 <= sizeMb
    && AllValid(entries) && PrefixFree(Items(u, entries))
    && (BuildAccepts(u, entries);
        BuildShape(u, entries);
        var t := Build(u, entries).value;
        DirectoriesAliased(u, t) && Demand(u, t) <= sizeMb * 2048 - 32 - 2 * ((sizeMb * 2048 + 99) / 130))
  }

  /** Exactly when there is an image: label, identifier and size are in range, every entry is valid
      and readable, no folded path is a prefix of another, no directory runs out of aliases and the
      nodes fit the clusters. */
  lemma {:induction false} CreateAccepts(
      u: Unicode, entries: seq<Entry>, sizeMb: int, volume: string, volumeId: int)
    requires sizeMb <= MAX_MIB
    ensures CreateImage(u, entries, sizeMb, volume, volumeId).Some? <==>
            Acceptable(u, entries, sizeMb, volume, volumeId)
  {
    hide Build, MakePlan, TreeAliases, DirectoriesAliased, ImageBytes, TreeShape, ValidLabel;
    LabelIff(volume);
    if sizeMb >= 33 { ClustersOf(sizeMb); }
    hide Layout;
    hide AllValid, PrefixFree;
    BuildAccepts(u, entries);
    if Build(u, entries).Some? {
      BuildShape(u, entries);
      TreeAliasesIff(u, Build(u, entries).value);
      PlanIff(u, Build(u, entries).value);
    }
  }

  lemma {:induction false} LabelIff(volume: string)
    ensures ValidLabel(volume) <==> 1 <= |volume| <= 11 && forall c :: c in volume ==> 32 <= c as int <= 126
  {
  }

  lemma {:induction false} ClustersOf(sizeMb: int)
    requires 33 <= sizeMb <= MAX_MIB
    ensures Layout(sizeMb).value.clusters == sizeMb * 2048 - 32 - 2 * ((sizeMb * 2048 + 99) / 130)
  {
  }

  lemma {:induction false} PlanIff(u: Unicode, t: Tree)
    requires TreeShape(u, t)
    ensures MakePlan(u, t).Some? <==> TreeAliases(u, t).Some?
  {
    hide TreeAliases, TreeShape, FinishPlan;
  }

  // ----- the loops that write the file -----

  method MakeBlock(u: Unicode, plan: Plan, volume: string, i: nat) returns (block: seq<byte>)
    requires PlanOk(u, plan) && Fits32(plan) && ValidLabel(volume) && i < |plan.order|
    ensures block == NodeBlock(u, plan, volume, i)
  {
    NodeSized(u, plan, i);
    hide PlanOk, Fits32, ValidLabel, Records, Packable, ValidListing, ListingOf, ClusterCount;
    var p := plan.order[i];
    match plan.tree[p] {
      case Dir(_) =>
        ListingReady(u, plan, volume, i);
        var data := DirectoryData(ListingOf(plan, volume, p), plan.sizes[i] * 512);
        block := data.value;
      case File(_, content) =>
        block := content;
    }
  }

  lemma {:induction false} SpliceNothing(s: seq<byte>, at: nat)
    requires at <= |s|
    ensures Splice(s, at, []) == s
  {
  }

  /** One more write out of a fixed list. */
  lemma {:induction false} WriteNext(img: seq<byte>, rs: seq<Region>, k: nat)
    requires Fits(|img|, rs) && k < |rs|
    ensures Fits(|img|, rs[..k]) && Fits(|img|, rs[..k + 1]) && rs[k].End() <= |img|
    ensures WriteAll(img, rs[..k + 1]) == Splice(WriteAll(img, rs[..k]), rs[k].at, rs[k].data)
    ensures rs[k].data == [] ==> WriteAll(img, rs[..k + 1]) == WriteAll(img, rs[..k])
  {
    hide WriteAll, Splice;
    assert rs[..k + 1] == rs[..k] + [rs[k]];
    WriteOneMore(img, rs[..k], rs[k]);
    if rs[k].data == [] { SpliceNothing(WriteAll(img, rs[..k]), rs[k].at); }
  }

  method WriteNodes(
      a: array<byte>, ghost zero: seq<byte>, ghost rs: seq<Region>, ghost done: nat,
      u: Unicode, plan: Plan, volume: string, base: nat)
    requires PlanOk(u, plan) && Fits32(plan) && ValidLabel(volume) && |plan.order| == |plan.sizes|
    requires |zero| == a.Length && Fits(a.Length, rs) && |rs| == done + |plan.order|
    requires forall i :: 0 <= i < |plan.order| ==>
               rs[done + i] == Region(BlockAt(base, plan.sizes, i), NodeBlock(u, plan, volume, i))
    requires Fits(a.Length, rs[..done]) && a[..] == WriteAll(zero, rs[..done])
    modifies a
    ensures a[..] == WriteAll(zero, rs)
  {
    hide PlanOk, Fits32, ValidLabel, NodeBlock, WriteAll, BlockAt, Splice;
    for i := 0 to |plan.order|
      invariant Fits(a.Length, rs[..done + i])
      invariant a[..] == WriteAll(zero, rs[..done + i])
    {
      WriteNext(zero, rs, done + i);
      assert rs[done + i] == Region(BlockAt(base, plan.sizes, i), NodeBlock(u, plan, volume, i));
      if plan.sizes[i] != 0 {
        var block := MakeBlock(u, plan, volume, i);
        WriteAt(a, BlockAt(base, plan.sizes, i), block);
      }
    }
    assert rs[..|rs|] == rs;
  }

  lemma {:induction false} AllRegions(
      size: nat, fat: nat, boot: seq<byte>, fsinfo: seq<byte>, table: seq<byte>, u: Unicode, plan: Plan, volume: string)
    requires PlanOk(u, plan) && Fits32(plan) && ValidLabel(volume) && |plan.order| == |plan.sizes|
    requires |boot| == |fsinfo| == 512 && |table| == 512 * fat
    requires BlocksFit(size, DataStart(fat), plan.sizes, Blocks(u, plan, volume))
    ensures var rs := VolumeRegions(fat, boot, fsinfo, table, plan.sizes, Blocks(u, plan, volume));
            && Fits(size, rs) && |rs| == 6 + |plan.order| && rs[..6] == Prologue(fat, boot, fsinfo, table)
            && forall i :: 0 <= i < |plan.order| ==>
                 rs[6 + i] == Region(BlockAt(DataStart(fat), plan.sizes, i), NodeBlock(u, plan, volume, i))
  {
    hide PlanOk, Fits32, ValidLabel, NodeBlock, BlockAt, Prologue, BlocksFit;
    VolumeRegionsFit(size, fat, boot, fsinfo, table, plan.sizes, Blocks(u, plan, volume));
  }

  /** The finished file as one list of writes. */
  ghost function ImageRegions(
      u: Unicode, plan: Plan, g: Geometry, boot: seq<byte>, fsinfo: seq<byte>, table: seq<byte>, volume: string)
    : (rs: seq<Region>)
    requires Ready(u, plan, g, volume) && |boot| == |fsinfo| == 512 && |table| == 512 * g.fat
    ensures |plan.order| == |plan.sizes| && |rs| == 6 + |plan.order| && Fits32(plan)
    ensures Fits(g.total * 512, rs) && rs[..6] == Prologue(g.fat, boot, fsinfo, table)
    ensures forall i :: 0 <= i < |plan.order| ==>
              rs[6 + i] == Region(BlockAt(DataStart(g.fat), plan.sizes, i), NodeBlock(u, plan, volume, i))
  {
    ReadyFits(u, plan, g, volume);
    SizesMatch(u, plan);
    hide PlanOk, Fits32, Blocks, BlocksFit, NodeBlock, GeometryOk, Prologue, BlockAt, DataStart;
    AllRegions(g.total * 512, g.fat, boot, fsinfo, table, u, plan, volume);
    VolumeRegions(g.fat, boot, fsinfo, table, plan.sizes, Blocks(u, plan, volume))
  }

  lemma {:induction false} ImageIsRegions(u: Unicode, plan: Plan, g: Geometry, volume: string, volumeId: nat)
    requires Ready(u, plan, g, volume) && volumeId < LIMIT
    ensures FatFits(128 * g.fat, plan.sizes)
    ensures ImageBytes(u, plan, g, volume, volumeId) ==
            WriteAll(Zeros(g.total * 512),
                     ImageRegions(u, plan, g, BootSector(g.total, g.fat, volume, volumeId, 0),
                                  FsInfoOf(plan, g.clusters),
                                  Pack(FatWords(128 * g.fat, plan.sizes)), volume))
  {
    ReadyFits(u, plan, g, volume);
    hide PlanOk, Fits32, Blocks, BlocksFit, NodeBlock, Prologue, Pack, FatWords, WriteAll, BootSector, FsInfoSector;
  }

  /** Truncate to size, write the sectors and FATs, then the nodes in walk order. */
  method WriteFile(
      size: nat, ghost rs: seq<Region>, fat: nat, boot: seq<byte>, fsinfo: seq<byte>, table: seq<byte>,
      u: Unicode, plan: Plan, volume: string)
    returns (img: seq<byte>)
    requires PlanOk(u, plan) && Fits32(plan) && ValidLabel(volume) && |plan.order| == |plan.sizes|
    requires Fits(size, rs) && |rs| == 6 + |plan.order| && rs[..6] == Prologue(fat, boot, fsinfo, table)
    requires forall i :: 0 <= i < |plan.order| ==>
               rs[6 + i] == Region(BlockAt(DataStart(fat), plan.sizes, i), NodeBlock(u, plan, volume, i))
    ensures img == WriteAll(Zeros(size), rs)
  {
    hide PlanOk, Fits32, WriteAll, NodeBlock, Prologue, BlockAt, DataStart;
    var a := NewZeros(size);
    WriteRegions(a, Prologue(fat, boot, fsinfo, table));
    WriteNodes(a, Zeros(size), rs, 6, u, plan, volume, DataStart(fat));
    return a[..];
  }

  method WriteImage(u: Unicode, plan: Plan, g: Geometry, volume: string, volumeId: nat) returns (img: seq<byte>)
    requires Ready(u, plan, g, volume) && volumeId < LIMIT
    ensures img == ImageBytes(u, plan, g, volume, volumeId)
  {
    ImageIsRegions(u, plan, g, volume, volumeId);
    var size := g.total * 512;
    hide PlanOk, Fits32, Pack, FatWords, Blocks;
    hide BootSector, FsInfoSector, WriteAll, NodeBlock, ImageBytes, ImageRegions;
    var fat := FillFat(128 * g.fat, plan.sizes);
    var boot, fsinfo := BootSector(g.total, g.fat, volume, volumeId, 0), FsInfoOf(plan, g.clusters);
    ghost var rs := ImageRegions(u, plan, g, boot, fsinfo, fat, volume);
    img := WriteFile(size, rs, g.fat, boot, fsinfo, fat, u, plan, volume);
  }

  method ChooseLayout(sizeMb: int) returns (g: Option<Geometry>)
    requires sizeMb <= MAX_MIB
    ensures g == Layout(sizeMb)
  {
    var sectors := sizeMb * 1024 * 1024 / SECTOR_SIZE;
    assert sectors == sizeMb * 2048;
    var layout := CalculateLayout(sectors);
    if layout.None? { return None; }
    LayoutFacts(sectors);
    LeastFatIsLeast(sectors);
    return Some(Geometry(sectors, layout.value.0, layout.value.1));
  }

  method CreateFat32Image(u: Unicode, entries: seq<Entry>, sizeMb: int, volume: string, volumeId: int)
    returns (r: Option<seq<byte>>)
    requires sizeMb <= MAX_MIB
    ensures r == CreateImage(u, entries, sizeMb, volume, volumeId)
  {
    hide Layout, ImageBytes, PlanOk, TreeShape, MakePlan, Build, GeometryOk;
    if !ValidLabel(volume) || !(0 <= volumeId < LIMIT) { return None; }
    hide ValidLabel;
    var g := ChooseLayout(sizeMb);
    if g.None? { return None; }
    var tree := BuildTree(u, entries);
    if tree.None? { return None; }
    BuildShape(u, entries);
    var plan := Annotate(u, tree.value, g.value.clusters);
    if plan.None? { return None; }
    MadePlanOk(u, tree.value);
    var img := WriteImage(u, plan.value, g.value, volume, volumeId);
    return Some(img);
  }
}
