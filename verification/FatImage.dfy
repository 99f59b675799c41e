/** The annotated tree of `create_fat32_image`: what the passes fill in, how it is consistent, and
    the block of bytes each node gets. */
module FatImage {
  import opened Bytes
  import opened Text
  import opened FatNames
  import opened FatTree
  import opened FatEntries
  import opened FatPlan
  import opened FatAlloc
  import opened Ranges
  import opened FatDirectory
  import opened FatDirectoryData

  // ----- the annotated tree -----

  /** The tree and the fields the passes have filled in; `sizes[i]` is the cluster count of
      the `i`-th node of the walk. */
  datatype Plan = Plan(
    tree: Tree,
    kids: map<Path, seq<Path>>,
    alias: map<Path, Alias>,
    order: seq<Path>,
    sizes: seq<nat>,
    first: map<Path, nat>)
  {
    /** `next_free` */
    function Next(): nat { Start(sizes, |sizes|) }
  }

  ghost predicate Ordered(t: Tree, order: seq<Path>)
  {
    Distinct(order) && (forall p :: p in order <==> p in t) && order != [] && order[0] == []
  }

  ghost predicate LegalAliases(t: Tree, alias: map<Path, Alias>)
  {
    forall p :: p in t && p != [] ==> p in alias && LegalAlias(alias[p])
  }

  ghost predicate Sized(plan: Plan)
    requires KidsOk(plan.tree, plan.kids) && AllAliased(plan.tree, plan.alias)
  {
    && |plan.sizes| == |plan.order|
    && forall i :: 0 <= i < |plan.order| ==>
         plan.order[i] in plan.tree && plan.sizes[i] == ClusterCount(plan.tree, plan.kids, plan.alias, plan.order[i])
  }

  ghost predicate PlanOk(u: Unicode, plan: Plan)
  {
    && TreeShape(u, plan.tree)
    && KidsOk(plan.tree, plan.kids)
    && AllAliased(plan.tree, plan.alias) && LegalAliases(plan.tree, plan.alias)
    && Ordered(plan.tree, plan.order)
    && Sized(plan)
    && plan.first == Firsts(plan.order, plan.sizes)
  }

  lemma {:induction false} KidsAreOk(t: Tree)
    ensures KidsOk(t, Kids(t))
    ensures forall p :: p in Kids(t) ==> forall i :: 0 <= i < |Kids(t)[p]| ==> Kids(t)[p][i] in t
  {
    hide Children;
    var kids := Kids(t);
    forall p | p in kids ensures forall i :: 0 <= i < |kids[p]| ==> kids[p][i] in t {
      assert forall i :: 0 <= i < |kids[p]| ==> kids[p][i] in kids[p];
    }
  }

  lemma {:induction false} WalkOrdered(u: Unicode, t: Tree)
    requires TreeShape(u, t)
    ensures Ordered(t, Walk(t, []))
  {
    WalkCovers(u, t, []);
    assert forall q :: q in t ==> q[..0] == [];
  }

  /** Every directory aliased in walk order; `None` when one runs out of aliases. */
  function TreeAliases(u: Unicode, t: Tree): Option<map<Path, Alias>>
    requires TreeShape(u, t)
  {
    KidsAreOk(t);
    WalkOrdered(u, t);
    assert RawsOk(Kids(t), DirAliases(u, t, Kids(t)));
    AliasMap(t, Kids(t), DirAliases(u, t, Kids(t)), Walk(t, []))
  }

  ghost predicate LegalAndDistinct(raws: seq<Alias>)
  {
    Distinct(raws) && forall i :: 0 <= i < |raws| ==> LegalAlias(raws[i])
  }

  lemma {:induction false} LegalList(u: Unicode, names: seq<string>)
    requires AliasList(u, names).Some?
    ensures LegalAndDistinct(AliasList(u, names).value)
  {
    hide LegalAlias;
    AliasesAreLegalAndDistinct(u, names);
  }

  /** In every directory the children hold legal, pairwise distinct aliases. */
  lemma {:induction false} DirectoryAliased(u: Unicode, t: Tree, p: Path) returns (raws: seq<Alias>)
    requires TreeShape(u, t) && p in t && t[p].Dir? && TreeAliases(u, t).Some?
    ensures HoldsAll(TreeAliases(u, t).value, Kids(t)[p], raws) && LegalAndDistinct(raws)
  {
    KidsAreOk(t);
    WalkOrdered(u, t);
    var all := DirAliases(u, t, Kids(t));
    AliasMapFacts(t, Kids(t), all, Walk(t, []));
    assert AliasedDir(Kids(t), all, TreeAliases(u, t).value, p);
    raws := all[p].value;
    hide TreeAliases, HoldsAll, LegalAndDistinct, AliasList;
    LegalList(u, NamesOf(t, Kids(t)[p]));
  }

  lemma {:induction false} NodeAliased(u: Unicode, t: Tree, p: Path)
    requires TreeShape(u, t) && p in t && p != [] && TreeAliases(u, t).Some?
    ensures p in TreeAliases(u, t).value && LegalAlias(TreeAliases(u, t).value[p])
  {
    KidsAreOk(t);
    assert ShapeAt(u, t, p);
    var q := p[..|p| - 1];
    hide TreeAliases, LegalAlias, Kids, TreeShape;
    var raws := DirectoryAliased(u, t, q);
    assert IsChild(q, p) && p in Kids(t)[q];
  }

  lemma {:induction false} HeldDistinct<K, V>(m: map<K, V>, ks: seq<K>, vs: seq<V>, c: K, d: K)
    requires HoldsAll(m, ks, vs) && Distinct(vs) && c in ks && d in ks && c != d
    ensures c in m && d in m && m[c] != m[d]
  {
    var i :| 0 <= i < |ks| && ks[i] == c;
    var j :| 0 <= j < |ks| && ks[j] == d;
  }

  /** Siblings never share an alias. */
  lemma {:induction false} SiblingAliasesDiffer(u: Unicode, t: Tree, p: Path, c: Path, d: Path)
    requires TreeShape(u, t) && p in t && t[p].Dir? && TreeAliases(u, t).Some?
    requires c in t && d in t && IsChild(p, c) && IsChild(p, d) && c != d
    ensures var alias := TreeAliases(u, t).value; c in alias && d in alias && alias[c] != alias[d]
  {
    KidsAreOk(t);
    hide TreeAliases, LegalAlias, Kids, TreeShape;
    var raws := DirectoryAliased(u, t, p);
    assert c in Kids(t)[p] && d in Kids(t)[p];
    HeldDistinct(TreeAliases(u, t).value, Kids(t)[p], raws, c, d);
  }

  /** No directory runs out of aliases. */
  ghost predicate DirectoriesAliased(u: Unicode, t: Tree)
  {
    forall p :: p in t && t[p].Dir? ==> AliasList(u, NamesOf(t, Children(t, p))).Some?
  }

  lemma {:induction false} TreeAliasesIff(u: Unicode, t: Tree)
    requires TreeShape(u, t)
    ensures TreeAliases(u, t).Some? <==> DirectoriesAliased(u, t)
  {
    KidsAreOk(t);
    WalkOrdered(u, t);
    var raws := DirAliases(u, t, Kids(t));
    hide Walk, AliasMap, AliasList, Children;
    AliasMapExists(t, Kids(t), raws, Walk(t, []));
    assert forall p :: p in t && t[p].Dir? ==> raws[p] == AliasList(u, NamesOf(t, Children(t, p)));
  }

  /** Aliases can only run out in a directory of a million children or more. */
  lemma {:induction false} AliasesAvailable(u: Unicode, t: Tree)
    requires TreeShape(u, t) && forall p :: p in t ==> |Children(t, p)| < ALIAS_LIMIT
    ensures TreeAliases(u, t).Some?
  {
    TreeAliasesIff(u, t);
    hide TreeAliases, AliasList, Children, TreeShape, NamesOf;
    forall p | p in t && t[p].Dir? ensures AliasList(u, NamesOf(t, Children(t, p))).Some? {
      DirectoryAliasesExist(u, t, p);
    }
  }

  lemma {:induction false} DirectoryAliasesExist(u: Unicode, t: Tree, p: Path)
    requires p in t && |Children(t, p)| < ALIAS_LIMIT
    ensures AliasList(u, NamesOf(t, Children(t, p))).Some?
  {
    var names := NamesOf(t, Children(t, p));
    assert |names| == |Children(t, p)|;
    hide *;
    AliasesExist(u, names);
  }

  lemma {:induction false} TreeAliased(u: Unicode, t: Tree)
    requires TreeShape(u, t) && TreeAliases(u, t).Some?
    ensures AllAliased(t, TreeAliases(u, t).value) && LegalAliases(t, TreeAliases(u, t).value)
  {
    hide TreeAliases, LegalAlias;
    forall p | p in t && p != [] ensures p in TreeAliases(u, t).value && LegalAlias(TreeAliases(u, t).value[p]) {
      NodeAliased(u, t, p);
    }
  }

  /** Measure and number the nodes of an aliased tree. */
  function FinishPlan(t: Tree, kids: map<Path, seq<Path>>, alias: map<Path, Alias>, order: seq<Path>): (plan: Plan)
    requires KidsOk(t, kids) && AllAliased(t, alias) && Ordered(t, order)
    ensures plan.tree == t
  {
    assert forall i :: 0 <= i < |order| ==> order[i] in order;
    var sizes := Sizes(order, Counts(t, kids, alias));
    Plan(t, kids, alias, order, sizes, Firsts(order, sizes))
  }

  function MakePlan(u: Unicode, t: Tree): Option<Plan>
    requires TreeShape(u, t)
  {
    var alias := TreeAliases(u, t);
    if alias.None? then None
    else
      KidsAreOk(t);
      WalkOrdered(u, t);
      TreeAliased(u, t);
      Some(FinishPlan(t, Kids(t), alias.value, Walk(t, [])))
  }

  lemma {:induction false} FinishedPlanOk(
      u: Unicode, t: Tree, kids: map<Path, seq<Path>>, alias: map<Path, Alias>, order: seq<Path>)
    requires TreeShape(u, t) && KidsOk(t, kids) && AllAliased(t, alias) && LegalAliases(t, alias) && Ordered(t, order)
    ensures PlanOk(u, FinishPlan(t, kids, alias, order))
  {
    hide TreeShape, KidsOk, LegalAliases, ClusterCount, Firsts;
    assert forall i :: 0 <= i < |order| ==> order[i] in order;
  }

  lemma {:induction false} MadePlanOk(u: Unicode, t: Tree)
    requires TreeShape(u, t) && MakePlan(u, t).Some?
    ensures PlanOk(u, MakePlan(u, t).value) && MakePlan(u, t).value.tree == t
  {
    KidsAreOk(t);
    WalkOrdered(u, t);
    TreeAliased(u, t);
    hide TreeAliases, PlanOk, Walk, Kids, TreeShape, KidsOk, AllAliased, LegalAliases, Ordered, FinishPlan;
    FinishedPlanOk(u, t, Kids(t), TreeAliases(u, t).value, Walk(t, []));
  }

  /** `_assign_clusters` */
  method AssignClusters(
      t: Tree, kids: map<Path, seq<Path>>, alias: map<Path, Alias>, order: seq<Path>, available: int)
    returns (r: Option<Plan>)
    requires KidsOk(t, kids) && AllAliased(t, alias) && Ordered(t, order)
    ensures var plan := FinishPlan(t, kids, alias, order);
            r == if plan.Next() - 2 <= available then Some(plan) else None
  {
    hide KidsOk, AllAliased, Counts, Firsts, FatTree.Distinct;
    var count := MeasureNodes(t, kids, alias, order);
    assert forall i :: 0 <= i < |order| ==> order[i] in order;
    var numbered := NumberClusters(order, count, available);
    if numbered.None? { return None; }
    return Some(Plan(t, kids, alias, order, Sizes(order, count), numbered.value.0));
  }

  method Annotate(u: Unicode, t: Tree, available: int) returns (r: Option<Plan>)
    requires TreeShape(u, t)
    ensures var plan := MakePlan(u, t);
            r == if plan.Some? && plan.value.Next() - 2 <= available then plan else None
  {
    KidsAreOk(t);
    WalkOrdered(u, t);
    var kids, order := Kids(t), Walk(t, []);
    var alias := AssignAllShortNames(u, t, kids, order);
    assert alias == TreeAliases(u, t);
    if alias.None? { return None; }
    TreeAliased(u, t);
    hide Kids, Walk, TreeAliases, FinishPlan, KidsOk, AllAliased, TreeShape, LegalAliases, Ordered;
    r := AssignClusters(t, kids, alias.value, order, available);
  }

  // ----- what each node writes -----

  const LIMIT := 0x1_0000_0000

  /** The fields of a child that go into its parent's entries. */
  function ChildOf(plan: Plan, c: Path): Child
    requires c in plan.tree && c in plan.alias && c in plan.first
  {
    match plan.tree[c]
    case Dir(name) =>
      Child(name, plan.alias[c], NeedsLfn(name, plan.alias[c]), ATTR_DIRECTORY, plan.first[c], 0)
    case File(name, content) =>
      Child(name, plan.alias[c], NeedsLfn(name, plan.alias[c]), ATTR_ARCHIVE, plan.first[c], |content|)
  }

  predicate HasFields(plan: Plan, cs: seq<Path>)
  {
    forall i :: 0 <= i < |cs| ==> cs[i] in plan.tree && cs[i] in plan.alias && cs[i] in plan.first
  }

  function ChildrenOf(plan: Plan, cs: seq<Path>): (r: seq<Child>)
    requires HasFields(plan, cs)
    ensures |r| == |cs| && forall i :: 0 <= i < |cs| ==> r[i] == ChildOf(plan, cs[i])
  {
    seq(|cs|, i requires 0 <= i < |cs| => ChildOf(plan, cs[i]))
  }

  /** `..` names the parent's cluster, or 0 when the parent is the root. */
  function ParentCluster(plan: Plan, p: Path): nat
  {
    if |p| >= 2 && p[..|p| - 1] in plan.first then plan.first[p[..|p| - 1]] else 0
  }

  function ListingOf(plan: Plan, volume: string, p: Path): Listing
    requires p in plan.first && p in plan.kids && HasFields(plan, plan.kids[p])
  {
    Listing(p == [], volume, plan.first[p], ParentCluster(plan, p), ChildrenOf(plan, plan.kids[p]))
  }

  /** Cluster numbers and sizes fit the 32-bit fields they are packed into. */
  ghost predicate Fits32(plan: Plan)
  {
    && plan.Next() < LIMIT
    && forall p :: p in plan.tree && plan.tree[p].File? ==> |plan.tree[p].content| < LIMIT
  }

  // One fact of `PlanOk` at a time.

  lemma {:induction false} NodeShaped(u: Unicode, plan: Plan, p: Path)
    requires PlanOk(u, plan) && p in plan.tree
    ensures ShapeAt(u, plan.tree, p)
  {
    hide KidsOk, AllAliased, LegalAliases, Ordered, Sized, ShapeAt;
  }

  lemma {:induction false} NodeHasAlias(u: Unicode, plan: Plan, p: Path)
    requires PlanOk(u, plan) && p in plan.tree && p != []
    ensures p in plan.alias && LegalAlias(plan.alias[p])
  {
    hide TreeShape, KidsOk, Ordered, Sized, LegalAlias;
  }

  lemma {:induction false} KidsKnown(u: Unicode, plan: Plan, p: Path)
    requires PlanOk(u, plan) && p in plan.tree
    ensures p in plan.kids && Distinct(plan.kids[p])
    ensures forall i :: 0 <= i < |plan.kids[p]| ==> plan.kids[p][i] in plan.tree && IsChild(p, plan.kids[p][i])
    ensures forall c :: c in plan.tree && IsChild(p, c) ==> c in plan.kids[p]
  {
    hide TreeShape, AllAliased, LegalAliases, Ordered, Sized, IsChild;
    assert forall i :: 0 <= i < |plan.kids[p]| ==> plan.kids[p][i] in plan.kids[p];
  }

  lemma {:induction false} NodePlaced(u: Unicode, plan: Plan, p: Path) returns (i: nat)
    requires PlanOk(u, plan) && p in plan.tree
    ensures i < |plan.order| == |plan.sizes| && plan.order[i] == p
    ensures p in plan.first && plan.first[p] == FirstAt(plan.sizes, i) <= plan.Next()
  {
    hide TreeShape, KidsOk, AllAliased, LegalAliases, ClusterCount;
    i :| 0 <= i < |plan.order| && plan.order[i] == p;
    RangeBounds(plan.sizes, i);
    assert plan.first[plan.order[i]] == FirstAt(plan.sizes, i);
  }

  lemma {:induction false} NodeSized(u: Unicode, plan: Plan, i: nat)
    requires PlanOk(u, plan) && i < |plan.order|
    ensures |plan.sizes| == |plan.order| && plan.order[i] in plan.tree
    ensures plan.sizes[i] == ClusterCount(plan.tree, plan.kids, plan.alias, plan.order[i])
  {
    hide TreeShape, KidsOk, AllAliased, LegalAliases, ClusterCount, Ordered;
  }

  lemma {:induction false} ChildIsValid(u: Unicode, plan: Plan, c: Path)
    requires PlanOk(u, plan) && Fits32(plan) && c in plan.tree && c != []
    ensures c in plan.alias && c in plan.first && ValidChild(ChildOf(plan, c)) && PackableChild(ChildOf(plan, c))
    ensures ChildOf(plan, c).name == plan.tree[c].name != ""
  {
    hide PlanOk, LegalAlias, ValidComponent, EncodeUtf16, DisplayName;
    var i := NodePlaced(u, plan, c);
    NodeShaped(u, plan, c);
    NodeHasAlias(u, plan, c);
    LegalAliasBytes(plan.alias[c]);
    ComponentIsNameable(plan.tree[c].name);
  }

  lemma {:induction false} LegalAliasBytes(raw: Alias)
    requires LegalAlias(raw)
    ensures (forall b :: b in raw ==> 32 <= b < 127) && raw[0] != 32
  {
    var base, ext :| IsShort(base, ext) && base != "" && !ReservedShortName(base) && raw == ShortRaw(base, ext);
  }

  lemma {:induction false} ComponentIsNameable(name: string)
    requires ValidComponent(name)
    ensures name != "" && name != "." && name != ".." && |EncodeUtf16(name)| <= 255
    ensures forall x :: x in name ==> x as int != 0
  {
  }

  lemma {:induction false} ChildRecordCount(t: Tree, alias: map<Path, Alias>, c: Path, child: Child)
    requires c in t && c in alias && t[c].name != "" && PackableChild(child)
    requires child.name == t[c].name && child.lfn == NeedsLfn(t[c].name, alias[c])
    ensures |ChildRecords(child)| == ChildEntryCount(t, alias, c)
  {
    hide EncodeUtf16, DisplayName, ShortEntry;
  }

  lemma {:induction false} KidsHaveFields(u: Unicode, plan: Plan, p: Path)
    requires PlanOk(u, plan) && p in plan.tree
    ensures p in plan.first && p in plan.kids && HasFields(plan, plan.kids[p])
    ensures forall i :: 0 <= i < |plan.kids[p]| ==> plan.kids[p][i] != []
  {
    hide PlanOk, LegalAlias;
    KidsKnown(u, plan, p);
    var j := NodePlaced(u, plan, p);
    forall i | 0 <= i < |plan.kids[p]| ensures plan.kids[p][i] in plan.alias && plan.kids[p][i] in plan.first {
      var k := NodePlaced(u, plan, plan.kids[p][i]);
      NodeHasAlias(u, plan, plan.kids[p][i]);
    }
  }

  predicate AllPackable(cs: seq<Child>) { forall i :: 0 <= i < |cs| ==> PackableChild(cs[i]) }

  lemma {:induction false} ChildrenPackable(u: Unicode, plan: Plan, cs: seq<Path>)
    requires PlanOk(u, plan) && Fits32(plan) && HasFields(plan, cs) && forall i :: 0 <= i < |cs| ==> cs[i] != []
    ensures AllPackable(ChildrenOf(plan, cs))
  {
    hide PlanOk, Fits32, ValidChild, PackableChild, ChildOf;
    forall i | 0 <= i < |cs| ensures PackableChild(ChildrenOf(plan, cs)[i]) { ChildIsValid(u, plan, cs[i]); }
  }

  lemma {:induction false} RecordsLast(cs: seq<Child>, n: nat)
    requires AllPackable(cs) && |cs| == n + 1
    ensures AllPackable(cs[..n]) && |ChildrenRecords(cs)| == |ChildrenRecords(cs[..n])| + |ChildRecords(cs[n])|
  {
    hide PackableChild, ChildRecords;
  }

  lemma {:induction false} CountLast(t: Tree, alias: map<Path, Alias>, cs: seq<Path>, n: nat)
    requires Aliased(t, alias, cs) && |cs| == n + 1
    ensures Aliased(t, alias, cs[..n])
    ensures ChildrenEntryCount(t, alias, cs) == ChildrenEntryCount(t, alias, cs[..n]) + ChildEntryCount(t, alias, cs[n])
  {
    hide ChildEntryCount;
  }

  lemma {:induction false} OneRecordCount(u: Unicode, plan: Plan, c: Path)
    requires PlanOk(u, plan) && Fits32(plan) && c in plan.tree && c in plan.alias && c in plan.first && c != []
    ensures PackableChild(ChildOf(plan, c))
    ensures |ChildRecords(ChildOf(plan, c))| == ChildEntryCount(plan.tree, plan.alias, c)
  {
    hide PlanOk, Fits32, ValidChild, ChildRecords, ChildEntryCount, ChildOf, PackableChild;
    ChildIsValid(u, plan, c);
    ChildLfn(plan, c);
    ChildRecordCount(plan.tree, plan.alias, c, ChildOf(plan, c));
  }

  lemma {:induction false} ChildrenRecordCount(u: Unicode, plan: Plan, cs: seq<Path>)
    requires PlanOk(u, plan) && Fits32(plan) && HasFields(plan, cs) && forall i :: 0 <= i < |cs| ==> cs[i] != []
    ensures AllPackable(ChildrenOf(plan, cs)) && Aliased(plan.tree, plan.alias, cs)
    ensures |ChildrenRecords(ChildrenOf(plan, cs))| == ChildrenEntryCount(plan.tree, plan.alias, cs)
  {
    hide PlanOk, Fits32, ChildRecords, ChildEntryCount, PackableChild, ChildOf;
    ChildrenPackable(u, plan, cs);
    if cs != [] {
      hide ChildrenRecords, ChildrenEntryCount;
      var n := |cs| - 1;
      ChildrenRecordCount(u, plan, cs[..n]);
      ChildrenPrefix(plan, cs, n);
      OneRecordCount(u, plan, cs[n]);
      RecordsLast(ChildrenOf(plan, cs), n);
      CountLast(plan.tree, plan.alias, cs, n);
    }
  }

  lemma {:induction false} ChildrenPrefix(plan: Plan, cs: seq<Path>, n: nat)
    requires HasFields(plan, cs) && n <= |cs|
    ensures HasFields(plan, cs[..n]) && ChildrenOf(plan, cs)[..n] == ChildrenOf(plan, cs[..n])
  {
    hide ChildOf;
  }

  lemma {:induction false} ChildLfn(plan: Plan, c: Path)
    requires c in plan.tree && c in plan.alias && c in plan.first
    ensures ChildOf(plan, c).lfn == NeedsLfn(plan.tree[c].name, plan.alias[c])
  {
  }

  lemma {:induction false} SiblingNamesDiffer(u: Unicode, plan: Plan, p: Path, i: nat, j: nat)
    requires PlanOk(u, plan) && p in plan.tree && p in plan.kids && i < j < |plan.kids[p]|
    ensures plan.kids[p][i] in plan.tree && plan.kids[p][j] in plan.tree
    ensures plan.tree[plan.kids[p][i]].name != plan.tree[plan.kids[p][j]].name
  {
    hide PlanOk, ValidComponent;
    KidsKnown(u, plan, p);
    var c, d := plan.kids[p][i], plan.kids[p][j];
    assert c != d;
    NodeShaped(u, plan, c);
    NodeShaped(u, plan, d);
    assert c == p + [c[|p|]] && d == p + [d[|p|]];
  }

  lemma {:induction false} FieldsFit(u: Unicode, plan: Plan, p: Path)
    requires PlanOk(u, plan) && Fits32(plan) && p in plan.tree
    ensures p in plan.first && plan.first[p] < LIMIT && ParentCluster(plan, p) < LIMIT
  {
    hide PlanOk, ValidComponent;
    var i := NodePlaced(u, plan, p);
    if |p| >= 2 {
      NodeShaped(u, plan, p);
      var j := NodePlaced(u, plan, p[..|p| - 1]);
    }
  }

  lemma {:induction false} ListingValid(u: Unicode, plan: Plan, volume: string, p: Path)
    requires PlanOk(u, plan) && Fits32(plan) && ValidLabel(volume) && p in plan.tree
    requires p in plan.first && p in plan.kids && HasFields(plan, plan.kids[p])
    ensures ValidListing(ListingOf(plan, volume, p)) && Packable(ListingOf(plan, volume, p))
  {
    hide PlanOk, Fits32, ValidChild, PackableChild, ChildOf, ValidLabel;
    KidsHaveFields(u, plan, p);
    FieldsFit(u, plan, p);
    var cs := plan.kids[p];
    var children := ChildrenOf(plan, cs);
    forall i | 0 <= i < |cs| ensures ValidChild(children[i]) && PackableChild(children[i]) {
      ChildIsValid(u, plan, cs[i]);
    }
    forall i, j | 0 <= i < j < |cs| ensures children[i].name != children[j].name {
      SiblingNamesDiffer(u, plan, p, i, j);
      ChildIsValid(u, plan, cs[i]);
      ChildIsValid(u, plan, cs[j]);
    }
  }

  /** Every directory can be packed, needs exactly the counted entries and fits its clusters. */
  lemma {:induction false} ListingReady(u: Unicode, plan: Plan, volume: string, i: nat)
    requires PlanOk(u, plan) && Fits32(plan) && ValidLabel(volume) && i < |plan.order|
    requires plan.order[i] in plan.tree && plan.tree[plan.order[i]].Dir?
    ensures var p := plan.order[i];
            && i < |plan.sizes| && plan.sizes[i] > 0
            && p in plan.first && p in plan.kids && HasFields(plan, plan.kids[p])
            && ValidListing(ListingOf(plan, volume, p)) && Packable(ListingOf(plan, volume, p))
            && 32 * |Records(ListingOf(plan, volume, p))| <= plan.sizes[i] * 512
  {
    var p := plan.order[i];
    NodeSized(u, plan, i);
    hide Fits32, ValidListing, ValidLabel, PackableChild, ChildOf, ChildrenEntryCount, ChildrenRecords;
    hide TreeShape, KidsOk, AllAliased, LegalAliases, Ordered, Sized;
    KidsHaveFields(u, plan, p);
    ListingValid(u, plan, volume, p);
    ChildrenRecordCount(u, plan, plan.kids[p]);
  }

  lemma {:induction false} FileFits(u: Unicode, plan: Plan, i: nat)
    requires PlanOk(u, plan) && i < |plan.order|
    ensures i < |plan.sizes| && plan.order[i] in plan.tree
    ensures plan.tree[plan.order[i]].File? ==> |plan.tree[plan.order[i]].content| <= plan.sizes[i] * 512
  {
    NodeSized(u, plan, i);
    hide PlanOk;
  }

  /** The bytes written at a node's first cluster. */
  function NodeBlock(u: Unicode, plan: Plan, volume: string, i: nat): (block: seq<byte>)
    requires PlanOk(u, plan) && Fits32(plan) && ValidLabel(volume) && i < |plan.order|
    ensures i < |plan.sizes| && |block| <= plan.sizes[i] * 512
  {
    hide PlanOk, Fits32, ValidLabel, Records, Packable, ValidListing, ListingOf;
    var p := plan.order[i];
    FileFits(u, plan, i);
    match plan.tree[p]
    case Dir(_) =>
      ListingReady(u, plan, volume, i);
      DirectoryBytes(ListingOf(plan, volume, p), plan.sizes[i] * 512)
    case File(_, content) => content
  }

  function Blocks(u: Unicode, plan: Plan, volume: string): (blocks: seq<seq<byte>>)
    requires PlanOk(u, plan) && Fits32(plan) && ValidLabel(volume)
    ensures |blocks| == |plan.order|
  {
    hide *;
    seq(|plan.order|, i requires 0 <= i < |plan.order| => NodeBlock(u, plan, volume, i))
  }
}
