/** Aliases for the whole tree, directory sizes and the two-pass cluster allocation
    (`_assign_short_names`, `_directory_entry_count`, `_assign_clusters`). */
module FatAlloc {
  import opened Bytes
  import opened Text
  import opened FatNames
  import opened FatTree
  import opened FatPlan
  import opened Ranges

  const CLUSTER_SIZE := 512

  // ----- aliases of every directory -----

  function Zip<K, V>(ks: seq<K>, vs: seq<V>): (m: map<K, V>)
    requires |ks| == |vs| && Distinct(ks)
    ensures m.Keys == Elements(ks)
    ensures forall i :: 0 <= i < |ks| ==> m[ks[i]] == vs[i]
  {
    if ks == [] then map[]
    else
      var n := |ks| - 1;
      Zip(ks[..n], vs[..n])[ks[n] := vs[n]]
  }

  /** `sorted_children` of every node. */
  function Kids(t: Tree): (kids: map<Path, seq<Path>>)
    ensures kids.Keys == t.Keys
    ensures forall p :: p in kids ==> kids[p] == Children(t, p)
  {
    map p | p in t :: Children(t, p)
  }

  ghost predicate KidsOk(t: Tree, kids: map<Path, seq<Path>>)
  {
    && kids.Keys == t.Keys
    && (forall p :: p in kids ==> Distinct(kids[p]))
    && (forall p, c :: p in kids ==> (c in kids[p] <==> c in t && IsChild(p, c)))
  }

  type Raws = map<Path, Option<seq<Alias>>>

  /** What the loop of `_assign_short_names` assigns in each directory. */
  function DirAliases(u: Unicode, t: Tree, kids: map<Path, seq<Path>>): (raws: Raws)
    requires forall p :: p in kids ==> forall i :: 0 <= i < |kids[p]| ==> kids[p][i] in t
    ensures raws.Keys == kids.Keys
    ensures forall p :: p in raws ==> raws[p] == AliasList(u, NamesOf(t, kids[p]))
  {
    map p | p in kids :: AliasList(u, NamesOf(t, kids[p]))
  }

  ghost predicate RawsOk(kids: map<Path, seq<Path>>, raws: Raws)
  {
    raws.Keys == kids.Keys && forall p :: p in raws && raws[p].Some? ==> |raws[p].value| == |kids[p]|
  }

  /** The aliases assigned once the directories among `order` have been handled. */
  function AliasMap(t: Tree, kids: map<Path, seq<Path>>, raws: Raws, order: seq<Path>): Option<map<Path, Alias>>
    requires KidsOk(t, kids) && RawsOk(kids, raws) && forall p :: p in order ==> p in t
  {
    if order == [] then Some(map[])
    else
      var n := |order| - 1;
      var before := AliasMap(t, kids, raws, order[..n]);
      var p := order[n];
      assert p in order;
      if before.None? || t[p].File? then before
      else if raws[p].None? then None
      else Some(before.value + Zip(kids[p], raws[p].value))
  }

  ghost predicate HoldsAll<K, V>(m: map<K, V>, ks: seq<K>, vs: seq<V>)
  {
    |ks| == |vs| && forall i :: 0 <= i < |ks| ==> ks[i] in m && m[ks[i]] == vs[i]
  }

  lemma {:induction false} HoldsAllKept<K, V>(m: map<K, V>, more: map<K, V>, ks: seq<K>, vs: seq<V>)
    requires HoldsAll(m, ks, vs) && forall k :: k in ks ==> k !in more
    ensures HoldsAll(m + more, ks, vs)
  {
    assert forall i :: 0 <= i < |ks| ==> ks[i] in ks;
  }

  ghost predicate AliasedDir(kids: map<Path, seq<Path>>, raws: Raws, alias: map<Path, Alias>, p: Path)
  {
    p in kids && p in raws && raws[p].Some? && HoldsAll(alias, kids[p], raws[p].value)
  }

  ghost predicate AliasedIn(t: Tree, kids: map<Path, seq<Path>>, raws: Raws, alias: map<Path, Alias>, order: seq<Path>)
  {
    forall p :: p in order && p in t && t[p].Dir? ==> AliasedDir(kids, raws, alias, p)
  }

  lemma {:induction false} AliasOneMore(
      t: Tree, kids: map<Path, seq<Path>>, raws: Raws, alias: map<Path, Alias>, head: seq<Path>, q: Path)
    requires KidsOk(t, kids) && RawsOk(kids, raws) && AliasedIn(t, kids, raws, alias, head)
    requires q in t && q !in head && raws[q].Some?
    ensures AliasedIn(t, kids, raws, alias + Zip(kids[q], raws[q].value), head)
    ensures AliasedDir(kids, raws, alias + Zip(kids[q], raws[q].value), q)
  {
    var more := Zip(kids[q], raws[q].value);
    forall p | p in head && p in t && t[p].Dir? ensures AliasedDir(kids, raws, alias + more, p) {
      assert AliasedDir(kids, raws, alias, p);
      forall c | c in kids[p] ensures c !in more { assert IsChild(p, c); }
      HoldsAllKept(alias, more, kids[p], raws[p].value);
    }
  }

  lemma {:induction false} AliasMapFacts(t: Tree, kids: map<Path, seq<Path>>, raws: Raws, order: seq<Path>)
    requires KidsOk(t, kids) && RawsOk(kids, raws) && (forall p :: p in order ==> p in t) && Distinct(order)
    requires AliasMap(t, kids, raws, order).Some?
    ensures AliasedIn(t, kids, raws, AliasMap(t, kids, raws, order).value, order)
  {
    if order != [] {
      var n := |order| - 1;
      var q, head := order[n], order[..n];
      assert q in order && forall p :: p in order <==> p == q || p in head;
      AliasMapFacts(t, kids, raws, head);
      if t[q].Dir? {
        AliasOneMore(t, kids, raws, AliasMap(t, kids, raws, head).value, head, q);
      }
    }
  }

  lemma {:induction false} AliasMapExists(t: Tree, kids: map<Path, seq<Path>>, raws: Raws, order: seq<Path>)
    requires KidsOk(t, kids) && RawsOk(kids, raws) && forall p :: p in order ==> p in t
    ensures AliasMap(t, kids, raws, order).Some? <==>
            forall p :: p in order && t[p].Dir? ==> raws[p].Some?
  {
    if order != [] {
      var n := |order| - 1;
      AliasMapExists(t, kids, raws, order[..n]);
      assert order[n] in order && forall p :: p in order <==> p == order[n] || p in order[..n];
    }
  }

  /** `_assign_short_names` for the root recurses into its directories in walk order. */
  method AssignAllShortNames(u: Unicode, t: Tree, kids: map<Path, seq<Path>>, order: seq<Path>)
    returns (r: Option<map<Path, Alias>>)
    requires KidsOk(t, kids) && forall p :: p in order ==> p in t
    requires forall p :: p in kids ==> forall i :: 0 <= i < |kids[p]| ==> kids[p][i] in t
    ensures r == AliasMap(t, kids, DirAliases(u, t, kids), order)
  {
    ghost var spec := DirAliases(u, t, kids);
    assert RawsOk(kids, spec);
    var alias: map<Path, Alias> := map[];
    for i := 0 to |order|
      invariant AliasMap(t, kids, spec, order[..i]) == Some(alias)
    {
      assert order[..i + 1][..i] == order[..i] && order[i] in order;
      if t[order[i]].Dir? {
        var raws := AssignShortNames(u, NamesOf(t, kids[order[i]]));
        if raws.None? {
          AliasMapExists(t, kids, spec, order);
          return None;
        }
        alias := alias + Zip(kids[order[i]], raws.value);
      }
    }
    assert order[..|order|] == order;
    return Some(alias);
  }

  // ----- sizes -----

  predicate NeedsLfn(name: string, raw: Alias) { name != DisplayName(raw) }

  function LfnEntryCount(name: string): nat
  {
    if name == "" then 0 else CeilDiv(|EncodeUtf16(name)| + 1, 13)
  }

  predicate Aliased(t: Tree, alias: map<Path, Alias>, cs: seq<Path>)
  {
    forall i :: 0 <= i < |cs| ==> cs[i] in t && cs[i] in alias
  }

  function ChildEntryCount(t: Tree, alias: map<Path, Alias>, c: Path): nat
    requires c in t && c in alias
  {
    1 + if NeedsLfn(t[c].name, alias[c]) then LfnEntryCount(t[c].name) else 0
  }

  function ChildrenEntryCount(t: Tree, alias: map<Path, Alias>, cs: seq<Path>): nat
    requires Aliased(t, alias, cs)
  {
    if cs == [] then 0
    else
      var n := |cs| - 1;
      ChildrenEntryCount(t, alias, cs[..n]) + ChildEntryCount(t, alias, cs[n])
  }

  method CountEntries(t: Tree, alias: map<Path, Alias>, cs: seq<Path>, root: bool) returns (count: nat)
    requires Aliased(t, alias, cs)
    ensures count == (if root then 1 else 2) + ChildrenEntryCount(t, alias, cs)
  {
    count := if root then 1 else 2;
    for i := 0 to |cs|
      invariant count == (if root then 1 else 2) + ChildrenEntryCount(t, alias, cs[..i])
    {
      assert cs[..i + 1][..i] == cs[..i];
      count := count + 1;
      if NeedsLfn(t[cs[i]].name, alias[cs[i]]) {
        count := count + LfnEntryCount(t[cs[i]].name);
      }
    }
    assert cs[..|cs|] == cs;
  }

  predicate AllAliased(t: Tree, alias: map<Path, Alias>) { forall p :: p in t && p != [] ==> p in alias }

  lemma {:induction false} KidsAliased(t: Tree, kids: map<Path, seq<Path>>, alias: map<Path, Alias>, p: Path)
    requires KidsOk(t, kids) && AllAliased(t, alias) && p in t
    ensures Aliased(t, alias, kids[p])
  {
    assert forall i :: 0 <= i < |kids[p]| ==> kids[p][i] in kids[p];
  }

  function DirectoryEntryCount(t: Tree, kids: map<Path, seq<Path>>, alias: map<Path, Alias>, p: Path): nat
    requires KidsOk(t, kids) && p in t && AllAliased(t, alias)
  {
    KidsAliased(t, kids, alias, p);
    (if p == [] then 1 else 2) + ChildrenEntryCount(t, alias, kids[p])
  }

  function ClusterCount(t: Tree, kids: map<Path, seq<Path>>, alias: map<Path, Alias>, p: Path): nat
    requires KidsOk(t, kids) && p in t && AllAliased(t, alias)
  {
    match t[p]
    case Dir(_) => Max(1, CeilDiv(DirectoryEntryCount(t, kids, alias, p) * 32, CLUSTER_SIZE))
    case File(_, content) => if content == [] then 0 else CeilDiv(|content|, CLUSTER_SIZE)
  }

  // ----- _assign_clusters -----

  function Counts(t: Tree, kids: map<Path, seq<Path>>, alias: map<Path, Alias>): (m: map<Path, nat>)
    requires KidsOk(t, kids) && AllAliased(t, alias)
    ensures m.Keys == t.Keys
    ensures forall p :: p in m ==> m[p] == ClusterCount(t, kids, alias, p)
  {
    map p | p in t :: ClusterCount(t, kids, alias, p)
  }

  method MeasureNode(t: Tree, kids: map<Path, seq<Path>>, alias: map<Path, Alias>, p: Path) returns (clusters: nat)
    requires KidsOk(t, kids) && AllAliased(t, alias) && p in t
    ensures clusters == ClusterCount(t, kids, alias, p)
  {
    if t[p].Dir? {
      KidsAliased(t, kids, alias, p);
      var entries := CountEntries(t, alias, kids[p], p == []);
      clusters := Max(1, CeilDiv(entries * 32, CLUSTER_SIZE));
    } else {
      var size := |t[p].content|;
      clusters := if size != 0 then CeilDiv(size, CLUSTER_SIZE) else 0;
    }
  }

  method MeasureNodes(
      t: Tree, kids: map<Path, seq<Path>>, alias: map<Path, Alias>, order: seq<Path>)
    returns (count: map<Path, nat>)
    requires KidsOk(t, kids) && AllAliased(t, alias) && forall p :: p in order <==> p in t
    ensures count == Counts(t, kids, alias)
  {
    hide ClusterCount, KidsOk, AllAliased;
    count := map[];
    for i := 0 to |order|
      invariant count.Keys == Elements(order[..i])
      invariant forall p :: p in count ==> p in t && count[p] == ClusterCount(t, kids, alias, p)
    {
      var p := order[i];
      assert p in order;
      var clusters := MeasureNode(t, kids, alias, p);
      count := count[p := clusters];
      assert order[..i + 1] == order[..i] + [p];
    }
    assert order[..|order|] == order;
  }

  function Sizes(order: seq<Path>, count: map<Path, nat>): (s: seq<nat>)
    requires forall i :: 0 <= i < |order| ==> order[i] in count
    ensures |s| == |order| && forall i :: 0 <= i < |order| ==> s[i] == count[order[i]]
  {
    seq(|order|, i requires 0 <= i < |order| => count[order[i]])
  }

  function FirstAt(sizes: seq<nat>, i: nat): nat
    requires i < |sizes|
  {
    if sizes[i] == 0 then 0 else Start(sizes, i)
  }

  function Firsts(order: seq<Path>, sizes: seq<nat>): (m: map<Path, nat>)
    requires Distinct(order) && |sizes| == |order|
    ensures m.Keys == Elements(order)
    ensures forall i :: 0 <= i < |order| ==> m[order[i]] == FirstAt(sizes, i)
  {
    Zip(order, seq(|order|, i requires 0 <= i < |order| => FirstAt(sizes, i)))
  }

  /** The prefix of `Firsts` that the numbering loop has filled in. */
  ghost predicate NumberedTo(order: seq<Path>, sizes: seq<nat>, first: map<Path, nat>, n: nat)
    requires n <= |order| == |sizes|
  {
    && (forall p :: p in first ==> p in order[..n])
    && (forall j :: 0 <= j < n ==> order[j] in first && first[order[j]] == FirstAt(sizes, j))
  }

  lemma {:induction false} NumberOne(order: seq<Path>, sizes: seq<nat>, first: map<Path, nat>, n: nat)
    requires n < |order| == |sizes| && Distinct(order) && NumberedTo(order, sizes, first, n)
    ensures NumberedTo(order, sizes, first[order[n] := FirstAt(sizes, n)], n + 1)
  {
    assert order[..n + 1] == order[..n] + [order[n]];
  }

  lemma {:induction false} NumberedAll(order: seq<Path>, sizes: seq<nat>, first: map<Path, nat>)
    requires |order| == |sizes| && Distinct(order) && NumberedTo(order, sizes, first, |order|)
    ensures first == Firsts(order, sizes)
  {
    assert order[..|order|] == order;
    forall p | p in first ensures first[p] == Firsts(order, sizes)[p] {
      var i :| 0 <= i < |order| && order[i] == p;
    }
  }

  method NumberNodes(order: seq<Path>, sizes: seq<nat>) returns (first: map<Path, nat>, next: nat)
    requires Distinct(order) && |sizes| == |order|
    ensures first == Firsts(order, sizes) && next == Start(sizes, |sizes|)
  {
    first := map[];
    next := 2;
    assert NumberedTo(order, sizes, first, 0);
    hide Firsts, NumberedTo;
    for i := 0 to |order|
      invariant next == Start(sizes, i)
      invariant NumberedTo(order, sizes, first, i)
    {
      NumberOne(order, sizes, first, i);
      first := first[order[i] := if sizes[i] != 0 then next else 0];
      next := next + sizes[i];
    }
    NumberedAll(order, sizes, first);
  }

  method NumberClusters(order: seq<Path>, count: map<Path, nat>, available: int)
    returns (r: Option<(map<Path, nat>, nat)>)
    requires Distinct(order) && forall i :: 0 <= i < |order| ==> order[i] in count
    ensures var sizes := Sizes(order, count);
            r == if Start(sizes, |sizes|) - 2 > available then None
                 else Some((Firsts(order, sizes), Start(sizes, |sizes|)))
  {
    var first, next := NumberNodes(order, Sizes(order, count));
    if next - 2 > available { return None; }
    return Some((first, next));
  }
}
