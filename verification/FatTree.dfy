/** The insertion loop of `_build_tree`.  A `Node` is identified by the case-folded
    keys that lead to it from the root, so the `children` dictionaries together are one
    map from paths to nodes; `current.children.get(key)` is a lookup of `current + [key]`. */
module FatTree {
  import opened Bytes

  datatype Node = Dir(name: string) | File(name: string, content: seq<byte>)
  type Path = seq<string>
  type Tree = map<Path, Node>

  /** One manifest entry after splitting: its components, their folded keys and the source bytes. */
  datatype Item = Item(parts: seq<string>, key: Path, content: seq<byte>)

  ghost predicate WellKeyed(x: Item) { |x.key| == |x.parts| >= 1 }

  const EMPTY_TREE: Tree := map[[] := Dir("")]

  predicate Prefix(p: Path, q: Path) { |p| <= |q| && q[..|p|] == p }

  // ----- inserting one item -----

  predicate OnWay(x: Item, j: nat, p: Path) { 1 <= |p| <= j && Prefix(p, x.key) }

  function Prefixes(key: Path, j: nat): (s: set<Path>)
    requires j <= |key|
    ensures forall p :: p in s <==> 1 <= |p| <= j && Prefix(p, key)
  {
    set i | 1 <= i <= j :: key[..i]
  }

  /** The tree once the directory loop has handled the first `j` components. */
  function AddDirs(t: Tree, x: Item, j: nat): (r: Tree)
    requires |x.key| == |x.parts| && j <= |x.key|
    ensures forall p :: p in r <==> p in t || OnWay(x, j, p)
    ensures forall p :: p in t ==> r[p] == t[p]
    ensures forall p :: OnWay(x, j, p) && p !in t ==> r[p] == Dir(x.parts[|p| - 1])
  {
    map p | p in t.Keys + Prefixes(x.key, j) :: if p in t then t[p] else Dir(x.parts[|p| - 1])
  }

  predicate Blocked(t: Tree, x: Item, j: nat)
  {
    exists p :: p in t && OnWay(x, j, p) && t[p].File?
  }

  function InsertItem(t: Tree, x: Item): Option<Tree>
    requires |x.key| == |x.parts| >= 1
  {
    var n := |x.parts| - 1;
    if Blocked(t, x, n) || x.key in t then None
    else Some(AddDirs(t, x, n)[x.key := File(x.parts[n], x.content)])
  }

  function BuildItems(items: seq<Item>): Option<Tree>
    requires forall i :: 0 <= i < |items| ==> |items[i].key| == |items[i].parts| >= 1
  {
    if items == [] then Some(EMPTY_TREE)
    else
      var n := |items| - 1;
      var before := BuildItems(items[..n]);
      if before.None? then None else InsertItem(before.value, items[n])
  }

  lemma {:induction false} AddNoDirs(t: Tree, x: Item)
    requires |x.key| == |x.parts|
    ensures AddDirs(t, x, 0) == t && !Blocked(t, x, 0)
  {
  }

  lemma {:induction false} NextPrefix<T>(s: seq<T>, j: nat)
    requires j < |s|
    ensures s[..j] + [s[j]] == s[..j + 1]
  {
  }

  /** One round of `for part in parts[:-1]`. */
  lemma {:induction false} AddOneDir(t: Tree, x: Item, j: nat)
    requires |x.key| == |x.parts| && j < |x.key|
    ensures var child := x.key[..j + 1]; var before := AddDirs(t, x, j);
            && AddDirs(t, x, j + 1) == (if child in before then before else before[child := Dir(x.parts[j])])
            && (Blocked(t, x, j + 1) <==> Blocked(t, x, j) || (child in before && before[child].File?))
  {
    var child := x.key[..j + 1];
    assert Prefix(child, x.key) && !OnWay(x, j, child);
    forall p ensures OnWay(x, j + 1, p) <==> OnWay(x, j, p) || p == child {
      if OnWay(x, j + 1, p) && |p| == j + 1 { assert p == x.key[..j + 1]; }
    }
  }

  lemma {:induction false} BlockedGrows(t: Tree, x: Item, i: nat, j: nat)
    requires i <= j && Blocked(t, x, i)
    ensures Blocked(t, x, j)
  {
    var p :| p in t && OnWay(x, i, p) && t[p].File?;
    assert OnWay(x, j, p);
  }

  /** `for part in parts[:-1]`: find or create each directory on the way. */
  method AddParents(t: Tree, x: Item) returns (r: Option<Tree>)
    requires |x.key| == |x.parts| >= 1
    ensures r == if Blocked(t, x, |x.parts| - 1) then None else Some(AddDirs(t, x, |x.parts| - 1))
  {
    var tree := t;
    var current: Path := [];
    AddNoDirs(t, x);
    for j := 0 to |x.parts| - 1
      invariant current == x.key[..j]
      invariant tree == AddDirs(t, x, j)
      invariant !Blocked(t, x, j)
    {
      AddOneDir(t, x, j);
      NextPrefix(x.key, j);
      current := current + [x.key[j]];
      if current !in tree {
        tree := tree[current := Dir(x.parts[j])];
      } else if tree[current].File? {
        BlockedGrows(t, x, j + 1, |x.parts| - 1);
        return None;
      }
    }
    return Some(tree);
  }

  /** The body of the `for entry in entries` loop. */
  method Insert(t: Tree, x: Item) returns (r: Option<Tree>)
    requires |x.key| == |x.parts| >= 1
    ensures r == InsertItem(t, x)
  {
    var parents := AddParents(t, x);
    assert !OnWay(x, |x.parts| - 1, x.key);
    if parents.None? || x.key in parents.value { return None; }
    return Some(parents.value[x.key := File(x.parts[|x.parts| - 1], x.content)]);
  }

  // ----- what is accepted, and what the tree holds -----

  ghost predicate AllKeyed(items: seq<Item>) { forall i :: 0 <= i < |items| ==> WellKeyed(items[i]) }

  /** Folded paths are pairwise distinct and none is a proper prefix of another. */
  ghost predicate PrefixFree(items: seq<Item>)
  {
    forall i, j :: 0 <= i < |items| && 0 <= j < |items| && i != j ==> !Prefix(items[i].key, items[j].key)
  }

  ghost predicate Used(items: seq<Item>, p: Path)
  {
    exists i :: 0 <= i < |items| && Prefix(p, items[i].key)
  }

  /** Item `i` is the first whose path runs through the directory `p`. */
  ghost predicate Spells(items: seq<Item>, p: Path, i: int)
  {
    && 0 <= i < |items| && 1 <= |p| < |items[i].key| && Prefix(p, items[i].key)
    && forall j :: 0 <= j < i ==> !Prefix(p, items[j].key)
  }

  ghost predicate OnlyUsed(items: seq<Item>, t: Tree)
  {
    forall p :: p in t && p != [] ==> Used(items, p)
  }

  ghost predicate HoldsFile(t: Tree, x: Item)
  {
    x.key in t && x.parts != [] && t[x.key] == File(x.parts[|x.parts| - 1], x.content)
  }

  ghost predicate HoldsFiles(items: seq<Item>, t: Tree)
  {
    forall i :: 0 <= i < |items| ==> HoldsFile(t, items[i])
  }

  ghost predicate HoldsDir(t: Tree, x: Item, p: Path)
  {
    p in t && 1 <= |p| <= |x.parts| && t[p] == Dir(x.parts[|p| - 1])
  }

  ghost predicate HoldsDirs(items: seq<Item>, t: Tree)
  {
    forall p, i :: Spells(items, p, i) ==> HoldsDir(t, items[i], p)
  }

  ghost predicate IsTreeOf(items: seq<Item>, t: Tree)
  {
    [] in t && t[[]] == Dir("") && OnlyUsed(items, t) && HoldsFiles(items, t) && HoldsDirs(items, t)
  }

  lemma {:induction false} FirstUse(items: seq<Item>, p: Path) returns (i: nat)
    requires Used(items, p)
    ensures i < |items| && Prefix(p, items[i].key)
    ensures forall j :: 0 <= j < i ==> !Prefix(p, items[j].key)
  {
    i := 0;
    while !Prefix(p, items[i].key)
      invariant i < |items|
      invariant forall j :: 0 <= j < i ==> !Prefix(p, items[j].key)
      decreases |items| - i
    {
      i := i + 1;
    }
  }

  /** Every node on the way to an item is in its tree. */
  lemma {:induction false} UsedIsStored(items: seq<Item>, t: Tree, p: Path)
    requires IsTreeOf(items, t) && Used(items, p)
    ensures p in t
  {
    if p != [] {
      var i := FirstUse(items, p);
      if |p| < |items[i].key| {
        assert Spells(items, p, i);
      } else {
        assert p == items[i].key;
      }
    }
  }

  lemma {:induction false} NodeOrigin(items: seq<Item>, t: Tree, p: Path) returns (i: nat)
    requires IsTreeOf(items, t) && p in t && p != []
    ensures i < |items| && Prefix(p, items[i].key)
    ensures t[p].File? ==> p == items[i].key
    ensures t[p].Dir? ==> Spells(items, p, i)
  {
    i := FirstUse(items, p);
    if |p| < |items[i].key| {
      assert Spells(items, p, i);
    } else {
      assert p == items[i].key;
    }
  }

  lemma {:induction false} PrefixTransitive(p: Path, q: Path, r: Path)
    requires Prefix(p, q) && Prefix(q, r)
    ensures Prefix(p, r)
  {
    assert r[..|q|][..|p|] == r[..|p|];
  }

  /** An insertion fails exactly when a stored key is a prefix of the new one or the reverse. */
  lemma {:induction false} InsertRejectsConflicts(items: seq<Item>, t: Tree, x: Item)
    requires IsTreeOf(items, t) && WellKeyed(x) && AllKeyed(items)
    ensures InsertItem(t, x).Some? <==>
            forall i :: 0 <= i < |items| ==> !Prefix(items[i].key, x.key) && !Prefix(x.key, items[i].key)
  {
    var n := |x.parts| - 1;
    forall i | 0 <= i < |items|
      ensures Prefix(x.key, items[i].key) ==> x.key in t
      ensures Prefix(items[i].key, x.key) ==> x.key in t || Blocked(t, x, n)
    {
      var k := items[i].key;
      assert HoldsFile(t, items[i]);
      if Prefix(x.key, k) {
        assert Used(items, x.key);
        UsedIsStored(items, t, x.key);
      } else if Prefix(k, x.key) {
        assert |k| < |x.key|;
        assert OnWay(x, n, k);
      }
    }
    if Blocked(t, x, n) {
      var p :| p in t && OnWay(x, n, p) && t[p].File?;
      var i := NodeOrigin(items, t, p);
    } else if x.key in t {
      var i := NodeOrigin(items, t, x.key);
    }
  }

  lemma {:induction false} InsertedKeys(items: seq<Item>, t: Tree, x: Item)
    requires IsTreeOf(items, t) && WellKeyed(x) && InsertItem(t, x).Some?
    ensures OnlyUsed(items + [x], InsertItem(t, x).value)
  {
    var all, r, n := items + [x], InsertItem(t, x).value, |items|;
    forall p | p in r && p != [] ensures Used(all, p) {
      if p in t {
        var i := NodeOrigin(items, t, p);
        assert Prefix(p, all[i].key);
      } else {
        assert OnWay(x, |x.parts| - 1, p) || p == x.key;
        assert Prefix(p, all[n].key);
      }
    }
  }

  lemma {:induction false} InsertedDir(items: seq<Item>, t: Tree, x: Item, p: Path, i: int)
    requires IsTreeOf(items, t) && WellKeyed(x) && InsertItem(t, x).Some?
    requires Spells(items + [x], p, i)
    ensures HoldsDir(InsertItem(t, x).value, (items + [x])[i], p)
  {
    var all, n := items + [x], |items|;
    if i < n {
      assert all[i] == items[i];
      OldSpelling(items, t, x, p, i);
      hide IsTreeOf, Spells;
    } else {
      assert all[i] == x;
      FirstOnWay(items, t, x, p);
      hide IsTreeOf;
    }
  }

  lemma {:induction false} OldSpelling(items: seq<Item>, t: Tree, x: Item, p: Path, i: nat)
    requires IsTreeOf(items, t) && i < |items| && Spells(items + [x], p, i)
    ensures HoldsDir(t, items[i], p)
  {
    var all := items + [x];
    assert all[i] == items[i] && forall j :: 0 <= j < i ==> all[j] == items[j];
    assert Spells(items, p, i);
  }

  /** A directory first spelled by the new entry was not there before. */
  lemma {:induction false} FirstOnWay(items: seq<Item>, t: Tree, x: Item, p: Path)
    requires IsTreeOf(items, t) && WellKeyed(x) && Spells(items + [x], p, |items|)
    ensures OnWay(x, |x.parts| - 1, p) && p !in t
  {
    var all, n := items + [x], |items|;
    assert !Used(items, p) by {
      forall j | 0 <= j < n ensures !Prefix(p, items[j].key) { assert all[j] == items[j]; }
    }
  }

  lemma {:induction false} InsertedTree(items: seq<Item>, t: Tree, x: Item)
    requires IsTreeOf(items, t) && WellKeyed(x) && InsertItem(t, x).Some?
    ensures IsTreeOf(items + [x], InsertItem(t, x).value)
  {
    var all, r, n := items + [x], InsertItem(t, x).value, |items|;
    InsertedKeys(items, t, x);
    forall i | 0 <= i <= n ensures HoldsFile(r, all[i]) {
      if i < n { assert all[i] == items[i] && HoldsFile(t, items[i]) && items[i].key != x.key; }
    }
    forall p, i | Spells(all, p, i) ensures HoldsDir(r, all[i], p) { InsertedDir(items, t, x, p, i); }
  }

  lemma {:induction false} PrefixFreeExtends(items: seq<Item>, x: Item)
    ensures PrefixFree(items + [x]) <==>
            && PrefixFree(items)
            && forall i :: 0 <= i < |items| ==> !Prefix(items[i].key, x.key) && !Prefix(x.key, items[i].key)
  {
    var all, n := items + [x], |items|;
    assert all[n] == x && forall i :: 0 <= i < n ==> all[i] == items[i];
    if PrefixFree(all) {
      forall i, j | 0 <= i < n && 0 <= j < n && i != j ensures !Prefix(items[i].key, items[j].key) {
        assert !Prefix(all[i].key, all[j].key);
      }
      forall i | 0 <= i < n ensures !Prefix(items[i].key, x.key) && !Prefix(x.key, items[i].key) {
        assert !Prefix(all[i].key, all[n].key) && !Prefix(all[n].key, all[i].key);
      }
    }
  }

  /** `_build_tree` accepts exactly the prefix-free lists, and builds the tree they name. */
  lemma {:induction false} BuildCharacterized(items: seq<Item>)
    requires AllKeyed(items)
    ensures BuildItems(items).Some? <==> PrefixFree(items)
    ensures BuildItems(items).Some? ==> IsTreeOf(items, BuildItems(items).value)
  {
    if items != [] {
      var n := |items| - 1;
      var before, x := items[..n], items[n];
      assert items == before + [x];
      assert WellKeyed(x) && forall i :: 0 <= i < n ==> before[i] == items[i];
      BuildCharacterized(before);
      PrefixFreeExtends(before, x);
      if BuildItems(before).Some? {
        var t := BuildItems(before).value;
        InsertRejectsConflicts(before, t, x);
        if InsertItem(t, x).Some? { InsertedTree(before, t, x); }
      }
    }
  }

  lemma {:induction false} ProperPrefixIsDir(items: seq<Item>, t: Tree, q: Path, i: nat)
    requires IsTreeOf(items, t) && PrefixFree(items) && q in t && q != []
    requires i < |items| && Prefix(q, items[i].key) && |q| < |items[i].key|
    ensures t[q].Dir?
  {
    var k := NodeOrigin(items, t, q);
    assert k == i || !Prefix(items[k].key, items[i].key);
  }

  /** Parents are stored directories, and every node is spelt by some item. */
  lemma {:induction false} NodeShape(items: seq<Item>, t: Tree, p: Path) returns (i: nat)
    requires AllKeyed(items) && IsTreeOf(items, t) && PrefixFree(items) && p in t && p != []
    ensures p[..|p| - 1] in t && t[p[..|p| - 1]].Dir?
    ensures i < |items| && Prefix(p, items[i].key) && t[p].name == items[i].parts[|p| - 1]
  {
    i := NodeOrigin(items, t, p);
    assert WellKeyed(items[i]);
    if t[p].File? { assert HoldsFile(t, items[i]); } else { assert HoldsDir(t, items[i], p); }
    var q, x := p[..|p| - 1], items[i];
    assert Prefix(q, p);
    PrefixTransitive(q, p, x.key);
    UsedIsStored(items, t, q);
    if q != [] { ProperPrefixIsDir(items, t, q, i); }
  }

  // ----- the order of the items does not matter -----

  /** Items that share a directory spell it alike. */
  ghost predicate SpellingsAgree(items: seq<Item>)
  {
    forall x, y, p | x in items && y in items && DirOf(x, p) && DirOf(y, p) ::
      x.parts[|p| - 1] == y.parts[|p| - 1]
  }

  ghost predicate DirOf(x: Item, p: Path)
  {
    1 <= |p| < |x.key| && |p| <= |x.parts| && Prefix(p, x.key)
  }

  ghost predicate Distinct<T>(s: seq<T>) { forall i, j :: 0 <= i < j < |s| ==> s[i] != s[j] }

  lemma {:induction false} DistinctMultiset<T>(s: seq<T>)
    ensures Distinct(s) <==> forall x :: multiset(s)[x] <= 1
  {
    if s != [] {
      var m := |s| - 1;
      var before := s[..m];
      assert s == before + [s[m]];
      DistinctMultiset(before);
      assert forall i :: 0 <= i < m ==> before[i] == s[i];
      if Distinct(s) {
        forall x ensures multiset(s)[x] <= 1 { assert s[m] !in before; }
      } else if Distinct(before) {
        assert s[m] in before;
        assert multiset(s)[s[m]] >= 2;
      } else {
        var x :| multiset(before)[x] > 1;
        assert multiset(s)[x] > 1;
      }
    }
  }

  /** `PrefixFree`, said about elements instead of positions. */
  lemma {:induction false} PrefixFreeElements(items: seq<Item>)
    ensures PrefixFree(items) <==>
            && Distinct(items)
            && forall x, y :: x in items && y in items && x != y ==> !Prefix(x.key, y.key)
  {
    if PrefixFree(items) {
      forall i, j | 0 <= i < j < |items| ensures items[i] != items[j] {
        assert !Prefix(items[i].key, items[j].key);
      }
    }
  }

  lemma {:induction false} PermutedPrefixFree(a: seq<Item>, b: seq<Item>)
    requires multiset(a) == multiset(b)
    ensures PrefixFree(a) <==> PrefixFree(b)
  {
    PrefixFreeElements(a);
    PrefixFreeElements(b);
    DistinctMultiset(a);
    DistinctMultiset(b);
    assert forall x :: x in a <==> x in multiset(a);
    assert forall x :: x in b <==> x in multiset(b);
  }

  ghost predicate SameElements(a: seq<Item>, b: seq<Item>) { forall x :: x in a <==> x in b }

  lemma {:induction false} SameNode(a: seq<Item>, b: seq<Item>, s: Tree, t: Tree, p: Path)
    requires AllKeyed(a) && AllKeyed(b) && SameElements(a, b) && SpellingsAgree(a) && PrefixFree(b)
    requires IsTreeOf(a, s) && IsTreeOf(b, t) && p in s
    ensures p in t && t[p] == s[p]
  {
    if p != [] {
      var i := NodeOrigin(a, s, p);
      assert a[i] in b;
      var k :| 0 <= k < |b| && b[k] == a[i];
      assert Used(b, p);
      UsedIsStored(b, t, p);
      if s[p].File? {
        assert HoldsFile(s, a[i]) && HoldsFile(t, b[k]);
      } else {
        ProperPrefixIsDir(b, t, p, k);
        var j := NodeOrigin(b, t, p);
        SameSpelling(a, b, s, t, p, i, j);
      }
    }
  }

  lemma {:induction false} SameSpelling(a: seq<Item>, b: seq<Item>, s: Tree, t: Tree, p: Path, i: int, j: int)
    requires AllKeyed(a) && AllKeyed(b) && SameElements(a, b) && SpellingsAgree(a)
    requires IsTreeOf(a, s) && IsTreeOf(b, t) && Spells(a, p, i) && Spells(b, p, j)
    ensures p in s && p in t && s[p] == t[p]
  {
    var x, y := a[i], b[j];
    assert HoldsDir(s, x, p) && HoldsDir(t, y, p);
    assert x in a && y in b && DirOf(x, p) && DirOf(y, p);
  }

  lemma {:induction false} SameMembers(a: seq<Item>, b: seq<Item>)
    requires multiset(a) == multiset(b)
    ensures SameElements(a, b)
  {
    assert forall x :: x in a <==> x in multiset(a);
    assert forall x :: x in b <==> x in multiset(b);
  }

  lemma {:induction false} SameTree(a: seq<Item>, b: seq<Item>, s: Tree, t: Tree)
    requires AllKeyed(a) && AllKeyed(b) && SameElements(a, b) && SpellingsAgree(a)
    requires PrefixFree(a) && PrefixFree(b) && IsTreeOf(a, s) && IsTreeOf(b, t)
    ensures s == t
  {
    assert SpellingsAgree(b);
    forall p | p in s ensures p in t && t[p] == s[p] { SameNode(a, b, s, t, p); }
    forall p | p in t ensures p in s { SameNode(b, a, t, s, p); }
  }

  /** Acceptance never depends on the order of the entries; with agreeing spellings neither
      does the tree, hence neither does anything computed from it. */
  lemma {:induction false} BuildIsOrderFree(a: seq<Item>, b: seq<Item>)
    requires AllKeyed(a) && AllKeyed(b) && multiset(a) == multiset(b)
    ensures BuildItems(a).Some? <==> BuildItems(b).Some?
    ensures SpellingsAgree(a) ==> BuildItems(a) == BuildItems(b)
  {
    BuildCharacterized(a);
    BuildCharacterized(b);
    PermutedPrefixFree(a, b);
    if SpellingsAgree(a) && PrefixFree(a) {
      SameMembers(a, b);
      SameTree(a, b, BuildItems(a).value, BuildItems(b).value);
    }
  }
}
