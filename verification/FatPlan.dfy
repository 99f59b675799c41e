/** `sorted_children` and `_walk_preorder` on the built tree. */
module FatPlan {
  import opened Text
  import opened FatNames
  import opened FatTree
  import opened FatEntries

  // ----- sorted_children -----

  predicate IsChild(p: Path, c: Path) { |c| == |p| + 1 && c[..|p|] == p }

  function ChildKeys(t: Tree, p: Path): set<string>
  {
    set c | c in t && IsChild(p, c) :: c[|p|]
  }

  /** The children of `p`.  Siblings have distinct folded names, so sorting by
      `(name.casefold(), name)` is sorting by key. */
  function Children(t: Tree, p: Path): (cs: seq<Path>)
    ensures forall c :: c in cs <==> c in t && IsChild(p, c)
    ensures Distinct(cs)
  {
    var keys := SortedKeys(ChildKeys(t, p));
    var cs := seq(|keys|, i requires 0 <= i < |keys| => p + [keys[i]]);
    forall c ensures c in cs <==> c in t && IsChild(p, c) { KeyedChildren(t, p, keys, cs, c); }
    KeyedDistinct(p, keys, cs);
    cs
  }

  ghost predicate Keyed(p: Path, keys: seq<string>, cs: seq<Path>)
  {
    |cs| == |keys| && forall i :: 0 <= i < |keys| ==> cs[i] == p + [keys[i]]
  }

  lemma {:induction false} KeyedChildren(t: Tree, p: Path, keys: seq<string>, cs: seq<Path>, c: Path)
    requires Keyed(p, keys, cs) && forall k :: k in keys <==> k in ChildKeys(t, p)
    ensures c in cs <==> c in t && IsChild(p, c)
  {
    if c in t && IsChild(p, c) {
      assert c[|p|] in keys;
      assert c == p + [c[|p|]];
    }
    if c in cs {
      var i :| 0 <= i < |cs| && cs[i] == c;
      assert keys[i] in keys;
      var d :| d in t && IsChild(p, d) && d[|p|] == keys[i];
      assert d == p + [d[|p|]];
    }
  }

  lemma {:induction false} KeyedDistinct(p: Path, keys: seq<string>, cs: seq<Path>)
    requires Keyed(p, keys, cs) && StrictlySorted(keys)
    ensures Distinct(cs)
  {
    forall i, j | 0 <= i < j < |cs| ensures cs[i] != cs[j] {
      assert cs[i][|p|] == keys[i] && cs[j][|p|] == keys[j];
    }
  }

  function NamesOf(t: Tree, cs: seq<Path>): seq<string>
    requires forall i :: 0 <= i < |cs| ==> cs[i] in t
  {
    seq(|cs|, i requires 0 <= i < |cs| => t[cs[i]].name)
  }

  // ----- _walk_preorder -----

  function Below(t: Tree, p: Path): set<Path>
  {
    set q | q in t && |p| < |q| && q[..|p|] == p
  }

  lemma {:induction false} BelowShrinks(t: Tree, p: Path, c: Path)
    requires c in t && IsChild(p, c)
    ensures Below(t, c) < Below(t, p)
  {
    assert c in Below(t, p) && c !in Below(t, c);
    forall q | q in Below(t, c) ensures q in Below(t, p) {
      assert q[..|c|][..|p|] == q[..|p|];
    }
  }

  function Walk(t: Tree, p: Path): seq<Path>
    decreases Below(t, p), 1, 0
  {
    [p] + WalkDirs(t, p, Children(t, p)) + Files(t, Children(t, p))
  }

  function WalkDirs(t: Tree, p: Path, cs: seq<Path>): seq<Path>
    requires forall c :: c in cs ==> c in t && IsChild(p, c)
    decreases Below(t, p), 0, |cs|
  {
    if cs == [] then []
    else
      assert cs[0] in cs;
      BelowShrinks(t, p, cs[0]);
      (if t[cs[0]].Dir? then Walk(t, cs[0]) else []) + WalkDirs(t, p, cs[1..])
  }

  function Files(t: Tree, cs: seq<Path>): (fs: seq<Path>)
    requires forall c :: c in cs ==> c in t
    ensures forall c :: c in fs <==> c in cs && t[c].File?
  {
    if cs == [] then []
    else
      assert cs[0] in cs;
      (if t[cs[0]].File? then [cs[0]] else []) + Files(t, cs[1..])
  }

  // ----- the walk meets every node exactly once -----

  ghost predicate From(t: Tree, p: Path, q: Path) { q in t && |p| <= |q| && q[..|p|] == p }

  lemma {:induction false} DistinctAppend<T>(a: seq<T>, b: seq<T>)
    requires Distinct(a) && Distinct(b) && forall x :: x in a ==> x !in b
    ensures Distinct(a + b)
  {
    forall i, j | 0 <= i < j < |a + b| ensures (a + b)[i] != (a + b)[j] {
      if i < |a| && |a| <= j { assert a[i] in a && b[j - |a|] in b; }
    }
  }

  lemma {:induction false} FilesDistinct(t: Tree, cs: seq<Path>)
    requires Distinct(cs) && forall c :: c in cs ==> c in t
    ensures Distinct(Files(t, cs))
  {
    if cs != [] {
      assert cs[0] in cs;
      FilesDistinct(t, cs[1..]);
      assert cs[0] !in cs[1..];
    }
  }

  lemma {:induction false} ChildOnWay(u: Unicode, t: Tree, p: Path, q: Path) returns (c: Path)
    requires TreeShape(u, t) && From(t, p, q) && q != p
    ensures c in t && IsChild(p, c) && From(t, c, q)
    ensures c != q ==> t[c].Dir?
  {
    c := q[..|p| + 1];
    AncestorsStored(u, t, q, |p| + 1);
    assert c[..|p|] == q[..|p|];
  }

  ghost predicate UnderSome(t: Tree, cs: seq<Path>, q: Path)
  {
    exists c :: c in cs && c in t && t[c].Dir? && From(t, c, q)
  }

  /** Below `p` lie the file children and what is below the directory children. */
  lemma {:induction false} BelowSplits(u: Unicode, t: Tree, p: Path, q: Path)
    requires TreeShape(u, t) && p in t
    ensures From(t, p, q) <==> q == p || UnderSome(t, Children(t, p), q) || q in Files(t, Children(t, p))
    ensures UnderSome(t, Children(t, p), q) ==> q !in Files(t, Children(t, p)) && q != p
  {
    var cs := Children(t, p);
    if From(t, p, q) && q != p {
      var c := ChildOnWay(u, t, p, q);
      assert c in cs;
      assert t[c].Dir? ==> UnderSome(t, cs, q);
    }
    if UnderSome(t, cs, q) {
      var c :| c in cs && t[c].Dir? && From(t, c, q);
      assert q[..|c|][..|p|] == q[..|p|];
      assert |q| == |c| ==> q == c;
    }
  }

  lemma {:induction false} WalkCovers(u: Unicode, t: Tree, p: Path)
    requires TreeShape(u, t) && p in t
    ensures forall q :: q in Walk(t, p) <==> From(t, p, q)
    ensures Distinct(Walk(t, p))
    decreases Below(t, p), 1, 0
  {
    var cs := Children(t, p);
    var ds, fs := WalkDirs(t, p, cs), Files(t, cs);
    WalkDirsCovers(u, t, p, cs);
    FilesDistinct(t, cs);
    forall q
      ensures From(t, p, q) <==> q == p || q in ds || q in fs
      ensures q in ds ==> q !in fs && q != p
    {
      BelowSplits(u, t, p, q);
    }
    WalkJoins(p, ds, fs);
  }

  lemma {:induction false} WalkJoins(p: Path, ds: seq<Path>, fs: seq<Path>)
    requires Distinct(ds) && Distinct(fs) && p !in fs
    requires forall q :: q in ds ==> q !in fs && q != p
    ensures Distinct([p] + ds + fs)
    ensures forall q :: q in [p] + ds + fs <==> q == p || q in ds || q in fs
  {
    DistinctAppend([p], ds);
    DistinctAppend([p] + ds, fs);
  }

  lemma {:induction false} WalkDirsCovers(u: Unicode, t: Tree, p: Path, cs: seq<Path>)
    requires TreeShape(u, t) && Distinct(cs) && forall c :: c in cs ==> c in t && IsChild(p, c)
    ensures forall q :: q in WalkDirs(t, p, cs) <==> UnderSome(t, cs, q)
    ensures Distinct(WalkDirs(t, p, cs))
    decreases Below(t, p), 0, |cs|
  {
    if cs != [] {
      var c, rest := cs[0], cs[1..];
      assert c in cs && c !in rest;
      BelowShrinks(t, p, c);
      WalkDirsCovers(u, t, p, rest);
      var a, b := if t[c].Dir? then Walk(t, c) else [], WalkDirs(t, p, rest);
      if t[c].Dir? { WalkCovers(u, t, c); }
      forall q | q in b ensures !From(t, c, q) {
        var d :| d in rest && t[d].Dir? && From(t, d, q);
        assert d in cs && |d| == |c| && d != c;
      }
      DistinctAppend(a, b);
      assert forall d :: d in cs <==> d == c || d in rest;
    }
  }

  // ----- in which order -----

  /** Siblings in the order of their folded names. */
  ghost predicate InOrder(p: Path, cs: seq<Path>)
  {
    && (forall i :: 0 <= i < |cs| ==> IsChild(p, cs[i]))
    && forall i, j :: 0 <= i < j < |cs| ==> cs[i][|p|] != cs[j][|p|] && LexLe(cs[i][|p|], cs[j][|p|])
  }

  lemma {:induction false} ChildrenInOrder(t: Tree, p: Path)
    ensures InOrder(p, Children(t, p))
  {
    var keys, cs := SortedKeys(ChildKeys(t, p)), Children(t, p);
    assert Keyed(p, keys, cs) && StrictlySorted(keys);
    hide *;
    KeyedInOrder(p, keys, cs);
  }

  lemma {:induction false} KeyedInOrder(p: Path, keys: seq<string>, cs: seq<Path>)
    requires Keyed(p, keys, cs) && StrictlySorted(keys)
    ensures InOrder(p, cs)
  {
    hide LexLe;
    assert forall i :: 0 <= i < |cs| ==> cs[i] == p + [keys[i]] && cs[i][|p|] == keys[i];
  }

  /** `q` comes before `r`: it is above it, or where their paths part, its branch is a directory and
      the other one a file, or both are of one kind and its name is the lesser. */
  ghost predicate Before(t: Tree, q: Path, r: Path) { exists k :: PartsAt(t, q, r, k) }

  ghost predicate PartsAt(t: Tree, q: Path, r: Path, k: int)
  {
    && 0 <= k <= |q| && k < |r| && q[..k] == r[..k]
    && (k < |q| ==>
          && q[..k + 1] in t && r[..k + 1] in t && q[k] != r[k]
          && if t[q[..k + 1]].Dir? == t[r[..k + 1]].Dir? then LexLe(q[k], r[k]) else t[q[..k + 1]].Dir?)
  }

  ghost predicate AllBefore(t: Tree, ps: seq<Path>)
  {
    forall i, j :: 0 <= i < j < |ps| ==> Before(t, ps[i], ps[j])
  }

  lemma {:induction false} BeforeAppend(t: Tree, a: seq<Path>, b: seq<Path>)
    requires AllBefore(t, a) && AllBefore(t, b) && forall x, y :: x in a && y in b ==> Before(t, x, y)
    ensures AllBefore(t, a + b)
  {
    hide Before;
    var ps := a + b;
    forall i, j | 0 <= i < j < |ps| ensures Before(t, ps[i], ps[j]) {
      if i < |a| && |a| <= j { assert a[i] in a && b[j - |a|] in b; }
    }
  }

  /** Below two siblings, the first one's side comes first. */
  lemma {:induction false} SidesInOrder(t: Tree, p: Path, c: Path, d: Path, q: Path, r: Path)
    requires IsChild(p, c) && IsChild(p, d) && From(t, c, q) && From(t, d, r) && c in t && d in t && c[|p|] != d[|p|]
    requires if t[c].Dir? == t[d].Dir? then LexLe(c[|p|], d[|p|]) else t[c].Dir?
    ensures Before(t, q, r)
  {
    hide LexLe;
    var k := |p|;
    assert q[..k + 1] == c && r[..k + 1] == d;
    assert q[..k] == q[..k + 1][..k] == p && r[..k] == r[..k + 1][..k] == p;
    assert q[k] == c[k] && r[k] == d[k];
    assert PartsAt(t, q, r, k);
  }

  lemma {:induction false} FilesInOrder(t: Tree, p: Path, cs: seq<Path>)
    requires InOrder(p, cs) && forall c :: c in cs ==> c in t
    ensures AllBefore(t, Files(t, cs))
  {
    if cs != [] {
      var c, rest := cs[0], cs[1..];
      assert c in cs;
      FilesInOrder(t, p, rest);
      hide Before, LexLe;
      if t[c].File? {
        forall d | d in Files(t, rest) ensures Before(t, c, d) {
          var j :| 0 <= j < |rest| && rest[j] == d;
          assert cs[j + 1] == d;
          SidesInOrder(t, p, c, d, c, d);
        }
        BeforeAppend(t, [c], Files(t, rest));
      }
      assert [] + Files(t, rest) == Files(t, rest);
    }
  }

  lemma {:induction false} LaterSide(t: Tree, p: Path, cs: seq<Path>, q: Path, r: Path)
    requires InOrder(p, cs) && cs != [] && cs[0] in t && t[cs[0]].Dir? && From(t, cs[0], q)
    requires UnderSome(t, cs[1..], r)
    ensures Before(t, q, r)
  {
    hide Before, LexLe;
    var rest := cs[1..];
    var d :| d in rest && d in t && t[d].Dir? && From(t, d, r);
    var j :| 0 <= j < |rest| && rest[j] == d;
    assert cs[j + 1] == d;
    SidesInOrder(t, p, cs[0], d, q, r);
  }

  lemma {:induction false} DirsInOrder(u: Unicode, t: Tree, p: Path, cs: seq<Path>)
    requires TreeShape(u, t) && InOrder(p, cs) && forall c :: c in cs ==> c in t && IsChild(p, c)
    ensures AllBefore(t, WalkDirs(t, p, cs))
    decreases Below(t, p), 0, |cs|
  {
    if cs != [] {
      var c, rest := cs[0], cs[1..];
      assert c in cs;
      BelowShrinks(t, p, c);
      DirsInOrder(u, t, p, rest);
      RestDistinct(p, rest);
      WalkDirsCovers(u, t, p, rest);
      var a, b := if t[c].Dir? then Walk(t, c) else [], WalkDirs(t, p, rest);
      if t[c].Dir? {
        WalkInOrder(u, t, c);
        WalkCovers(u, t, c);
      }
      assert AllBefore(t, a);
      hide Before, LexLe, Walk, WalkDirs, AllBefore, UnderSome, InOrder;
      forall q, r | q in a && r in b ensures Before(t, q, r) { LaterSide(t, p, cs, q, r); }
      BeforeAppend(t, a, b);
    }
  }

  lemma {:induction false} RestDistinct(p: Path, cs: seq<Path>)
    requires InOrder(p, cs)
    ensures Distinct(cs)
  {
    hide LexLe;
  }

  lemma {:induction false} DirsFirst(t: Tree, p: Path, cs: seq<Path>, q: Path, r: Path)
    requires InOrder(p, cs) && UnderSome(t, cs, q) && r in cs && r in t && t[r].File?
    ensures Before(t, q, r)
  {
    hide LexLe;
    var c :| c in cs && c in t && t[c].Dir? && From(t, c, q);
    var i :| 0 <= i < |cs| && cs[i] == c;
    var j :| 0 <= j < |cs| && cs[j] == r;
    assert c[|p|] != r[|p|];
    SidesInOrder(t, p, c, r, q, r);
  }

  lemma {:induction false} TopFirst(t: Tree, p: Path, cs: seq<Path>, q: Path)
    requires InOrder(p, cs) && (UnderSome(t, cs, q) || q in cs)
    ensures Before(t, p, q)
  {
    hide LexLe;
    if UnderSome(t, cs, q) {
      var c :| c in cs && c in t && t[c].Dir? && From(t, c, q);
      var i :| 0 <= i < |cs| && cs[i] == c;
      assert q[..|p|] == q[..|c|][..|p|];
    } else {
      var i :| 0 <= i < |cs| && cs[i] == q;
    }
    AboveIsBefore(t, p, q);
  }

  lemma {:induction false} JoinInOrder(t: Tree, p: Path, cs: seq<Path>, ds: seq<Path>, fs: seq<Path>)
    requires InOrder(p, cs) && AllBefore(t, ds) && AllBefore(t, fs)
    requires forall q :: q in ds ==> UnderSome(t, cs, q)
    requires forall r :: r in fs ==> r in cs && r in t && t[r].File?
    ensures AllBefore(t, [p] + ds + fs)
  {
    hide Before, AllBefore, InOrder, UnderSome;
    forall q, r | q in ds && r in fs ensures Before(t, q, r) { DirsFirst(t, p, cs, q, r); }
    BeforeAppend(t, ds, fs);
    forall q | q in ds + fs ensures Before(t, p, q) {
      assert q in ds || q in fs;
      TopFirst(t, p, cs, q);
    }
    OneBefore(t, p);
    BeforeAppend(t, [p], ds + fs);
    assert [p] + (ds + fs) == [p] + ds + fs;
  }

  /** The walk goes down before it goes on, through directories before files, each in the order of
      their names. */
  lemma {:induction false} WalkInOrder(u: Unicode, t: Tree, p: Path)
    requires TreeShape(u, t) && p in t
    ensures AllBefore(t, Walk(t, p))
    decreases Below(t, p), 1, 0
  {
    var cs := Children(t, p);
    ChildrenInOrder(t, p);
    DirsInOrder(u, t, p, cs);
    FilesInOrder(t, p, cs);
    WalkDirsCovers(u, t, p, cs);
    hide Before, WalkDirs, Files, TreeShape, Children, AllBefore, InOrder, UnderSome;
    JoinInOrder(t, p, cs, WalkDirs(t, p, cs), Files(t, cs));
  }

  lemma {:induction false} OneBefore(t: Tree, p: Path)
    ensures AllBefore(t, [p])
  {
  }

  lemma {:induction false} AboveIsBefore(t: Tree, p: Path, q: Path)
    requires |p| < |q| && q[..|p|] == p
    ensures Before(t, p, q)
  {
    assert PartsAt(t, p, q, |p|);
  }
}
