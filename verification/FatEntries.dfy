/** Manifest entries: `_validate_component`, the splitting of a destination and the
    outer loop of `_build_tree`. */
module FatEntries {
  import opened Bytes
  import opened Text
  import opened FatNames
  import opened FatTree

  /** `source` is `None` when it is not a regular file. */
  datatype Entry = Entry(destination: string, source: Option<seq<byte>>)

  function ReplaceBackslashes(s: string): string
  {
    seq(|s|, i requires 0 <= i < |s| => if s[i] == '\\' then '/' else s[i])
  }

  /** `s.strip("/")` */
  function StripSlashes(s: string): string
  {
    if s == [] then s
    else if s[0] == '/' then StripSlashes(s[1..])
    else if s[|s| - 1] == '/' then StripSlashes(s[..|s| - 1])
    else s
  }

  function Parts(e: Entry): (parts: seq<string>)
    ensures |parts| >= 1
  {
    Split(StripSlashes(ReplaceBackslashes(e.destination)))
  }

  predicate ForbiddenChar(c: char) { c as int < 32 || c in "<>:\"/\\|?*" }

  predicate ValidComponent(part: string)
  {
    && part !in ["", ".", ".."]
    && part[|part| - 1] !in " ."
    && (forall c :: c in part ==> !ForbiddenChar(c))
    && |EncodeUtf16(part)| <= 255
  }

  predicate ValidParts(parts: seq<string>) { forall i :: 0 <= i < |parts| ==> ValidComponent(parts[i]) }

  predicate ValidEntry(e: Entry) { e.source.Some? && ValidParts(Parts(e)) }

  function FoldPath(u: Unicode, parts: seq<string>): (p: Path)
    ensures |p| == |parts|
    ensures forall i :: 0 <= i < |p| ==> p[i] == u.casefold(parts[i])
  {
    seq(|parts|, i requires 0 <= i < |parts| => u.casefold(parts[i]))
  }

  function ToItem(u: Unicode, e: Entry): (x: Item)
    requires e.source.Some?
    ensures |x.key| == |x.parts| >= 1
  {
    Item(Parts(e), FoldPath(u, Parts(e)), e.source.value)
  }

  predicate AllValid(entries: seq<Entry>) { forall i :: 0 <= i < |entries| ==> ValidEntry(entries[i]) }

  function Items(u: Unicode, entries: seq<Entry>): (items: seq<Item>)
    requires AllValid(entries)
    ensures |items| == |entries|
    ensures forall i :: 0 <= i < |items| ==> items[i] == ToItem(u, entries[i])
    ensures AllKeyed(items)
  {
    seq(|entries|, i requires 0 <= i < |entries| => assert ValidEntry(entries[i]); ToItem(u, entries[i]))
  }

  function Build(u: Unicode, entries: seq<Entry>): Option<Tree>
  {
    if !AllValid(entries) then None
    else
      var items := Items(u, entries);
      assert forall i :: 0 <= i < |items| ==> WellKeyed(items[i]);
      BuildItems(items)
  }

  method BuildTree(u: Unicode, entries: seq<Entry>) returns (r: Option<Tree>)
    ensures r == Build(u, entries)
  {
    var tree := EMPTY_TREE;
    assert Items(u, entries[..0]) == [];
    for i := 0 to |entries|
      invariant AllValid(entries[..i])
      invariant Build(u, entries[..i]) == Some(tree)
    {
      var e := entries[i];
      assert entries[..i + 1][i] == e;
      if e.source.None? || !ValidParts(Parts(e)) { return None; }
      BuildOneMore(u, entries[..i], e);
      NextPrefix(entries, i);
      var next := Insert(tree, ToItem(u, e));
      if next.None? {
        BuildNoneExtends(u, entries, i + 1);
        return None;
      }
      tree := next.value;
    }
    assert entries[..|entries|] == entries;
    return Some(tree);
  }

  lemma {:induction false} BuildOneMore(u: Unicode, entries: seq<Entry>, e: Entry)
    requires AllValid(entries) && ValidEntry(e)
    ensures AllValid(entries + [e])
    ensures Build(u, entries).Some? ==>
              Build(u, entries + [e]) == InsertItem(Build(u, entries).value, ToItem(u, e))
    ensures Build(u, entries).None? ==> Build(u, entries + [e]).None?
  {
    var all := entries + [e];
    assert AllValid(all);
    var items := Items(u, all);
    assert items[..|entries|] == Items(u, entries);
    assert items[|entries|] == ToItem(u, e);
  }

  lemma {:induction false} BuildNoneExtends(u: Unicode, entries: seq<Entry>, k: nat)
    requires k <= |entries| && Build(u, entries[..k]).None?
    ensures Build(u, entries).None?
    decreases |entries|
  {
    if k == |entries| {
      assert entries[..k] == entries;
    } else if AllValid(entries) {
      var m := |entries| - 1;
      var front, last := entries[..m], entries[m];
      assert front[..k] == entries[..k] && entries == front + [last] && AllValid(front) && ValidEntry(last);
      hide Build, AllValid, ValidEntry;
      BuildNoneExtends(u, front, k);
      BuildOneMore(u, front, last);
    }
  }

  /** Accepted lists: every entry valid and readable, folded paths distinct and prefix-free. */
  lemma {:induction false} BuildAccepts(u: Unicode, entries: seq<Entry>)
    ensures Build(u, entries).Some? <==> AllValid(entries) && PrefixFree(Items(u, entries))
  {
    if AllValid(entries) { BuildCharacterized(Items(u, entries)); }
  }

  // ----- what every later pass relies on -----

  ghost predicate ShapeAt(u: Unicode, t: Tree, p: Path)
  {
    p in t && (p != [] ==>
      && p[..|p| - 1] in t && t[p[..|p| - 1]].Dir?
      && u.casefold(t[p].name) == p[|p| - 1]
      && ValidComponent(t[p].name))
  }

  ghost predicate TreeShape(u: Unicode, t: Tree)
  {
    [] in t && t[[]].Dir? && forall p :: p in t ==> ShapeAt(u, t, p)
  }

  lemma {:induction false} BuildShape(u: Unicode, entries: seq<Entry>)
    requires Build(u, entries).Some?
    ensures TreeShape(u, Build(u, entries).value)
  {
    var items, t := Items(u, entries), Build(u, entries).value;
    BuildCharacterized(items);
    forall p | p in t ensures ShapeAt(u, t, p) {
      if p != [] {
        var i := NodeShape(items, t, p);
        var parts := Parts(entries[i]);
        assert ValidEntry(entries[i]) && items[i] == ToItem(u, entries[i]);
        assert p[|p| - 1] == items[i].key[..|p|][|p| - 1] == items[i].key[|p| - 1];
      }
    }
  }

  /** The names along a stored path, as the nodes spell them. */
  ghost function StoredNames(t: Tree, p: Path): (names: seq<string>)
    requires forall i :: 1 <= i <= |p| ==> p[..i] in t
    ensures |names| == |p|
    ensures forall i :: 0 <= i < |p| ==> p[..i + 1] in t && names[i] == t[p[..i + 1]].name
  {
    seq(|p|, i requires 0 <= i < |p| => t[p[..i + 1]].name)
  }

  lemma {:induction false} AncestorsStored(u: Unicode, t: Tree, p: Path, k: nat)
    requires TreeShape(u, t) && p in t && k <= |p|
    ensures p[..k] in t
    ensures k < |p| ==> t[p[..k]].Dir?
    decreases |p| - k
  {
    hide ValidComponent;
    if k == |p| {
      assert p[..k] == p;
    } else {
      AncestorsStored(u, t, p, k + 1);
      assert ShapeAt(u, t, p[..k + 1]);
      assert p[..k + 1][..k] == p[..k];
    }
  }

  lemma {:induction false} PathStored(u: Unicode, t: Tree, p: Path)
    requires TreeShape(u, t) && p in t
    ensures forall i :: 0 <= i <= |p| ==> p[..i] in t
    ensures forall i :: 0 <= i < |p| ==> t[p[..i]].Dir?
  {
    forall i | 0 <= i <= |p| ensures p[..i] in t && (i < |p| ==> t[p[..i]].Dir?) {
      AncestorsStored(u, t, p, i);
    }
  }

  ghost predicate StoresItem(u: Unicode, t: Tree, x: Item, exact: bool)
  {
    && x.parts != [] && HoldsFile(t, x)
    && (forall k :: 1 <= k <= |x.key| ==> x.key[..k] in t)
    && FoldPath(u, StoredNames(t, x.key)) == x.key
    && (exact ==> StoredNames(t, x.key) == x.parts)
  }

  lemma {:induction false} NameOnWay(u: Unicode, items: seq<Item>, t: Tree, x: Item, k: nat)
    requires AllKeyed(items) && IsTreeOf(items, t) && PrefixFree(items) && TreeShape(u, t)
    requires x in items && WellKeyed(x) && k < |x.key| && x.key[..k + 1] in t
    ensures u.casefold(t[x.key[..k + 1]].name) == x.key[k]
    ensures SpellingsAgree(items) ==> t[x.key[..k + 1]].name == x.parts[k]
  {
    var p := x.key[..k + 1];
    assert ShapeAt(u, t, p);
    if SpellingsAgree(items) { SpeltAlike(items, t, x, p); }
  }

  lemma {:induction false} ItemStored(u: Unicode, items: seq<Item>, t: Tree, i: nat)
    requires AllKeyed(items) && IsTreeOf(items, t) && PrefixFree(items) && TreeShape(u, t)
    requires i < |items|
    ensures StoresItem(u, t, items[i], SpellingsAgree(items))
  {
    var x := items[i];
    assert HoldsFile(t, x) && WellKeyed(x);
    PathStored(u, t, x.key);
    var names := StoredNames(t, x.key);
    forall k | 0 <= k < |x.key|
      ensures u.casefold(names[k]) == x.key[k] && (SpellingsAgree(items) ==> names[k] == x.parts[k])
    {
      NameOnWay(u, items, t, x, k);
    }
    NamesFold(u, t, x, names, SpellingsAgree(items));
  }

  lemma {:induction false} NamesFold(u: Unicode, t: Tree, x: Item, names: seq<string>, exact: bool)
    requires WellKeyed(x) && HoldsFile(t, x) && (forall k :: 1 <= k <= |x.key| ==> x.key[..k] in t)
    requires names == StoredNames(t, x.key)
    requires forall k :: 0 <= k < |x.key| ==> u.casefold(names[k]) == x.key[k] && (exact ==> names[k] == x.parts[k])
    ensures StoresItem(u, t, x, exact)
  {
    assert FoldPath(u, names) == x.key;
    assert exact ==> names == x.parts;
  }

  /** Every entry's bytes are stored under its folded path, spelt as in the manifest up to the
      spelling of the directories, and exactly as in the manifest when spellings agree. */
  lemma {:induction false} EntryStored(u: Unicode, entries: seq<Entry>, i: nat)
    requires Build(u, entries).Some? && i < |entries|
    ensures StoresItem(u, Build(u, entries).value, ToItem(u, entries[i]), SpellingsAgree(Items(u, entries)))
  {
    var items, t := Items(u, entries), Build(u, entries).value;
    BuildCharacterized(items);
    BuildShape(u, entries);
    ItemStored(u, items, t, i);
  }

  lemma {:induction false} SpellingOf(items: seq<Item>, x: Item, y: Item, p: Path)
    requires SpellingsAgree(items) && x in items && y in items && DirOf(x, p) && DirOf(y, p)
    ensures x.parts[|p| - 1] == y.parts[|p| - 1]
  {
  }

  lemma {:induction false} DirSpeltAlike(items: seq<Item>, t: Tree, j: nat, p: Path)
    requires IsTreeOf(items, t) && PrefixFree(items) && SpellingsAgree(items)
    requires j < |items| && DirOf(items[j], p) && p in t
    ensures t[p].name == items[j].parts[|p| - 1]
  {
    ProperPrefixIsDir(items, t, p, j);
    var i := NodeOrigin(items, t, p);
    assert HoldsDir(t, items[i], p);
    hide IsTreeOf, FatTree.PrefixFree;
    SpellingOf(items, items[i], items[j], p);
  }

  lemma {:induction false} SpeltAlike(items: seq<Item>, t: Tree, x: Item, p: Path)
    requires IsTreeOf(items, t) && PrefixFree(items) && SpellingsAgree(items)
    requires x in items && WellKeyed(x) && 1 <= |p| && Prefix(p, x.key) && p in t && |p| <= |x.parts|
    ensures t[p].name == x.parts[|p| - 1]
  {
    hide FatTree.PrefixFree, SpellingsAgree;
    var j :| 0 <= j < |items| && items[j] == x;
    assert HoldsFile(t, x);
    hide IsTreeOf;
    if |p| < |x.key| { DirSpeltAlike(items, t, j, p); } else { FileSpelt(t, x, p); }
  }

  lemma {:induction false} FileSpelt(t: Tree, x: Item, p: Path)
    requires HoldsFile(t, x) && WellKeyed(x) && Prefix(p, x.key) && |p| == |x.key| && p != []
    ensures p in t && |p| <= |x.parts| && t[p].name == x.parts[|p| - 1]
  {
    assert p == x.key;
  }

  // ----- the order of the entries does not matter -----

  function Without<T>(s: seq<T>, k: nat): seq<T>
    requires k < |s|
  {
    s[..k] + s[k + 1..]
  }

  lemma {:induction false} WithoutMultiset<T>(s: seq<T>, k: nat)
    requires k < |s|
    ensures multiset(s) == multiset(Without(s, k)) + multiset{s[k]}
    ensures multiset(Without(s, k)) == multiset(s) - multiset{s[k]}
  {
    assert s == s[..k] + [s[k]] + s[k + 1..];
  }

  /** Equal elements of `a` and `b` have equal images in `x` and `y`. */
  ghost predicate Alike<A(!new), B(!new)>(a: seq<A>, b: seq<A>, x: seq<B>, y: seq<B>)
  {
    |a| == |x| && |b| == |y| && forall i, j :: 0 <= i < |a| && 0 <= j < |b| && a[i] == b[j] ==> x[i] == y[j]
  }

  lemma {:induction false} AlikeWithout<A(!new), B(!new)>(a: seq<A>, b: seq<A>, x: seq<B>, y: seq<B>, k: nat)
    requires Alike(a, b, x, y) && a != [] && k < |b|
    ensures Alike(Without(a, 0), Without(b, k), Without(x, 0), Without(y, k))
  {
    var a', b', x', y' := Without(a, 0), Without(b, k), Without(x, 0), Without(y, k);
    forall i, j | 0 <= i < |a'| && 0 <= j < |b'| && a'[i] == b'[j] ensures x'[i] == y'[j] {
      var m := if j < k then j else j + 1;
      assert a'[i] == a[i + 1] && b'[j] == b[m] && x'[i] == x[i + 1] && y'[j] == y[m];
    }
  }

  /** Permuted arguments have permuted images. */
  lemma {:induction false} PermutedImage<A(!new), B(!new)>(a: seq<A>, b: seq<A>, x: seq<B>, y: seq<B>)
    requires Alike(a, b, x, y) && multiset(a) == multiset(b)
    ensures multiset(x) == multiset(y)
    decreases |a|
  {
    if a == [] {
      assert |b| == |multiset(b)| == |multiset(a)| == 0;
    } else {
      assert a[0] in multiset(b);
      var k :| 0 <= k < |b| && b[k] == a[0];
      assert x[0] == y[k];
      WithoutMultiset(a, 0);
      WithoutMultiset(b, k);
      WithoutMultiset(x, 0);
      WithoutMultiset(y, k);
      AlikeWithout(a, b, x, y, k);
      hide Without, Alike;
      PermutedImage(Without(a, 0), Without(b, k), Without(x, 0), Without(y, k));
    }
  }

  lemma {:induction false} SameValidity(a: seq<Entry>, b: seq<Entry>)
    requires multiset(a) == multiset(b)
    ensures AllValid(a) <==> AllValid(b)
  {
    hide ValidEntry;
    assert forall e :: e in a <==> e in multiset(a);
    assert forall e :: e in b <==> e in multiset(b);
    assert AllValid(a) <==> forall e :: e in a ==> ValidEntry(e);
    assert AllValid(b) <==> forall e :: e in b ==> ValidEntry(e);
  }

  lemma {:induction false} BuildOrderFree(u: Unicode, a: seq<Entry>, b: seq<Entry>)
    requires multiset(a) == multiset(b)
    ensures Build(u, a).Some? <==> Build(u, b).Some?
    ensures AllValid(a) && SpellingsAgree(Items(u, a)) ==> Build(u, a) == Build(u, b)
  {
    hide ValidEntry, ToItem, BuildItems, FatTree.PrefixFree, SpellingsAgree;
    SameValidity(a, b);
    if AllValid(a) {
      PermutedImage(a, b, Items(u, a), Items(u, b));
      BuildIsOrderFree(Items(u, a), Items(u, b));
    }
  }
}
