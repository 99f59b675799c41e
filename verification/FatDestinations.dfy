/** The destination strings of a manifest: what they must be like, and that each is a path under
    which its bytes are found. */
module FatDestinations {
  import opened Bytes
  import opened Text
  import opened FatNames
  import opened FatTree
  import opened FatEntries
  import opened FatReader
  import opened FatImage
  import opened FatCreate
  import opened FatRoundTrip

  // ----- spelling -----

  /** A path without backslashes that neither starts nor ends with a slash. */
  predicate Proper(path: string)
  {
    path != "" && '\\' !in path && path[0] != '/' && path[|path| - 1] != '/'
  }

  predicate IsSlash(c: char) { c == '/' || c == '\\' }

  ghost predicate SpellsAt(d: string, path: string, n: int)
  {
    && 0 <= n <= n + |path| <= |d|
    && (forall k :: 0 <= k < |d| && !(n <= k < n + |path|) ==> IsSlash(d[k]))
    && forall k :: n <= k < n + |path| ==> d[k] == path[k - n] || (path[k - n] == '/' && d[k] == '\\')
  }

  /** `d` is the path, with any slashes and backslashes around it, and backslashes for slashes in it. */
  ghost predicate Spells(d: string, path: string) { exists n :: SpellsAt(d, path, n) }

  lemma {:induction false} StripLeft(n: nat, t: string)
    ensures StripSlashes(Repeat('/', n) + t) == StripSlashes(t)
  {
    var s := Repeat('/', n) + t;
    if n > 0 {
      StripLeft(n - 1, t);
      assert s[1..] == Repeat('/', n - 1) + t;
    } else {
      assert s == t;
    }
  }

  lemma {:induction false} StripRight(t: string, m: nat)
    requires t != "" && t[0] != '/' && t[|t| - 1] != '/'
    ensures StripSlashes(t + Repeat('/', m)) == t
  {
    var s := t + Repeat('/', m);
    if m > 0 {
      StripRight(t, m - 1);
      assert s[..|s| - 1] == t + Repeat('/', m - 1);
    } else {
      assert s == t;
    }
  }

  lemma {:induction false} Replaced(d: string, path: string, n: nat)
    requires Proper(path) && SpellsAt(d, path, n)
    ensures ReplaceBackslashes(d) == Repeat('/', n) + (path + Repeat('/', |d| - n - |path|))
  {
    var s, t := ReplaceBackslashes(d), Repeat('/', n) + (path + Repeat('/', |d| - n - |path|));
    forall k | 0 <= k < |s| ensures s[k] == t[k] {
      if n <= k < n + |path| { assert path[k - n] in path; }
    }
  }

  /** A destination stands for the components of the path it spells. */
  lemma {:induction false} PartsSpelt(e: Entry, path: string)
    requires Proper(path) && Spells(e.destination, path)
    ensures Parts(e) == Split(path) && Join(Parts(e)) == path
  {
    var n :| SpellsAt(e.destination, path, n);
    Replaced(e.destination, path, n);
    var m := |e.destination| - n - |path|;
    StripLeft(n, path + Repeat('/', m));
    StripRight(path, m);
    JoinSplit(path);
  }

  /** `t` is `s` without the slashes around it, `n` of them in front. */
  ghost predicate StripsTo(s: string, t: string, n: int)
  {
    && 0 <= n <= n + |t| <= |s| && s[n..n + |t|] == t && (t != "" ==> t[0] != '/' && t[|t| - 1] != '/')
    && forall k :: 0 <= k < |s| && !(n <= k < n + |t|) ==> s[k] == '/'
  }

  lemma {:induction false} StripsFirst(s: string, t: string, n: int)
    requires s != "" && s[0] == '/' && StripsTo(s[1..], t, n)
    ensures StripsTo(s, t, n + 1)
  {
    assert s[n + 1..n + 1 + |t|] == s[1..][n..n + |t|];
    forall k | 0 <= k < |s| && !(n + 1 <= k < n + 1 + |t|) ensures s[k] == '/' {
      if k > 0 { assert s[k] == s[1..][k - 1]; }
    }
  }

  lemma {:induction false} StripsLast(s: string, t: string, n: int)
    requires s != "" && s[|s| - 1] == '/' && StripsTo(s[..|s| - 1], t, n)
    ensures StripsTo(s, t, n)
  {
    assert s[n..n + |t|] == s[..|s| - 1][n..n + |t|];
    forall k | 0 <= k < |s| && !(n <= k < n + |t|) ensures s[k] == '/' {
      if k < |s| - 1 { assert s[k] == s[..|s| - 1][k]; }
    }
  }

  lemma {:induction false} Stripped(s: string) returns (n: nat)
    ensures StripsTo(s, StripSlashes(s), n)
    decreases |s|
  {
    n := 0;
    if s == "" {
    } else if s[0] == '/' {
      var m := Stripped(s[1..]);
      n := m + 1;
      StripsFirst(s, StripSlashes(s[1..]), m);
    } else if s[|s| - 1] == '/' {
      n := Stripped(s[..|s| - 1]);
      StripsLast(s, StripSlashes(s[..|s| - 1]), n);
    } else {
      assert s[0..|s|] == s;
    }
  }

  /** Every destination that has any other character than slashes spells one proper path. */
  lemma {:induction false} SpellsSomething(d: string) returns (path: string)
    requires exists k :: 0 <= k < |d| && !IsSlash(d[k])
    ensures Proper(path) && Spells(d, path)
  {
    var s := ReplaceBackslashes(d);
    path := StripSlashes(s);
    var n := Stripped(s);
    var k :| 0 <= k < |d| && !IsSlash(d[k]);
    assert s[k] != '/';
    forall k | 0 <= k < |d| && !(n <= k < n + |path|) ensures IsSlash(d[k]) { assert s[k] == '/'; }
    forall k | n <= k < n + |path| ensures d[k] == path[k - n] || (path[k - n] == '/' && d[k] == '\\') {
      assert path[k - n] == s[n..n + |path|][k - n] == s[k];
    }
    assert SpellsAt(d, path, n);
    forall c | c in path ensures c != '\\' {
      var i :| 0 <= i < |path| && path[i] == c;
      assert c == s[n + i];
    }
  }

  ghost predicate AllSpelt(entries: seq<Entry>, paths: seq<string>)
  {
    && |entries| == |paths|
    && forall i :: 0 <= i < |paths| ==> Proper(paths[i]) && Spells(entries[i].destination, paths[i])
  }

  // ----- which destinations are accepted -----

  predicate PlainChar(c: char)
  {
    && c as int >= 32 && c != '<' && c != '>' && c != ':' && c != '"' && c != '\\' && c != '|' && c != '?' && c != '*'
    && c != '/'
  }

  /** A component: 1 to 255 units of ordinary characters, the last one neither a blank nor a dot. */
  predicate PlainComponent(p: string)
  {
    && p != "" && |EncodeUtf16(p)| <= 255 && p[|p| - 1] != ' ' && p[|p| - 1] != '.'
    && forall c :: c in p ==> PlainChar(c)
  }

  lemma {:induction false} CharIsPlain(c: char)
    ensures ForbiddenChar(c) <==> !PlainChar(c)
  {
    var all := "<>:\"/\\|?*";
    assert all[0] == '<' && all[1] == '>' && all[2] == ':' && all[3] == '"' && all[4] == '/' && all[5] == '\\';
    assert all[6] == '|' && all[7] == '?' && all[8] == '*';
  }

  lemma {:induction false} ComponentIsPlain(p: string)
    ensures ValidComponent(p) <==> PlainComponent(p)
  {
    forall c ensures ForbiddenChar(c) <==> !PlainChar(c) { CharIsPlain(c); }
    hide ForbiddenChar, PlainChar, EncodeUtf16;
    if p != "" {
      var last, ends := p[|p| - 1], " .";
      assert ends[0] == ' ' && ends[1] == '.';
      assert last in ends <==> last == ' ' || last == '.';
    }
  }

  ghost predicate FoldsInto(u: Unicode, p: seq<string>, q: seq<string>)
  {
    |p| <= |q| && forall k :: 0 <= k < |p| ==> u.casefold(p[k]) == u.casefold(q[k])
  }

  lemma {:induction false} KeysFold(u: Unicode, p: seq<string>, q: seq<string>)
    ensures Prefix(FoldPath(u, p), FoldPath(u, q)) <==> FoldsInto(u, p, q)
  {
    var a, b := FoldPath(u, p), FoldPath(u, q);
    if FoldsInto(u, p, q) {
      assert a == b[..|a|];
    }
    if Prefix(a, b) {
      forall k | 0 <= k < |p| ensures u.casefold(p[k]) == u.casefold(q[k]) { assert b[..|a|][k] == b[k]; }
    }
  }

  /** A manifest is accepted if and only if every source can be read, every component is plain, and no
      path is, case-folded, another one or a directory of another one. */
  ghost predicate Acceptable(u: Unicode, entries: seq<Entry>, paths: seq<string>)
    requires |entries| == |paths|
  {
    && (forall i :: 0 <= i < |entries| ==> entries[i].source.Some?)
    && (forall i, p :: 0 <= i < |paths| && p in Split(paths[i]) ==> PlainComponent(p))
    && forall i, j :: 0 <= i < |paths| && 0 <= j < |paths| && i != j ==> !FoldsInto(u, Split(paths[i]), Split(paths[j]))
  }

  lemma {:induction false} EntryIsPlain(e: Entry, path: string)
    requires Proper(path) && Spells(e.destination, path)
    ensures ValidEntry(e) <==> e.source.Some? && forall p :: p in Split(path) ==> PlainComponent(p)
  {
    PartsSpelt(e, path);
    var parts := Split(path);
    forall p ensures ValidComponent(p) <==> PlainComponent(p) { ComponentIsPlain(p); }
    hide ValidComponent, PlainComponent, Proper, Spells, Parts, Split;
    if ValidParts(parts) {
      forall p | p in parts ensures PlainComponent(p) { var k :| 0 <= k < |parts| && parts[k] == p; }
    }
    if forall p :: p in parts ==> PlainComponent(p) {
      forall k | 0 <= k < |parts| ensures ValidComponent(parts[k]) { assert parts[k] in parts; }
    }
  }

  lemma {:induction false} DestinationsAccepted(u: Unicode, entries: seq<Entry>, paths: seq<string>)
    requires AllSpelt(entries, paths)
    ensures Build(u, entries).Some? <==> Acceptable(u, entries, paths)
  {
    BuildAccepts(u, entries);
    forall i | 0 <= i < |paths| ensures ValidEntry(entries[i]) <==>
        entries[i].source.Some? && forall p :: p in Split(paths[i]) ==> PlainComponent(p)
    {
      EntryIsPlain(entries[i], paths[i]);
    }
    hide Build, ValidEntry, PlainComponent;
    if AllValid(entries) { KeysAre(u, entries, paths); }
  }

  lemma {:induction false} KeysAre(u: Unicode, entries: seq<Entry>, paths: seq<string>)
    requires AllSpelt(entries, paths) && AllValid(entries)
    ensures FatTree.PrefixFree(Items(u, entries)) <==>
            forall i, j :: 0 <= i < |paths| && 0 <= j < |paths| && i != j ==>
              !FoldsInto(u, Split(paths[i]), Split(paths[j]))
  {
    var items := Items(u, entries);
    forall i | 0 <= i < |items|
      ensures items[i].key == FoldPath(u, Split(paths[i])) && items[i].parts == Split(paths[i])
    {
      assert ValidEntry(entries[i]);
      PartsSpelt(entries[i], paths[i]);
    }
    hide ValidEntry, Items, AllSpelt, Split, FoldPath, FoldsInto, Prefix;
    forall i, j | 0 <= i < |items| && 0 <= j < |items|
      ensures Prefix(items[i].key, items[j].key) <==> FoldsInto(u, Split(paths[i]), Split(paths[j]))
    {
      KeysFold(u, Split(paths[i]), Split(paths[j]));
    }
  }

  // ----- destinations that spell the same paths -----

  /** Slashes around a destination, and backslashes for slashes, make no difference. */
  lemma {:induction false} SlashesDoNotMatter(
      u: Unicode, a: seq<Entry>, b: seq<Entry>, paths: seq<string>, sizeMb: int, volume: string, volumeId: int)
    requires AllSpelt(a, paths) && AllSpelt(b, paths) && sizeMb <= MAX_MIB
    requires forall i :: 0 <= i < |paths| ==> a[i].source == b[i].source
    ensures Build(u, a) == Build(u, b)
    ensures CreateImage(u, a, sizeMb, volume, volumeId) == CreateImage(u, b, sizeMb, volume, volumeId)
  {
    hide CreateImage;
    forall i | 0 <= i < |paths| ensures ValidEntry(a[i]) <==> ValidEntry(b[i]) {
      PartsSpelt(a[i], paths[i]);
      PartsSpelt(b[i], paths[i]);
    }
    if AllValid(a) {
      var x, y := Items(u, a), Items(u, b);
      forall i | 0 <= i < |paths| ensures x[i] == y[i] {
        assert ValidEntry(a[i]);
        PartsSpelt(a[i], paths[i]);
        PartsSpelt(b[i], paths[i]);
      }
      assert x == y;
    }
    hide ValidEntry, Items, BuildItems, AllSpelt;
    SameTreeSameImage(u, a, b, sizeMb, volume, volumeId);
  }

  lemma {:induction false} SameTreeSameImage(
      u: Unicode, a: seq<Entry>, b: seq<Entry>, sizeMb: int, volume: string, volumeId: int)
    requires Build(u, a) == Build(u, b) && sizeMb <= MAX_MIB
    ensures CreateImage(u, a, sizeMb, volume, volumeId) == CreateImage(u, b, sizeMb, volume, volumeId)
  {
    hide Build, MakePlan, Layout, ImageBytes, PlanOk, GeometryOk;
  }

  // ----- reading by destination -----

  /** Directories that fold alike are spelt alike. */
  ghost predicate SpeltAlike(u: Unicode, paths: seq<string>)
  {
    forall i, j, n :: 0 <= i < |paths| && 0 <= j < |paths| && 0 <= n && FoldTo(u, paths[i], paths[j], n) ==>
                        Split(paths[i])[n] == Split(paths[j])[n]
  }

  /** Component `n` of either path is a directory, and up to it they fold alike. */
  ghost predicate FoldTo(u: Unicode, p: string, q: string, n: int)
  {
    && 0 <= n && n + 1 < |Split(p)| && n + 1 < |Split(q)|
    && forall k :: 0 <= k <= n ==> u.casefold(Split(p)[k]) == u.casefold(Split(q)[k])
  }

  lemma {:induction false} SharedFolds(u: Unicode, p: string, q: string, x: Item, y: Item, d: Path)
    requires x.parts == Split(p) && x.key == FoldPath(u, Split(p))
    requires y.parts == Split(q) && y.key == FoldPath(u, Split(q))
    requires DirOf(x, d) && DirOf(y, d)
    ensures FoldTo(u, p, q, |d| - 1)
  {
    forall k | 0 <= k < |d| ensures u.casefold(Split(p)[k]) == u.casefold(Split(q)[k]) {
      assert x.key[..|d|][k] == y.key[..|d|][k];
    }
  }

  lemma {:induction false} ItemSpelt(u: Unicode, entries: seq<Entry>, paths: seq<string>, i: nat)
    requires AllSpelt(entries, paths) && AllValid(entries) && i < |entries|
    ensures Items(u, entries)[i] == Item(Split(paths[i]), FoldPath(u, Split(paths[i])), entries[i].source.value)
  {
    assert ValidEntry(entries[i]);
    PartsSpelt(entries[i], paths[i]);
  }

  lemma {:induction false} TwoAgree(
      u: Unicode, entries: seq<Entry>, paths: seq<string>, x: Item, y: Item, d: Path)
    requires AllSpelt(entries, paths) && AllValid(entries) && SpeltAlike(u, paths)
    requires x in Items(u, entries) && y in Items(u, entries) && DirOf(x, d) && DirOf(y, d)
    ensures x.parts[|d| - 1] == y.parts[|d| - 1]
  {
    var items := Items(u, entries);
    var i :| 0 <= i < |items| && items[i] == x;
    var j :| 0 <= j < |items| && items[j] == y;
    ItemSpelt(u, entries, paths, i);
    ItemSpelt(u, entries, paths, j);
    assert |d| >= 1;
    hide AllSpelt, AllValid, Items, Split, FoldPath, FoldTo, DirOf;
    SharedFolds(u, paths[i], paths[j], x, y, d);
  }

  lemma {:induction false} AlikeAgrees(u: Unicode, entries: seq<Entry>, paths: seq<string>)
    requires AllSpelt(entries, paths) && AllValid(entries) && SpeltAlike(u, paths)
    ensures SpellingsAgree(Items(u, entries))
  {
    var items := Items(u, entries);
    hide AllSpelt, AllValid, Items, SpeltAlike;
    forall x, y, d | x in items && y in items && DirOf(x, d) && DirOf(y, d)
      ensures x.parts[|d| - 1] == y.parts[|d| - 1]
    {
      TwoAgree(u, entries, paths, x, y, d);
    }
  }

  /** The image holds every entry under the path its destination spells. */
  lemma {:induction false} DestinationReads(
      u: Unicode, entries: seq<Entry>, paths: seq<string>, sizeMb: int, volume: string, volumeId: int, i: nat)
    requires sizeMb <= MAX_MIB && CreateImage(u, entries, sizeMb, volume, volumeId).Some? && i < |entries|
    requires AllSpelt(entries, paths) && SpeltAlike(u, paths)
    ensures var fs := Mount(CreateImage(u, entries, sizeMb, volume, volumeId).value);
            fs.Some? && entries[i].source.Some? && ReadPath(fs.value, paths[i]) == entries[i].source
  {
    hide CreateImage, Mount, ReadPath, SpeltAlike;
    EntryRoundTrip(u, entries, sizeMb, volume, volumeId, i);
    assert ValidEntry(entries[i]);
    AlikeAgrees(u, entries, paths);
    PartsSpelt(entries[i], paths[i]);
  }

  lemma {:induction false} SpellsItself(path: string)
    ensures Spells(path, path)
  {
    assert SpellsAt(path, path, 0);
  }

  /** In particular under the destination itself, where destinations are proper paths. */
  lemma {:induction false} ProperDestinationReads(
      u: Unicode, entries: seq<Entry>, paths: seq<string>, sizeMb: int, volume: string, volumeId: int, i: nat)
    requires sizeMb <= MAX_MIB && CreateImage(u, entries, sizeMb, volume, volumeId).Some? && i < |entries|
    requires |paths| == |entries|
    requires forall k :: 0 <= k < |paths| ==> paths[k] == entries[k].destination && Proper(paths[k])
    requires SpeltAlike(u, paths)
    ensures var fs := Mount(CreateImage(u, entries, sizeMb, volume, volumeId).value);
            fs.Some? && ReadPath(fs.value, entries[i].destination) == entries[i].source
  {
    hide CreateImage, Mount, ReadPath, SpeltAlike, Proper;
    forall k | 0 <= k < |paths| ensures Spells(entries[k].destination, paths[k]) { SpellsItself(paths[k]); }
    hide Spells;
    DestinationReads(u, entries, paths, sizeMb, volume, volumeId, i);
  }
}
