/** What `read_path` returns for every path of a created image, dot components included. */
module FatPaths {
  import opened Bytes
  import opened Text
  import opened FatNames
  import opened FatTree
  import opened FatEntries
  import opened FatPlan
  import opened FatDirectory
  import opened FatDirectoryData
  import opened FatReader
  import opened FatVolume
  import opened FatImage
  import opened FatCreate
  import opened FatRoundTrip

  // ----- what a path means -----

  /** Where one component leads from the directory `d`: to the child of exactly that name, to `d`
      itself, or to its parent.  The root has no dot entries, and its children's `..` names cluster
      0, which holds nothing. */
  function Walk1(u: Unicode, t: Tree, d: Path, name: string): Option<Path>
  {
    if name == "." then if d == [] then None else Some(d)
    else if name == ".." then if |d| >= 2 then Some(d[..|d| - 1]) else None
    else
      var c := d + [u.casefold(name)];
      if c in t && t[c].name == name then Some(c) else None
  }

  /** The bytes a path leads to: only the last component may, and must, name a file. */
  function Resolve(u: Unicode, t: Tree, d: Path, names: seq<string>): Option<seq<byte>>
    requires names != []
    decreases |names|
  {
    var c := Walk1(u, t, d, names[0]);
    if c.None? || c.value !in t then None
    else if |names| == 1 then if t[c.value].File? then Some(t[c.value].content) else None
    else if t[c.value].Dir? then Resolve(u, t, c.value, names[1..]) else None
  }

  lemma {:induction false} ResolveInto(u: Unicode, t: Tree, d: Path, names: seq<string>, c: Path)
    requires names != [] && Walk1(u, t, d, names[0]) == Some(c) && c in t && t[c].Dir?
    ensures Resolve(u, t, d, names) == if |names| == 1 then None else Resolve(u, t, c, names[1..])
  {
    hide Walk1;
  }

  lemma {:induction false} ResolveOnto(u: Unicode, t: Tree, d: Path, names: seq<string>, c: Path)
    requires names != [] && Walk1(u, t, d, names[0]) == Some(c) && c in t && t[c].File?
    ensures Resolve(u, t, d, names) == if |names| == 1 then Some(t[c].content) else None
  {
    hide Walk1;
  }

  lemma {:induction false} ResolveNowhere(u: Unicode, t: Tree, d: Path, names: seq<string>)
    requires names != [] && Walk1(u, t, d, names[0]).None?
    ensures Resolve(u, t, d, names).None?
  {
    hide Walk1;
  }

  lemma {:induction false} WalkDots(u: Unicode, t: Tree, d: Path)
    ensures Walk1(u, t, d, ".") == if d == [] then None else Some(d)
    ensures Walk1(u, t, d, "..") == if |d| >= 2 then Some(d[..|d| - 1]) else None
  {
  }

  // ----- one component -----

  lemma {:induction false} DotsRead(img: seq<byte>, u: Unicode, plan: Plan, fat: nat, volume: string, p: Path)
    requires Holds(img, u, plan, fat, volume) && p in plan.tree && plan.tree[p].Dir?
    ensures p in plan.first
    ensures var dot, up := Lookup(FsOf(img, fat), plan.first[p], "."), Lookup(FsOf(img, fat), plan.first[p], "..");
            if p == [] then dot.None? && up.None?
            else dot == Some(Info(ATTR_DIRECTORY, plan.first[p], 0))
                 && up == Some(Info(ATTR_DIRECTORY, ParentCluster(plan, p), 0))
  {
    hide PlanOk, Fits32, ValidLabel, Readable, ValidChild, ChildOf, Directory, AddAll, ParentCluster, ValidListing;
    DirectoryChain(img, u, plan, fat, volume, p);
    KidsKnown(u, plan, p);
    NoDotKids(u, plan, volume, p);
    var d := ListingOf(plan, volume, p);
    DistinctNames(d);
    DotsFound(d);
  }

  lemma {:induction false} DistinctNames(d: Listing)
    requires ValidListing(d)
    ensures forall i, j :: 0 <= i < j < |d.children| ==> d.children[i].name != d.children[j].name
  {
    hide ValidChild;
  }

  /** The dot entries survive the children. */
  lemma {:induction false} DotsFound(d: Listing)
    requires forall i, j :: 0 <= i < j < |d.children| ==> d.children[i].name != d.children[j].name
    requires forall k :: 0 <= k < |d.children| ==> d.children[k].name != "." && d.children[k].name != ".."
    ensures var all := AddAll(HeaderResult(d), d.children);
            if d.root then "." !in all && ".." !in all
            else "." in all && all["."] == Info(ATTR_DIRECTORY, d.first, 0)
                 && ".." in all && all[".."] == Info(ATTR_DIRECTORY, d.parent, 0)
  {
    hide AddAll;
    AddAllFinds(HeaderResult(d), d.children);
  }

  lemma {:induction false} NoDotKids(u: Unicode, plan: Plan, volume: string, p: Path)
    requires PlanOk(u, plan) && Fits32(plan) && p in plan.tree && p in plan.first && p in plan.kids
    requires HasFields(plan, plan.kids[p]) && forall i :: 0 <= i < |plan.kids[p]| ==> plan.kids[p][i] != []
    ensures var cs := ListingOf(plan, volume, p).children;
            forall k :: 0 <= k < |cs| ==> cs[k].name != "." && cs[k].name != ".."
  {
    hide PlanOk, Fits32, ChildOf;
    var cs := ListingOf(plan, volume, p).children;
    forall k | 0 <= k < |cs| ensures cs[k].name != "." && cs[k].name != ".." {
      NoDotChild(u, plan, plan.kids[p][k]);
      ChildIsValid(u, plan, plan.kids[p][k]);
    }
  }

  lemma {:induction false} NoDotChild(u: Unicode, plan: Plan, c: Path)
    requires PlanOk(u, plan) && c in plan.tree && c != []
    ensures plan.tree[c].name != "." && plan.tree[c].name != ".."
  {
    hide PlanOk;
    NodeShaped(u, plan, c);
  }

  lemma {:induction false} KeyOfName(img: seq<byte>, u: Unicode, plan: Plan, fat: nat, volume: string, d: Path, c: Path)
    requires Holds(img, u, plan, fat, volume) && c in plan.tree && IsChild(d, c)
    ensures c == d + [u.casefold(plan.tree[c].name)]
  {
    hide PlanOk, Fits32, ValidLabel, Readable, ValidComponent;
    NodeShaped(u, plan, c);
    assert c == c[..|d|] + [c[|d|]];
  }

  /** A component other than the dots is found exactly where `Walk1` leads. */
  lemma {:induction false} NameRead(
      img: seq<byte>, u: Unicode, plan: Plan, fat: nat, volume: string, d: Path, name: string)
    requires Holds(img, u, plan, fat, volume) && d in plan.tree && plan.tree[d].Dir? && d in plan.first
    requires name != "." && name != ".."
    ensures var c := Walk1(u, plan.tree, d, name); var found := Lookup(FsOf(img, fat), plan.first[d], name);
            if c.None? then found.None?
            else c.value in plan.tree && c.value in plan.alias && c.value in plan.first
                 && found == Some(InfoOf(ChildOf(plan, c.value)))
  {
    hide Holds, Lookup, ChildOf, FsOf, ParentCluster;
    var c := Walk1(u, plan.tree, d, name);
    if c.Some? {
      LookupReads(img, u, plan, fat, volume, d, c.value);
    } else if Lookup(FsOf(img, fat), plan.first[d], name).Some? {
      var k := LookupFinds(img, u, plan, fat, volume, d, name);
      KeyOfName(img, u, plan, fat, volume, d, k);
    }
  }

  // ----- whole paths -----

  /** Cluster 0 reads as an empty directory. */
  lemma {:induction false} NothingAtZero(fs: Fs, names: seq<string>)
    requires names != []
    ensures ReadFrom(fs, 0, names).None?
  {
    assert Chain(fs, 0, {}) == Some([]);
    assert ScanBytes([], 0, Scan(map[], map[])) == Some(map[]);
  }

  lemma {:induction false} StepFails(fs: Fs, cluster: nat, names: seq<string>)
    requires names != [] && Lookup(fs, cluster, names[0]).None?
    ensures ReadFrom(fs, cluster, names).None?
  {
    hide Lookup, ReadFile;
  }

  /** The step into a directory. */
  lemma {:induction false} StepInto(fs: Fs, cluster: nat, names: seq<string>, info: Info)
    requires names != [] && Lookup(fs, cluster, names[0]) == Some(info) && IsDirectory(info.attr)
    ensures ReadFrom(fs, cluster, names) == if |names| == 1 then None else ReadFrom(fs, info.cluster, names[1..])
  {
    hide Lookup, ReadFile;
  }

  lemma {:induction false} StepOnto(fs: Fs, cluster: nat, names: seq<string>, info: Info)
    requires names != [] && Lookup(fs, cluster, names[0]) == Some(info) && !IsDirectory(info.attr)
    ensures ReadFrom(fs, cluster, names) == if |names| == 1 then ReadFile(fs, info) else None
  {
    hide Lookup, ReadFile;
  }

  /** The parent of a directory two levels down is a stored directory, and `..` names its cluster. */
  lemma {:induction false} ParentStored(img: seq<byte>, u: Unicode, plan: Plan, fat: nat, volume: string, d: Path)
    requires Holds(img, u, plan, fat, volume) && d in plan.tree && |d| >= 2
    ensures var up := d[..|d| - 1];
            up in plan.tree && plan.tree[up].Dir? && up in plan.first && ParentCluster(plan, d) == plan.first[up]
  {
    hide Holds;
    DirOnWay(img, u, plan, fat, volume, d, |d| - 1);
    DirectoryChain(img, u, plan, fat, volume, d[..|d| - 1]);
  }

  lemma {:induction false} UpFromTop(plan: Plan, d: Path)
    requires |d| == 1
    ensures ParentCluster(plan, d) == 0
  {
  }

  lemma {:induction false} DirAttribute()
    ensures IsDirectory(ATTR_DIRECTORY)
  {
  }

  lemma {:induction false} DotResolves(
      img: seq<byte>, u: Unicode, plan: Plan, fat: nat, volume: string, d: Path, names: seq<string>)
    requires Holds(img, u, plan, fat, volume) && d in plan.tree && plan.tree[d].Dir? && d in plan.first && names != []
    requires names[0] == "." || names[0] == ".."
    ensures ReadFrom(FsOf(img, fat), plan.first[d], names) == Resolve(u, plan.tree, d, names)
    decreases |names|, 0
  {
    hide Holds, Lookup, ReadFrom, FsOf, ParentCluster, IsDirectory, Resolve, Walk1;
    var fs, t := FsOf(img, fat), plan.tree;
    DotsRead(img, u, plan, fat, volume, d);
    DirAttribute();
    WalkDots(u, t, d);
    if d == [] {
      StepFails(fs, plan.first[d], names);
      ResolveNowhere(u, t, d, names);
    } else if names[0] == "." {
      StepInto(fs, plan.first[d], names, Info(ATTR_DIRECTORY, plan.first[d], 0));
      ResolveInto(u, t, d, names, d);
      if |names| > 1 { ReadResolves(img, u, plan, fat, volume, d, names[1..]); }
    } else {
      StepInto(fs, plan.first[d], names, Info(ATTR_DIRECTORY, ParentCluster(plan, d), 0));
      if |d| == 1 {
        UpFromTop(plan, d);
        ResolveNowhere(u, t, d, names);
        if |names| > 1 { NothingAtZero(fs, names[1..]); }
      } else {
        ParentStored(img, u, plan, fat, volume, d);
        ResolveInto(u, t, d, names, d[..|d| - 1]);
        if |names| > 1 { ReadResolves(img, u, plan, fat, volume, d[..|d| - 1], names[1..]); }
      }
    }
  }

  /** From every stored directory, every list of components reads as it resolves. */
  lemma {:induction false} ReadResolves(
      img: seq<byte>, u: Unicode, plan: Plan, fat: nat, volume: string, d: Path, names: seq<string>)
    requires Holds(img, u, plan, fat, volume) && d in plan.tree && plan.tree[d].Dir? && d in plan.first && names != []
    ensures ReadFrom(FsOf(img, fat), plan.first[d], names) == Resolve(u, plan.tree, d, names)
    decreases |names|, 1
  {
    if names[0] == "." || names[0] == ".." {
      hide Holds, ReadFrom, FsOf, Resolve;
      DotResolves(img, u, plan, fat, volume, d, names);
    } else {
      hide Holds, Lookup, ReadFile, ReadFrom, ChildOf, FsOf, IsDirectory, Walk1, InfoOf, Resolve;
      var fs, at := FsOf(img, fat), plan.first[d];
      NameRead(img, u, plan, fat, volume, d, names[0]);
      var c := Walk1(u, plan.tree, d, names[0]);
      if c.None? {
        StepFails(fs, at, names);
        ResolveNowhere(u, plan.tree, d, names);
      } else {
        ChildInfo(plan, c.value);
        var info := InfoOf(ChildOf(plan, c.value));
        if plan.tree[c.value].File? {
          StepOnto(fs, at, names, info);
          ResolveOnto(u, plan.tree, d, names, c.value);
          FileChain(img, u, plan, fat, volume, c.value);
        } else {
          StepInto(fs, at, names, info);
          ResolveInto(u, plan.tree, d, names, c.value);
          if |names| > 1 { ReadResolves(img, u, plan, fat, volume, c.value, names[1..]); }
        }
      }
    }
  }

  /** Every path of every created image, whatever its components, reads exactly as it resolves in the
      tree of the manifest. */
  lemma {:induction false} EveryPathReads(
      u: Unicode, entries: seq<Entry>, sizeMb: int, volume: string, volumeId: int, path: string)
    requires sizeMb <= MAX_MIB && CreateImage(u, entries, sizeMb, volume, volumeId).Some?
    ensures Build(u, entries).Some? && Mount(CreateImage(u, entries, sizeMb, volume, volumeId).value).Some?
    ensures ReadPath(Mount(CreateImage(u, entries, sizeMb, volume, volumeId).value).value, path)
         == Resolve(u, Build(u, entries).value, [], Split(path))
  {
    hide CreateImage, Ready, Layout, Build, Mount, ReadFrom, Resolve;
    var plan, g := CreatedImageHolds(u, entries, sizeMb, volume, volumeId);
    var img := CreateImage(u, entries, sizeMb, volume, volumeId).value;
    RootCluster(img, u, plan, g.fat, volume);
    assert BootsAs(img, g.fat) by { hide PlanOk, HoldsTable, HoldsBlock; }
    MountReadable(img, g.fat);
    hide Holds;
    ReadResolves(img, u, plan, g.fat, volume, [], Split(path));
  }

  // ----- paths without dots -----

  lemma {:induction false} PlainFrom(u: Unicode, t: Tree, d: Path, names: seq<string>)
    requires TreeShape(u, t) && names != [] && "." !in names && ".." !in names && d in t && t[d].Dir?
    ensures var p := d + FoldPath(u, names);
            Resolve(u, t, d, names) ==
            if p in t && t[p].File? && NamedBelow(t, d, p, names) then Some(t[p].content) else None
    decreases |names|
  {
    hide Resolve, Walk1, TreeShape, NamedBelow, FoldPath;
    var c, p, rest := d + [u.casefold(names[0])], d + FoldPath(u, names), names[1..];
    assert names[0] in names;
    WalkName(u, t, d, names[0]);
    FoldFirst(u, d, names);
    if |names| == 1 { OneName(t, d, names, c); } else { BelowOne(u, t, d, c, p, names); }
    if Named(t, c, names[0]) {
      if t[c].File? {
        ResolveOnto(u, t, d, names, c);
      } else {
        ResolveInto(u, t, d, names, c);
        if |names| > 1 {
          assert forall x :: x in rest ==> x in names;
          PlainFrom(u, t, c, rest);
        }
      }
    } else {
      ResolveNowhere(u, t, d, names);
    }
  }

  lemma {:induction false} WalkName(u: Unicode, t: Tree, d: Path, name: string)
    requires name != "." && name != ".."
    ensures var c := d + [u.casefold(name)]; Walk1(u, t, d, name) == if Named(t, c, name) then Some(c) else None
  {
  }

  lemma {:induction false} FoldFirst(u: Unicode, d: Path, names: seq<string>)
    requires names != []
    ensures var c, p := d + [u.casefold(names[0])], d + FoldPath(u, names);
            && |p| == |d| + |names| && p[..|c|] == c && p == c + FoldPath(u, names[1..]) && (|names| == 1 ==> p == c)
  {
  }

  lemma {:induction false} OneName(t: Tree, d: Path, names: seq<string>, c: Path)
    requires |names| == 1 && |c| == |d| + 1
    ensures NamedBelow(t, d, c, names) <==> Named(t, c, names[0])
  {
    assert c[..|d| + 0 + 1] == c;
    if NamedBelow(t, d, c, names) { assert Named(t, c[..|d| + 0 + 1], names[0]); }
  }

  /** Below `d`, the nodes on the way to `p` carry `names`. */
  ghost predicate NamedBelow(t: Tree, d: Path, p: Path, names: seq<string>)
  {
    |p| == |d| + |names| && forall i :: 0 <= i < |names| ==> Named(t, p[..|d| + i + 1], names[i])
  }

  lemma {:induction false} BelowOne(u: Unicode, t: Tree, d: Path, c: Path, p: Path, names: seq<string>)
    requires TreeShape(u, t) && |names| > 1 && |p| == |d| + |names| && |c| == |d| + 1 && p[..|c|] == c
    ensures NamedBelow(t, d, p, names) <==> Named(t, c, names[0]) && NamedBelow(t, c, p, names[1..])
    ensures p in t ==> c in t && t[c].Dir?
  {
    hide TreeShape, Named, NamedBelow;
    if NamedBelow(t, d, p, names) { BelowDown(t, d, c, p, names); }
    if Named(t, c, names[0]) && NamedBelow(t, c, p, names[1..]) { BelowUp(t, d, c, p, names); }
    if p in t { AncestorsStored(u, t, p, |c|); }
  }

  lemma {:induction false} NamedAt(t: Tree, d: Path, p: Path, names: seq<string>, i: nat, n: nat)
    requires NamedBelow(t, d, p, names) && i < |names| && n == |d| + i + 1
    ensures n <= |p| && Named(t, p[..n], names[i])
  {
    hide Named;
  }

  lemma {:induction false} BelowDown(t: Tree, d: Path, c: Path, p: Path, names: seq<string>)
    requires NamedBelow(t, d, p, names) && |names| > 1 && |c| == |d| + 1 && |c| <= |p| && p[..|c|] == c
    ensures Named(t, c, names[0]) && NamedBelow(t, c, p, names[1..])
  {
    NamedAt(t, d, p, names, 0, |c|);
    var rest := names[1..];
    hide Named;
    forall i | 0 <= i < |rest| ensures Named(t, p[..|c| + i + 1], rest[i]) {
      NamedAt(t, d, p, names, i + 1, |c| + i + 1);
    }
  }

  lemma {:induction false} BelowUp(t: Tree, d: Path, c: Path, p: Path, names: seq<string>)
    requires |names| > 1 && |c| == |d| + 1 && |c| <= |p| && p[..|c|] == c
    requires Named(t, c, names[0]) && NamedBelow(t, c, p, names[1..])
    ensures NamedBelow(t, d, p, names)
  {
    hide Named;
    forall i | 0 <= i < |names| ensures Named(t, p[..|d| + i + 1], names[i]) {
      if i > 0 { NamedAt(t, c, p, names[1..], i - 1, |d| + i + 1); }
    }
  }

  /** Without dot components, a path resolves if and only if a file is stored under its folded
      components with exactly these names, and then to that file. */
  lemma {:induction false} PlainPathResolves(u: Unicode, entries: seq<Entry>, names: seq<string>)
    requires Build(u, entries).Some? && names != [] && "." !in names && ".." !in names
    ensures var t, p := Build(u, entries).value, FoldPath(u, names);
            Resolve(u, t, [], names) ==
            if p in t && t[p].File? && NamedBelow(t, [], p, names) then Some(t[p].content) else None
  {
    BuildShape(u, entries);
    hide Build, Resolve, NamedBelow, FoldPath;
    PlainFrom(u, Build(u, entries).value, [], names);
    assert [] + FoldPath(u, names) == FoldPath(u, names);
  }
}
