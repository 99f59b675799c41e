/** A whole directory: the byte string of `_directory_data` and the reader's scan of it. */
module FatDirectoryData {
  import opened Bytes
  import opened Text
  import opened FatNames
  import opened FatDirectory

  // ----- writing -----

  predicate ValidLabel(volume: string)
  {
    1 <= |volume| <= 11 && forall c :: c in volume ==> 0x20 <= c as int <= 0x7E
  }

  /** `volume_label.ljust(11).encode("ascii")` */
  function LabelBytes(volume: string): (raw: Alias)
    requires ValidLabel(volume)
    ensures 0x20 <= raw[0] <= 0x7E
  {
    var text := LJust(volume, 11);
    assert forall i :: 0 <= i < |volume| ==> text[i] == volume[i] && volume[i] in volume;
    Ascii(text)
  }

  function DotRaw(n: nat): Alias
    requires n <= 11
  {
    Repeat<byte>(0x2E, n) + Repeat<byte>(0x20, 11 - n)
  }

  /** A directory as its node and its children describe it. */
  datatype Listing = Listing(root: bool, volume: string, first: nat, parent: nat, children: seq<Child>)

  ghost predicate ValidListing(d: Listing)
  {
    && ValidLabel(d.volume) && d.first < 0x1_0000_0000 && d.parent < 0x1_0000_0000
    && (forall i :: 0 <= i < |d.children| ==> ValidChild(d.children[i]))
    && (forall i, j :: 0 <= i < j < |d.children| ==> d.children[i].name != d.children[j].name)
  }

  predicate Packable(d: Listing)
  {
    && ValidLabel(d.volume) && d.first < 0x1_0000_0000 && d.parent < 0x1_0000_0000
    && forall i :: 0 <= i < |d.children| ==> PackableChild(d.children[i])
  }

  function HeaderRecords(d: Listing): seq<Record>
    requires Packable(d)
  {
    if d.root then [ShortEntry(LabelBytes(d.volume), ATTR_VOLUME, 0, 0)]
    else [ShortEntry(DotRaw(1), ATTR_DIRECTORY, d.first, 0), ShortEntry(DotRaw(2), ATTR_DIRECTORY, d.parent, 0)]
  }

  function ChildrenRecords(cs: seq<Child>): seq<Record>
    requires forall i :: 0 <= i < |cs| ==> PackableChild(cs[i])
  {
    if cs == [] then []
    else
      var n := |cs| - 1;
      assert PackableChild(cs[n]);
      ChildrenRecords(cs[..n]) + ChildRecords(cs[n])
  }

  function Records(d: Listing): seq<Record>
    requires Packable(d)
  {
    HeaderRecords(d) + ChildrenRecords(d.children)
  }

  /** `b"".join(entries)` */
  function Flatten(rs: seq<Record>): (bs: seq<byte>)
    ensures |bs| == 32 * |rs|
  {
    if rs == [] then []
    else
      var n := |rs| - 1;
      Flatten(rs[..n]) + rs[n]
  }

  /** The directory padded to its clusters. */
  function DirectoryBytes(d: Listing, space: nat): (bs: seq<byte>)
    requires Packable(d) && 32 * |Records(d)| <= space
    ensures |bs| == space
  {
    var data := Flatten(Records(d));
    data + Zeros(space - |data|)
  }

  method MakeChildrenRecords(cs: seq<Child>) returns (rs: seq<Record>)
    requires forall i :: 0 <= i < |cs| ==> PackableChild(cs[i])
    ensures rs == ChildrenRecords(cs)
  {
    hide ShortEntry, LfnEntries, EncodeUtf16;
    rs := [];
    for i := 0 to |cs|
      invariant rs == ChildrenRecords(cs[..i])
    {
      assert cs[..i + 1][..i] == cs[..i];
      assert PackableChild(cs[i]);
      var lfn: seq<Record> := [];
      if cs[i].lfn {
        lfn := MakeLfnEntries(cs[i].name, cs[i].raw);
      }
      rs := rs + (lfn + [ShortEntry(cs[i].raw, cs[i].attr, cs[i].first, cs[i].size)]);
    }
    assert cs[..|cs|] == cs;
  }

  method JoinRecords(rs: seq<Record>) returns (bs: seq<byte>)
    ensures bs == Flatten(rs)
  {
    bs := [];
    for i := 0 to |rs|
      invariant bs == Flatten(rs[..i])
    {
      assert rs[..i + 1][..i] == rs[..i];
      bs := bs + rs[i];
    }
    assert rs[..|rs|] == rs;
  }

  /** `_directory_data`: `None` is the assertion about the cluster calculation. */
  method DirectoryData(d: Listing, space: nat) returns (r: Option<seq<byte>>)
    requires Packable(d)
    ensures r.Some? <==> 32 * |Records(d)| <= space
    ensures r.Some? ==> r.value == DirectoryBytes(d, space)
  {
    var children := MakeChildrenRecords(d.children);
    var data := JoinRecords(HeaderRecords(d) + children);
    if |data| > space { return None; }
    return Some(data + Zeros(space - |data|));
  }

  // ----- reading -----

  /** `data[lo:hi]` with Python's clamping. */
  function Slice(data: seq<byte>, lo: nat, hi: nat): (s: seq<byte>)
    ensures lo <= hi <= |data| ==> s == data[lo..hi]
  {
    if lo <= hi <= |data| then data[lo..hi] else if lo <= |data| then data[lo..] else []
  }

  /** A final entry shorter than 32 bytes either ends the scan or raises. */
  predicate ShortTailReads(entry: seq<byte>)
    requires entry != []
  {
    entry[0] == 0 || entry[0] == 0xE5 || (|entry| > 11 && entry[11] != ATTR_LFN && entry[11] / 8 % 2 == 1)
  }

  function ScanBytes(data: seq<byte>, at: nat, s: Scan): Option<map<string, Info>>
    decreases |data| - at
  {
    if at >= |data| then Some(s.result)
    else if at + 32 > |data| then if ShortTailReads(data[at..]) then Some(s.result) else None
    else if data[at] == 0 then Some(s.result)
    else
      var next := Step(s, data[at..at + 32]);
      if next.None? then None else ScanBytes(data, at + 32, next.value)
  }

  method ScanDirectory(data: seq<byte>) returns (r: Option<map<string, Info>>)
    ensures r == ScanBytes(data, 0, Scan(map[], map[]))
  {
    var s := Scan(map[], map[]);
    var at := 0;
    while at < |data|
      invariant ScanBytes(data, 0, Scan(map[], map[])) == ScanBytes(data, at, s)
    {
      var entry := Slice(data, at, at + 32);
      if |entry| < 32 {
        assert entry == data[at..];
        return if ShortTailReads(entry) then Some(s.result) else None;
      }
      if entry[0] == 0 { break; }
      var next := Step(s, entry);
      if next.None? { return None; }
      s := next.value;
      at := at + 32;
    }
    return Some(s.result);
  }

  // ----- a written directory reads back -----

  lemma {:induction false} FlattenAt(rs: seq<Record>, i: nat)
    requires i < |rs|
    ensures Flatten(rs)[32 * i..32 * i + 32] == rs[i]
  {
    var n := |rs| - 1;
    if i < n {
      FlattenAt(rs[..n], i);
      assert Flatten(rs)[32 * i..32 * i + 32] == Flatten(rs[..n])[32 * i..32 * i + 32];
    }
  }

  lemma {:induction false} RecordAt(rs: seq<Record>, data: seq<byte>, i: nat)
    requires i < |rs| && 32 * |rs| <= |data| && data[..32 * |rs|] == Flatten(rs)
    ensures data[32 * i..32 * i + 32] == rs[i] && data[32 * i] == rs[i][0]
  {
    var front, at := data[..32 * |rs|], 32 * i;
    FlattenAt(rs, i);
    hide Flatten;
    assert front[at..at + 32] == rs[i];
    assert data[at..at + 32] == front[at..at + 32];
    assert data[at] == data[at..at + 32][0];
  }

  /** Scanning the padded bytes is running the entries. */
  lemma {:induction false} ScanIsRun(rs: seq<Record>, data: seq<byte>, i: nat, s: Scan)
    requires i <= |rs| && 32 * |rs| <= |data| && |data| % 32 == 0
    requires data[..32 * |rs|] == Flatten(rs) && forall k :: 32 * |rs| <= k < |data| ==> data[k] == 0
    requires forall k :: 0 <= k < |rs| ==> rs[k][0] != 0
    ensures ScanBytes(data, 32 * i, s) == (var e := Run(rs[i..], s); if e.None? then None else Some(e.value.result))
    decreases |rs| - i
  {
    hide Flatten, Step, Run, ScanBytes;
    if i < |rs| {
      RecordAt(rs, data, i);
      ScanOne(data, 32 * i, s, rs[i]);
      RunFrom(rs, i, s);
      var next := Step(s, rs[i]);
      if next.Some? { ScanIsRun(rs, data, i + 1, next.value); }
    } else {
      ScanEnds(data, 32 * i, s);
      assert rs[i..] == [];
      RunNothing(s);
    }
  }

  lemma {:induction false} ScanOne(data: seq<byte>, at: nat, s: Scan, r: Record)
    requires at + 32 <= |data| && data[at..at + 32] == r && data[at] != 0
    ensures ScanBytes(data, at, s) ==
            (var next := Step(s, r); if next.None? then None else ScanBytes(data, at + 32, next.value))
  {
    hide Step;
  }

  lemma {:induction false} ScanEnds(data: seq<byte>, at: nat, s: Scan)
    requires |data| % 32 == 0 && at % 32 == 0 && (at < |data| ==> data[at] == 0)
    ensures ScanBytes(data, at, s) == Some(s.result)
  {
    hide Step;
  }

  lemma {:induction false} RunFrom(rs: seq<Record>, i: nat, s: Scan)
    requires i < |rs| && rs[i][0] != 0
    ensures Run(rs[i..], s) == (var next := Step(s, rs[i]); if next.None? then None else Run(rs[i + 1..], next.value))
  {
    assert rs[i..][0] == rs[i] && rs[i..][1..] == rs[i + 1..];
    hide Step;
  }

  lemma {:induction false} RunNothing(s: Scan)
    ensures Run([], s) == Some(s)
  {
  }

  function AddAll(result: map<string, Info>, cs: seq<Child>): map<string, Info>
    decreases |cs|
  {
    if cs == [] then result else AddAll(result[cs[0].name := InfoOf(cs[0])], cs[1..])
  }

  lemma {:induction false} ChildrenRecordsCons(cs: seq<Child>)
    requires cs != [] && forall i :: 0 <= i < |cs| ==> PackableChild(cs[i])
    ensures ChildrenRecords(cs) == ChildRecords(cs[0]) + ChildrenRecords(cs[1..])
  {
    hide ChildRecords, PackableChild;
    var n := |cs| - 1;
    if n > 0 {
      ChildrenRecordsCons(cs[..n]);
      assert cs[..n][1..] == cs[1..][..n - 1];
    } else {
      assert ChildrenRecords(cs[..0]) == [];
    }
  }

  lemma {:induction false} RunChildren(cs: seq<Child>, result: map<string, Info>)
    requires forall i :: 0 <= i < |cs| ==> ValidChild(cs[i]) && PackableChild(cs[i])
    ensures Run(ChildrenRecords(cs), Scan(map[], result)) == Some(Scan(map[], AddAll(result, cs)))
  {
    if cs != [] {
      ChildrenRecordsCons(cs);
      ChildRoundTrip(cs[0], result, ChildrenRecords(cs[1..]));
      RunChildren(cs[1..], result[cs[0].name := InfoOf(cs[0])]);
    }
  }

  /** What `directory` finds before the children: nothing in the root, `.` and `..` elsewhere. */
  function HeaderResult(d: Listing): map<string, Info>
  {
    if d.root then map[]
    else map["." := Info(ATTR_DIRECTORY, d.first, 0), ".." := Info(ATTR_DIRECTORY, d.parent, 0)]
  }

  lemma {:induction false} DotName(n: nat)
    requires 1 <= n <= 2
    ensures EntryName(map[], DotRaw(n)) == Some(Repeat('.', n))
  {
    var raw := DotRaw(n);
    assert AsciiText(raw[..8]) == Repeat('.', n) + Repeat(' ', 8 - n);
    StripUndoesPadding(Repeat('.', n), 8 - n);
    assert AsciiText(raw[8..]) == [] + Repeat(' ', 3);
    StripUndoesPadding([], 3);
  }

  lemma {:induction false} RunDot(n: nat, first: nat, result: map<string, Info>, rest: seq<Record>)
    requires 1 <= n <= 2 && first < 0x1_0000_0000
    ensures var r := ShortEntry(DotRaw(n), ATTR_DIRECTORY, first, 0);
            Run([r] + rest, Scan(map[], result)) ==
            Run(rest, Scan(map[], result[Repeat('.', n) := Info(ATTR_DIRECTORY, first, 0)]))
  {
    var c := Child(Repeat('.', n), DotRaw(n), false, ATTR_DIRECTORY, first, 0);
    DotName(n);
    ShortEntryRecords(c);
    RunShort(c, Scan(map[], result), ShortEntry(DotRaw(n), ATTR_DIRECTORY, first, 0), rest);
  }

  lemma {:induction false} RunLabel(volume: string, rest: seq<Record>)
    requires ValidLabel(volume)
    ensures Run([ShortEntry(LabelBytes(volume), ATTR_VOLUME, 0, 0)] + rest, Scan(map[], map[])) ==
            Run(rest, Scan(map[], map[]))
  {
    var r := ShortEntry(LabelBytes(volume), ATTR_VOLUME, 0, 0);
    assert r[0] == LabelBytes(volume)[0];
    RunOne(r, rest, Scan(map[], map[]), Scan(map[], map[]));
  }

  lemma {:induction false} RunHeader(d: Listing, rest: seq<Record>)
    requires Packable(d)
    ensures Run(HeaderRecords(d) + rest, Scan(map[], map[])) == Run(rest, Scan(map[], HeaderResult(d)))
  {
    if d.root {
      RunLabel(d.volume, rest);
    } else {
      var a, b := ShortEntry(DotRaw(1), ATTR_DIRECTORY, d.first, 0), ShortEntry(DotRaw(2), ATTR_DIRECTORY, d.parent, 0);
      assert HeaderRecords(d) + rest == [a] + ([b] + rest);
      var one := map["." := Info(ATTR_DIRECTORY, d.first, 0)];
      assert Repeat('.', 1) == "." && Repeat('.', 2) == "..";
      RunDot(1, d.first, map[], [b] + rest);
      RunDot(2, d.parent, one, rest);
      assert one[".." := Info(ATTR_DIRECTORY, d.parent, 0)] == HeaderResult(d);
    }
  }

  // ----- no entry ends the directory early -----

  ghost predicate Live(rs: seq<Record>) { forall k :: 0 <= k < |rs| ==> rs[k][0] != 0 }

  lemma {:induction false} LfnLive(us: seq<unit>, n: nat, checksum: byte, k: nat)
    requires |us| == 13 * n && k <= n <= 20
    ensures Live(LfnEntriesFrom(us, n, checksum, k))
  {
    hide PackUnits;
    if k > 0 {
      LfnLive(us, n, checksum, k - 1);
      assert LfnEntryFor(us, n, checksum, k)[0] != 0;
    }
  }

  lemma {:induction false} ChildLive(c: Child)
    requires ValidChild(c)
    ensures Live(ChildRecords(c))
  {
    var r := ShortEntry(c.raw, c.attr, c.first, c.size);
    assert r[0] == c.raw[0] && c.raw[0] in c.raw;
    LfnLive(PaddedUnits(c.name), LfnCount(c.name), Checksum(c.raw), LfnCount(c.name));
  }

  lemma {:induction false} ChildrenLive(cs: seq<Child>)
    requires forall i :: 0 <= i < |cs| ==> ValidChild(cs[i]) && PackableChild(cs[i])
    ensures Live(ChildrenRecords(cs))
  {
    if cs != [] {
      ChildrenLive(cs[..|cs| - 1]);
      ChildLive(cs[|cs| - 1]);
    }
  }

  lemma {:induction false} RecordsLive(d: Listing)
    requires ValidListing(d) && Packable(d)
    ensures Live(Records(d))
  {
    ChildrenLive(d.children);
    if d.root {
      assert ShortEntry(LabelBytes(d.volume), ATTR_VOLUME, 0, 0)[0] == LabelBytes(d.volume)[0];
    } else {
      assert ShortEntry(DotRaw(1), ATTR_DIRECTORY, d.first, 0)[0] == DotRaw(1)[0];
      assert ShortEntry(DotRaw(2), ATTR_DIRECTORY, d.parent, 0)[0] == DotRaw(2)[0];
    }
  }

  /** The reader recovers every child of a written directory, and nothing else. */
  lemma {:induction false} DirectoryReadsBack(d: Listing, space: nat)
    requires ValidListing(d) && Packable(d) && 32 * |Records(d)| <= space && space % 32 == 0
    ensures ScanBytes(DirectoryBytes(d, space), 0, Scan(map[], map[])) == Some(AddAll(HeaderResult(d), d.children))
  {
    var rs, data := Records(d), DirectoryBytes(d, space);
    RecordsLive(d);
    assert data[..32 * |rs|] == Flatten(rs);
    ScanIsRun(rs, data, 0, Scan(map[], map[]));
    assert rs[0..] == rs;
    RunHeader(d, ChildrenRecords(d.children));
    RunChildren(d.children, HeaderResult(d));
  }

  lemma {:induction false} AddAllFinds(result: map<string, Info>, cs: seq<Child>)
    requires forall i, j :: 0 <= i < j < |cs| ==> cs[i].name != cs[j].name
    ensures forall name :: name in AddAll(result, cs) <==>
              name in result || exists i :: 0 <= i < |cs| && cs[i].name == name
    ensures forall i :: 0 <= i < |cs| ==>
              cs[i].name in AddAll(result, cs) && AddAll(result, cs)[cs[i].name] == InfoOf(cs[i])
    ensures forall name :: name in result && (forall i :: 0 <= i < |cs| ==> cs[i].name != name) ==>
              name in AddAll(result, cs) && AddAll(result, cs)[name] == result[name]
    decreases |cs|
  {
    if cs != [] {
      var next := result[cs[0].name := InfoOf(cs[0])];
      AddAllFinds(next, cs[1..]);
      assert forall i :: 0 <= i < |cs| - 1 ==> cs[1..][i] == cs[i + 1];
      forall name
        ensures name in AddAll(result, cs) <==> name in result || exists i :: 0 <= i < |cs| && cs[i].name == name
      {
        if i :| 0 <= i < |cs| && cs[i].name == name {
          if i > 0 { assert cs[1..][i - 1].name == name; }
        }
      }
      forall i | 0 <= i < |cs|
        ensures cs[i].name in AddAll(result, cs) && AddAll(result, cs)[cs[i].name] == InfoOf(cs[i])
      {
        if i > 0 { assert cs[1..][i - 1] == cs[i]; }
      }
    }
  }
}
