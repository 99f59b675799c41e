/** `create_raw_image`: declared blobs at declared offsets, checked for overlap after sorting. */
module RawImage {
  import opened Bytes
  import opened Text
  import opened Regions
  import opened Disk

  /** A blob by offset and source path.  A source path names one file, so its bytes are looked up. */
  datatype Spot = Spot(offset: nat, source: string)

  /** The regular files that sources may name. */
  type Files = map<string, seq<byte>>

  /** A manifest entry; `None` stands for an offset that does not parse. */
  datatype Entry = Entry(source: string, offset: Option<nat>)

  // ----- the sort key (offset, str(source)) -----

  predicate KeyLe(a: Spot, b: Spot)
  {
    a.offset < b.offset || (a.offset == b.offset && LexLe(a.source, b.source))
  }

  lemma {:induction false} KeyOrder(a: Spot, b: Spot, c: Spot)
    ensures KeyLe(a, b) || KeyLe(b, a)
    ensures KeyLe(a, b) && KeyLe(b, a) ==> a == b
    ensures KeyLe(a, b) && KeyLe(b, c) ==> KeyLe(a, c)
  {
    LexTotal(a.source, b.source);
    if KeyLe(a, b) && KeyLe(b, a) { LexAntisymmetric(a.source, b.source); }
    if LexLe(a.source, b.source) && LexLe(b.source, c.source) { LexTransitive(a.source, b.source, c.source); }
  }

  ghost predicate Sorted(s: seq<Spot>) { forall i, j :: 0 <= i < j < |s| ==> KeyLe(s[i], s[j]) }

  function InsertSpot(x: Spot, s: seq<Spot>): (r: seq<Spot>)
    ensures multiset(r) == multiset(s) + multiset{x}
  {
    if s == [] || KeyLe(x, s[0]) then [x] + s
    else
      assert s == [s[0]] + s[1..];
      [s[0]] + InsertSpot(x, s[1..])
  }

  /** `blobs.sort(key=...)` */
  function Sort(s: seq<Spot>): (r: seq<Spot>)
    ensures multiset(r) == multiset(s)
  {
    if s == [] then []
    else
      assert s == [s[0]] + s[1..];
      InsertSpot(s[0], Sort(s[1..]))
  }

  lemma {:induction false} InsertSorts(x: Spot, s: seq<Spot>)
    requires Sorted(s)
    ensures Sorted(InsertSpot(x, s))
  {
    if s != [] {
      var r := InsertSpot(x, s);
      if KeyLe(x, s[0]) {
        forall j | 0 < j < |r| ensures KeyLe(r[0], r[j]) { KeyOrder(x, s[0], r[j]); }
      } else {
        KeyOrder(x, s[0], x);
        InsertSorts(x, s[1..]);
        var rest := InsertSpot(x, s[1..]);
        forall j | 0 <= j < |rest| ensures KeyLe(s[0], rest[j]) {
          assert rest[j] in multiset(rest);
          assert rest[j] == x || rest[j] in s[1..];
        }
      }
    }
  }

  lemma {:induction false} SortSorts(s: seq<Spot>)
    ensures Sorted(Sort(s))
  {
    if s != [] {
      SortSorts(s[1..]);
      InsertSorts(s[0], Sort(s[1..]));
    }
  }

  lemma {:induction false} Uncons<T>(s: seq<T>)
    requires s != []
    ensures multiset(s) == multiset(s[1..]) + multiset{s[0]} && s == [s[0]] + s[1..]
  {
    assert s == [s[0]] + s[1..];
  }

  lemma {:induction false} Cancel<T>(a: multiset<T>, b: multiset<T>, x: T)
    requires a + multiset{x} == b + multiset{x}
    ensures a == b
  {
    assert a == (a + multiset{x}) - multiset{x} && b == (b + multiset{x}) - multiset{x};
  }

  lemma {:induction false} TakeOut<T>(s: seq<T>, x: T) returns (left: seq<T>, right: seq<T>)
    requires x in multiset(s)
    ensures s == left + [x] + right && multiset(s) == multiset(left + right) + multiset{x}
  {
    var i :| 0 <= i < |s| && s[i] == x;
    left, right := s[..i], s[i + 1..];
    assert s == left + [x] + right;
  }

  lemma {:induction false} FirstIsLeast(a: seq<Spot>, x: Spot)
    requires Sorted(a) && x in a
    ensures a != [] && KeyLe(a[0], x)
  {
    var j :| 0 <= j < |a| && a[j] == x;
    KeyOrder(x, x, x);
  }

  /** Sorting is unique: the order of the list does not matter. */
  lemma {:induction false} SortedUnique(a: seq<Spot>, b: seq<Spot>)
    requires Sorted(a) && Sorted(b) && multiset(a) == multiset(b)
    ensures a == b
    decreases |a|
  {
    assert |a| == |multiset(a)| == |multiset(b)| == |b|;
    if a != [] {
      assert a[0] in multiset(b) && b[0] in multiset(a);
      FirstIsLeast(a, b[0]);
      FirstIsLeast(b, a[0]);
      KeyOrder(a[0], b[0], a[0]);
      Uncons(a);
      Uncons(b);
      Cancel(multiset(a[1..]), multiset(b[1..]), a[0]);
      SortedUnique(a[1..], b[1..]);
    }
  }

  // ----- acceptance -----

  function Length(files: Files, x: Spot): nat { if x.source in files then |files[x.source]| else 0 }

  function End(files: Files, x: Spot): nat { x.offset + Length(files, x) }

  predicate EntryOk(files: Files, e: Entry, total: int)
  {
    e.source in files && e.offset.Some? && e.offset.value + |files[e.source]| <= total
  }

  predicate EntriesOk(files: Files, entries: seq<Entry>, total: int)
  {
    forall i :: 0 <= i < |entries| ==> EntryOk(files, entries[i], total)
  }

  function SpotOf(e: Entry): Spot { Spot(if e.offset.Some? then e.offset.value else 0, e.source) }

  function Spots(entries: seq<Entry>): (r: seq<Spot>)
    ensures |r| == |entries| && forall i :: 0 <= i < |r| ==> r[i] == SpotOf(entries[i])
  {
    seq(|entries|, i requires 0 <= i < |entries| => SpotOf(entries[i]))
  }

  /** Neighbours in sorted order do not overlap. */
  predicate Neighbours(files: Files, s: seq<Spot>)
  {
    forall i :: 0 < i < |s| ==> End(files, s[i - 1]) <= s[i].offset
  }

  // ----- what the neighbour check decides -----

  predicate Apart(files: Files, x: Spot, y: Spot) { End(files, x) <= y.offset || End(files, y) <= x.offset }

  /** An empty blob at the offset of a non-empty one, sorted behind it. */
  predicate EmptyBehind(files: Files, x: Spot, y: Spot)
  {
    x.offset == y.offset && Length(files, x) > 0 && Length(files, y) == 0 && LexLe(x.source, y.source)
  }

  predicate PairOk(files: Files, x: Spot, y: Spot)
  {
    Apart(files, x, y) && !EmptyBehind(files, x, y) && !EmptyBehind(files, y, x)
  }

  ghost predicate AllPairs(s: seq<Spot>, ok: (Spot, Spot) -> bool)
  {
    forall i, j :: 0 <= i < j < |s| ==> ok(s[i], s[j])
  }

  lemma {:induction false} SortedPair(files: Files, x: Spot, y: Spot)
    requires KeyLe(x, y)
    ensures PairOk(files, x, y) <==> End(files, x) <= y.offset
  {
    if LexLe(y.source, x.source) && x.offset == y.offset { KeyOrder(x, y, x); }
  }

  /** Neighbours suffice: they clear every pair, however far apart. */
  lemma {:induction false} NeighboursClear(files: Files, s: seq<Spot>, i: nat, j: nat)
    requires Sorted(s) && Neighbours(files, s) && i < j < |s|
    ensures End(files, s[i]) <= s[j].offset
    decreases j - i
  {
    if i < j - 1 {
      NeighboursClear(files, s, i, j - 1);
      assert KeyLe(s[j - 1], s[j]);
    }
  }

  lemma {:induction false} NeighboursDecide(files: Files, s: seq<Spot>)
    requires Sorted(s)
    ensures Neighbours(files, s) <==> AllPairs(s, (x, y) => PairOk(files, x, y))
  {
    hide PairOk, End;
    var ok := (x, y) => PairOk(files, x, y);
    if Neighbours(files, s) {
      forall i, j | 0 <= i < j < |s| ensures ok(s[i], s[j]) {
        NeighboursClear(files, s, i, j);
        SortedPair(files, s[i], s[j]);
      }
    }
    if AllPairs(s, ok) {
      forall i | 0 < i < |s| ensures End(files, s[i - 1]) <= s[i].offset {
        assert ok(s[i - 1], s[i]) && KeyLe(s[i - 1], s[i]);
        SortedPair(files, s[i - 1], s[i]);
      }
    }
  }

  lemma {:induction false} TwoPlaces(s: seq<Spot>, x: Spot) returns (i: nat, j: nat)
    requires multiset(s)[x] >= 2
    ensures i < j < |s| && s[i] == s[j] == x
  {
    i :| i < |s| && s[i] == x;
    var rest := s[..i] + s[i + 1..];
    assert s == s[..i] + [x] + s[i + 1..];
    assert multiset(rest)[x] == multiset(s)[x] - 1;
    assert x in rest;
    var k: nat :| k < |rest| && rest[k] == x;
    j := if k < i then k else k + 1;
    if j < i { i, j := j, i; }
  }

  lemma {:induction false} TwiceAt(s: seq<Spot>, i: nat, j: nat)
    requires i < j < |s| && s[i] == s[j]
    ensures multiset(s)[s[i]] >= 2
  {
    assert s == s[..i] + [s[i]] + s[i + 1..j] + [s[j]] + s[j + 1..];
  }

  /** A symmetric property of all pairs does not depend on the order. */
  lemma {:induction false} PairsOrderFree(a: seq<Spot>, b: seq<Spot>, ok: (Spot, Spot) -> bool)
    requires multiset(a) == multiset(b) && AllPairs(a, ok) && forall x, y :: ok(x, y) <==> ok(y, x)
    ensures AllPairs(b, ok)
  {
    forall i, j | 0 <= i < j < |b| ensures ok(b[i], b[j]) {
      if b[i] == b[j] {
        TwiceAt(b, i, j);
        var k, l := TwoPlaces(a, b[i]);
        assert ok(a[k], a[l]);
      } else {
        assert b[i] in multiset(a) && b[j] in multiset(a);
        var k :| 0 <= k < |a| && a[k] == b[i];
        var l :| 0 <= l < |a| && a[l] == b[j];
        assert if k < l then ok(a[k], a[l]) else ok(a[l], a[k]);
      }
    }
  }

  lemma {:induction false} PairsSymmetric(files: Files)
    ensures forall x, y :: PairOk(files, x, y) <==> PairOk(files, y, x)
  {
  }

  // ----- the image -----

  function SpotRegions(files: Files, s: seq<Spot>): (rs: seq<Region>)
    requires forall i :: 0 <= i < |s| ==> s[i].source in files
    ensures |rs| == |s| && forall i :: 0 <= i < |s| ==> rs[i] == Region(s[i].offset, files[s[i].source])
  {
    seq(|s|, i requires 0 <= i < |s| => Region(s[i].offset, files[s[i].source]))
  }

  ghost predicate InBounds(files: Files, s: seq<Spot>, total: int)
  {
    forall i :: 0 <= i < |s| ==> s[i].source in files && s[i].offset + |files[s[i].source]| <= total
  }

  lemma {:induction false} BoundsOrderFree(files: Files, a: seq<Spot>, b: seq<Spot>, total: int)
    requires multiset(a) == multiset(b) && InBounds(files, a, total)
    ensures InBounds(files, b, total)
  {
    forall i | 0 <= i < |b| ensures b[i].source in files && b[i].offset + |files[b[i].source]| <= total {
      assert b[i] in multiset(a);
    }
  }

  lemma {:induction false} SpotsInBounds(files: Files, entries: seq<Entry>, total: int)
    requires EntriesOk(files, entries, total)
    ensures InBounds(files, Spots(entries), total)
    ensures InBounds(files, Sort(Spots(entries)), total)
  {
    var s := Spots(entries);
    forall i | 0 <= i < |s| ensures s[i].source in files && s[i].offset + |files[s[i].source]| <= total {
      assert EntryOk(files, entries[i], total);
    }
    BoundsOrderFree(files, s, Sort(s), total);
  }

  function RawBytes(files: Files, s: seq<Spot>, total: nat): (img: seq<byte>)
    requires InBounds(files, s, total)
    ensures |img| == total
  {
    WriteAll(Zeros(total), SpotRegions(files, s))
  }

  /** What the tool produces; `None` is any exception. */
  ghost function RawDisk(files: Files, entries: seq<Entry>, sizeMb: int): Option<seq<byte>>
  {
    var total := sizeMb * 1024 * 1024;
    if total <= 0 || !EntriesOk(files, entries, total) then None
    else
      var s := Sort(Spots(entries));
      SpotsInBounds(files, entries, total);
      if !Neighbours(files, s) then None else Some(RawBytes(files, s, total))
  }

  lemma {:induction false} SpotsAccepted(files: Files, entries: seq<Entry>, sizeMb: int)
    requires sizeMb > 0
    ensures RawDisk(files, entries, sizeMb).Some? <==>
            && EntriesOk(files, entries, sizeMb * 1024 * 1024)
            && AllPairs(Spots(entries), (x, y) => PairOk(files, x, y))
  {
    var total := sizeMb * 1024 * 1024;
    if EntriesOk(files, entries, total) {
      var s := Spots(entries);
      SpotsInBounds(files, entries, total);
      SortSorts(s);
      hide Sort, Spots, Sorted, Neighbours, RawBytes, EntriesOk;
      NeighboursDecide(files, Sort(s));
      PairsSymmetric(files);
      hide PairOk;
      if AllPairs(s, (x, y) => PairOk(files, x, y)) { PairsOrderFree(s, Sort(s), (x, y) => PairOk(files, x, y)); }
      if AllPairs(Sort(s), (x, y) => PairOk(files, x, y)) { PairsOrderFree(Sort(s), s, (x, y) => PairOk(files, x, y)); }
    }
  }

  /** The blobs of two entries, each given by offset, length and name, may stand together. */
  ghost predicate MayStand(at: nat, m: nat, a: string, at': nat, n: nat, b: string)
  {
    && (at + m <= at' || at' + n <= at)
    && (at == at' && m > 0 && n == 0 ==> !CodePointLe(a, b)) && (at == at' && n > 0 && m == 0 ==> !CodePointLe(b, a))
  }

  /** Every entry names a file and lies inside the image; no two overlap, and no empty blob is sorted
      behind a non-empty one at the same offset. */
  ghost predicate Acceptable(files: Files, entries: seq<Entry>, total: int)
  {
    && (forall i :: 0 <= i < |entries| ==>
          var e := entries[i];
          e.source in files && e.offset.Some? && e.offset.value + |files[e.source]| <= total)
    && forall i, j :: 0 <= i < j < |entries| ==>
         var a, b := entries[i], entries[j];
         MayStand(a.offset.value, |files[a.source]|, a.source, b.offset.value, |files[b.source]|, b.source)
  }

  lemma {:induction false} PairMayStand(files: Files, a: Entry, b: Entry)
    requires a.source in files && a.offset.Some? && b.source in files && b.offset.Some?
    ensures PairOk(files, SpotOf(a), SpotOf(b)) <==>
            MayStand(a.offset.value, |files[a.source]|, a.source, b.offset.value, |files[b.source]|, b.source)
  {
    LexIsCodePoint(a.source, b.source);
    LexIsCodePoint(b.source, a.source);
    hide LexLe, CodePointLe;
  }

  lemma {:induction false} PairsStand(files: Files, entries: seq<Entry>, total: int)
    requires EntriesOk(files, entries, total)
    ensures AllPairs(Spots(entries), (x, y) => PairOk(files, x, y)) <==>
            forall i, j :: 0 <= i < j < |entries| ==>
              var a, b := entries[i], entries[j];
              && a.source in files && a.offset.Some? && b.source in files && b.offset.Some?
              && MayStand(a.offset.value, |files[a.source]|, a.source, b.offset.value, |files[b.source]|, b.source)
  {
    var s := Spots(entries);
    hide PairOk, MayStand;
    assert forall i :: 0 <= i < |entries| ==> EntryOk(files, entries[i], total) && s[i] == SpotOf(entries[i]);
    hide Spots, SpotOf;
    forall i, j | 0 <= i < j < |s|
      ensures var a, b := entries[i], entries[j];
              PairOk(files, s[i], s[j]) <==>
              MayStand(a.offset.value, |files[a.source]|, a.source, b.offset.value, |files[b.source]|, b.source)
    {
      PairMayStand(files, entries[i], entries[j]);
    }
    assert AllPairs(s, (x, y) => PairOk(files, x, y)) <==>
           forall i, j :: 0 <= i < j < |s| ==> PairOk(files, s[i], s[j]);
  }

  /** Exactly which manifests are accepted. */
  lemma {:induction false} RawAccepts(files: Files, entries: seq<Entry>, sizeMb: int)
    ensures RawDisk(files, entries, sizeMb).Some? <==>
            sizeMb > 0 && Acceptable(files, entries, sizeMb * 1024 * 1024)
  {
    var total := sizeMb * 1024 * 1024;
    if sizeMb > 0 {
      SpotsAccepted(files, entries, sizeMb);
      assert EntriesOk(files, entries, total) <==>
             forall i :: 0 <= i < |entries| ==>
               var e := entries[i];
               e.source in files && e.offset.Some? && e.offset.value + |files[e.source]| <= total;
      hide RawDisk, MayStand, PairOk, Spots;
      if EntriesOk(files, entries, total) { PairsStand(files, entries, total); }
    }
  }

  /** Without empty blobs, the condition is disjointness. */
  lemma {:induction false} NonEmptyAccepts(files: Files, entries: seq<Entry>, sizeMb: int)
    requires sizeMb > 0
    requires forall i :: 0 <= i < |entries| && entries[i].source in files ==> files[entries[i].source] != []
    ensures RawDisk(files, entries, sizeMb).Some? <==>
            && (forall i :: 0 <= i < |entries| ==>
                  var e := entries[i];
                  && e.source in files && e.offset.Some?
                  && e.offset.value + |files[e.source]| <= sizeMb * 1024 * 1024)
            && forall i, j :: 0 <= i < j < |entries| ==>
                 var a, b := entries[i], entries[j];
                 || a.offset.value + |files[a.source]| <= b.offset.value
                 || b.offset.value + |files[b.source]| <= a.offset.value
  {
    hide RawDisk;
    RawAccepts(files, entries, sizeMb);
  }

  /** Disjointness alone is not enough when a blob is empty: the tie at offset 0 is broken by name. */
  lemma {:induction false} EmptyBlobRejected()
    ensures var files: Files := map["a" := [1], "b" := []];
            var entries := [Entry("a", Some(0)), Entry("b", Some(0))];
            && EntriesOk(files, entries, 1024 * 1024) && Apart(files, Spot(0, "a"), Spot(0, "b"))
            && RawDisk(files, entries, 1).None?
  {
    var files: Files := map["a" := [1], "b" := []];
    var entries := [Entry("a", Some(0)), Entry("b", Some(0))];
    var s := Spots(entries);
    hide RawDisk;
    SpotsAccepted(files, entries, 1);
    assert s[0] == Spot(0, "a") && s[1] == Spot(0, "b");
    assert "a"[0] < "b"[0] && LexLe("a", "b");
    assert EmptyBehind(files, s[0], s[1]);
    assert !((x, y) => PairOk(files, x, y))(s[0], s[1]);
  }

  // ----- reading the image -----

  lemma {:induction false} RegionsDisjoint(files: Files, s: seq<Spot>, total: nat)
    requires InBounds(files, s, total) && Sorted(s) && Neighbours(files, s)
    ensures Fits(total, SpotRegions(files, s)) && Disjoint(SpotRegions(files, s))
  {
    var rs := SpotRegions(files, s);
    forall i, j | 0 <= i < j < |rs| ensures Regions.Apart(rs[i], rs[j]) { NeighboursClear(files, s, i, j); }
  }

  ghost predicate Covers(files: Files, x: Spot, k: int)
  {
    x.source in files && x.offset <= k < x.offset + |files[x.source]|
  }

  lemma {:induction false} CoveredReads(files: Files, s: seq<Spot>, total: nat, k: nat, i: nat)
    requires InBounds(files, s, total) && Sorted(s) && Neighbours(files, s) && k < total
    requires i < |s| && Covers(files, s[i], k)
    ensures RawBytes(files, s, total)[k] == files[s[i].source][k - s[i].offset]
  {
    RegionsDisjoint(files, s, total);
    var rs := SpotRegions(files, s);
    hide WriteAll, Disjoint, Sorted, Neighbours, Fits;
    DisjointReadsBack(Zeros(total), rs, i);
    assert WriteAll(Zeros(total), rs)[rs[i].at..rs[i].End()][k - rs[i].at] == rs[i].data[k - rs[i].at];
  }

  lemma {:induction false} UncoveredReads(files: Files, s: seq<Spot>, total: nat, k: nat)
    requires InBounds(files, s, total) && k < total && forall x :: x in s ==> !Covers(files, x, k)
    ensures RawBytes(files, s, total)[k] == 0
  {
    var rs, blank := SpotRegions(files, s), Zeros(total);
    forall i | 0 <= i < |rs| ensures k + 1 <= rs[i].at || rs[i].End() <= k { assert !Covers(files, s[i], k); }
    hide WriteAll;
    Untouched(blank, rs, k, k + 1);
    assert WriteAll(blank, rs)[k..k + 1][0] == blank[k..k + 1][0];
  }

  lemma {:induction false} SortedReads(files: Files, s: seq<Spot>, total: nat, k: nat)
    requires InBounds(files, s, total) && Sorted(s) && Neighbours(files, s) && k < total
    ensures forall x :: x in s && Covers(files, x, k) ==> RawBytes(files, s, total)[k] == files[x.source][k - x.offset]
    ensures (forall x :: x in s ==> !Covers(files, x, k)) ==> RawBytes(files, s, total)[k] == 0
  {
    hide RawBytes, Sorted, Neighbours;
    forall x | x in s && Covers(files, x, k) ensures RawBytes(files, s, total)[k] == files[x.source][k - x.offset] {
      var i :| 0 <= i < |s| && s[i] == x;
      CoveredReads(files, s, total, k, i);
    }
    if forall x :: x in s ==> !Covers(files, x, k) { UncoveredReads(files, s, total, k); }
  }

  lemma {:induction false} SpotsRead(files: Files, entries: seq<Entry>, sizeMb: int, k: nat)
    requires RawDisk(files, entries, sizeMb).Some? && k < sizeMb * 1024 * 1024
    ensures EntriesOk(files, entries, sizeMb * 1024 * 1024)
    ensures |RawDisk(files, entries, sizeMb).value| == sizeMb * 1024 * 1024
    ensures var s := Spots(entries); var img := RawDisk(files, entries, sizeMb).value;
            && (forall x :: x in s && Covers(files, x, k) ==> img[k] == files[x.source][k - x.offset])
            && ((forall x :: x in s ==> !Covers(files, x, k)) ==> img[k] == 0)
  {
    var total := sizeMb * 1024 * 1024;
    var s := Spots(entries);
    SpotsInBounds(files, entries, total);
    SortSorts(s);
    var t := Sort(s);
    hide Sort, Spots, Sorted, Neighbours, RawBytes, EntriesOk, Covers;
    SortedReads(files, t, total, k);
    forall x ensures x in s <==> x in t { assert x in multiset(s) <==> x in multiset(t); }
  }

  /** The image: its length, and byte `k`, which comes from the blob that covers it or is zero. */
  lemma {:induction false} RawReads(files: Files, entries: seq<Entry>, sizeMb: int, k: nat)
    requires RawDisk(files, entries, sizeMb).Some?
    ensures |RawDisk(files, entries, sizeMb).value| == sizeMb * 1024 * 1024
    ensures forall i :: 0 <= i < |entries| ==> entries[i].source in files && entries[i].offset.Some?
    ensures k < sizeMb * 1024 * 1024 ==>
              var img := RawDisk(files, entries, sizeMb).value;
              && (forall i :: 0 <= i < |entries| && At(files, entries[i], k) ==>
                    img[k] == files[entries[i].source][k - entries[i].offset.value])
              && ((forall i :: 0 <= i < |entries| ==> !At(files, entries[i], k)) ==> img[k] == 0)
  {
    var total := sizeMb * 1024 * 1024;
    if k < total {
      SpotsRead(files, entries, sizeMb, k);
      var s := Spots(entries);
      assert forall i :: 0 <= i < |entries| ==> EntryOk(files, entries[i], total);
      assert forall i :: 0 <= i < |s| ==> s[i] in s && (Covers(files, s[i], k) <==> At(files, entries[i], k));
      hide RawDisk, Spots;
    } else {
      SpotsRead(files, entries, sizeMb, 0);
      assert forall i :: 0 <= i < |entries| ==> EntryOk(files, entries[i], total);
    }
  }

  /** The blob of an entry covers byte `k`. */
  ghost predicate At(files: Files, e: Entry, k: int)
  {
    e.source in files && e.offset.Some? && e.offset.value <= k < e.offset.value + |files[e.source]|
  }

  /** The manifest's order does not matter. */
  lemma {:induction false} RawOrderFree(files: Files, a: seq<Entry>, b: seq<Entry>, sizeMb: int)
    requires multiset(a) == multiset(b)
    ensures RawDisk(files, a, sizeMb) == RawDisk(files, b, sizeMb)
  {
    var total := sizeMb * 1024 * 1024;
    if EntriesOk(files, a, total) { EntriesOrderFree(files, a, b, total); }
    if EntriesOk(files, b, total) { EntriesOrderFree(files, b, a, total); }
    hide EntriesOk, Sort, Spots, Neighbours, RawBytes;
    var s, t := Spots(a), Spots(b);
    SpotsMatch(a, b);
    SortSorts(s);
    SortSorts(t);
    SortedUnique(Sort(s), Sort(t));
  }

  lemma {:induction false} EntriesOrderFree(files: Files, a: seq<Entry>, b: seq<Entry>, total: int)
    requires multiset(a) == multiset(b) && EntriesOk(files, a, total)
    ensures EntriesOk(files, b, total)
  {
    forall i | 0 <= i < |b| ensures EntryOk(files, b[i], total) { assert b[i] in multiset(a); }
  }

  lemma {:induction false} SpotsSplit(x: seq<Entry>, e: Entry, y: seq<Entry>)
    ensures multiset(Spots(x + [e] + y)) == multiset(Spots(x + y)) + multiset{SpotOf(e)}
  {
    hide SpotOf;
    assert Spots(x + [e] + y) == Spots(x) + [SpotOf(e)] + Spots(y);
    assert Spots(x + y) == Spots(x) + Spots(y);
  }

  lemma {:induction false} SpotsCons(a: seq<Entry>)
    requires a != []
    ensures multiset(Spots(a)) == multiset(Spots(a[1..])) + multiset{SpotOf(a[0])}
  {
    hide SpotOf;
    Uncons(Spots(a));
    assert Spots(a)[1..] == Spots(a[1..]);
  }

  lemma {:induction false} SpotsMatch(a: seq<Entry>, b: seq<Entry>)
    requires multiset(a) == multiset(b)
    ensures multiset(Spots(a)) == multiset(Spots(b))
    decreases |a|
  {
    hide Spots, SpotOf;
    assert |a| == |multiset(a)| == |multiset(b)| == |b|;
    if a == [] {
      assert b == [];
    } else {
      var e, rest := a[0], a[1..];
      Uncons(a);
      assert e in multiset(a);
      var left, right := TakeOut(b, e);
      Cancel(multiset(rest), multiset(left + right), e);
      SpotsMatch(rest, left + right);
      SpotsSplit(left, e, right);
      SpotsCons(a);
    }
  }

  // ----- the tool -----

  method CollectBlobs(files: Files, entries: seq<Entry>, total: int) returns (blobs: Option<seq<Spot>>)
    ensures blobs.Some? <==> EntriesOk(files, entries, total)
    ensures blobs.Some? ==> blobs.value == Spots(entries)
  {
    var out: seq<Spot> := [];
    for i := 0 to |entries|
      invariant |out| == i
      invariant forall k :: 0 <= k < i ==> EntryOk(files, entries[k], total) && out[k] == SpotOf(entries[k])
    {
      var e := entries[i];
      if e.source !in files || e.offset.None? || e.offset.value + |files[e.source]| > total {
        assert !EntryOk(files, entries[i], total);
        return None;
      }
      out := out + [Spot(e.offset.value, e.source)];
    }
    return Some(out);
  }

  method CheckNeighbours(files: Files, s: seq<Spot>) returns (ok: bool)
    requires forall i :: 0 <= i < |s| ==> s[i].source in files
    ensures ok <==> Neighbours(files, s)
  {
    if s == [] { return true; }
    for i := 1 to |s|
      invariant forall k :: 0 < k < i ==> End(files, s[k - 1]) <= s[k].offset
    {
      if s[i].offset < s[i - 1].offset + |files[s[i - 1].source]| { return false; }
    }
    return true;
  }

  method CreateRawImage(files: Files, entries: seq<Entry>, sizeMb: int) returns (r: Option<seq<byte>>)
    ensures r == RawDisk(files, entries, sizeMb)
  {
    var total := sizeMb * 1024 * 1024;
    if total <= 0 { return None; }
    var blobs := CollectBlobs(files, entries, total);
    if blobs.None? { return None; }
    SpotsInBounds(files, entries, total);
    hide Sort, Spots, EntriesOk, WriteAll;
    var s := Sort(blobs.value);
    var ok := CheckNeighbours(files, s);
    if !ok { return None; }
    var a := NewZeros(total);
    WriteRegions(a, SpotRegions(files, s));
    return Some(a[..]);
  }
}
