/** Substring search, ordered matching and bounded suffixes of a byte stream. */
module Search {
  import opened Bytes

  predicate OccursAt(s: Data, m: Data, i: int) { 0 <= i && i + |m| <= |s| && s[i..i + |m|] == m }

  predicate Contains(s: Data, m: Data) { exists i :: 0 <= i <= |s| - |m| && OccursAt(s, m, i) }

  /** `s.find(m)`, from position `i` on. */
  function FindFrom(s: Data, m: Data, i: nat): (r: int)
    ensures r == -1 || i <= r
    ensures r >= 0 ==> OccursAt(s, m, r)
    ensures forall j :: i <= j && (r == -1 || j < r) ==> !OccursAt(s, m, j)
    decreases |s| - i
  {
    if i + |m| > |s| then -1 else if s[i..i + |m|] == m then i else FindFrom(s, m, i + 1)
  }

  function Find(s: Data, m: Data): (r: int)
    ensures r == -1 <==> !Contains(s, m)
    ensures r == -1 || 0 <= r <= |s| - |m|
    ensures r != -1 ==> OccursAt(s, m, r) && forall j :: OccursAt(s, m, j) ==> r <= j
  {
    var r := FindFrom(s, m, 0);
    assert r >= 0 ==> OccursAt(s, m, r) && Contains(s, m);
    r
  }

  lemma {:induction false} FindIs(s: Data, m: Data, i: nat)
    requires OccursAt(s, m, i) && forall j :: 0 <= j < i ==> !OccursAt(s, m, j)
    ensures Find(s, m) == i
  {
    assert Contains(s, m);
  }

  /** `s[-n:]`, with the empty string for `n == 0`. */
  function Suffix(s: Data, n: nat): (r: Data)
    ensures |r| == Min(n, |s|) && r == s[|s| - |r|..]
  {
    if n <= |s| then s[|s| - n..] else s
  }

  lemma {:induction false} OccursShift(s: Data, t: Data, m: Data, i: int)
    ensures OccursAt(s + t, m, |s| + i) && i >= 0 <==> OccursAt(t, m, i)
  {
    if i >= 0 && i + |m| <= |t| {
      assert (s + t)[|s| + i..|s| + i + |m|] == t[i..i + |m|];
    }
  }

  lemma {:induction false} OccursPrefix(s: Data, t: Data, m: Data, i: int)
    requires 0 <= i && i + |m| <= |s|
    ensures OccursAt(s + t, m, i) <==> OccursAt(s, m, i)
  {
    assert (s + t)[i..i + |m|] == s[i..i + |m|];
  }

  /** A suffix of length `|m| - 1` is all that a later occurrence of `m` can reach back into. */
  lemma {:induction false} OccursNearEnd(s: Data, d: Data, m: Data, n: nat, i: int)
    requires m != [] && !Contains(s, m) && n >= |m| - 1
    ensures OccursAt(s + d, m, i) ==> i >= |s| - |Suffix(s, n)|
    ensures OccursAt(s + d, m, i + |s| - |Suffix(s, n)|) && i >= 0 <==> OccursAt(Suffix(s, n) + d, m, i)
  {
    var b := Suffix(s, n);
    var a := s[..|s| - |b|];
    assert s + d == a + (b + d);
    OccursShift(a, b + d, m, i);
    if OccursAt(s + d, m, i) && i + |m| <= |s| { OccursPrefix(s, d, m, i); }
  }

  lemma {:induction false} ContainsAt(s: Data, m: Data, i: int)
    requires OccursAt(s, m, i)
    ensures Contains(s, m)
  {
  }

  lemma {:induction false} ContainsWindow(s: Data, d: Data, m: Data, n: nat)
    requires m != [] && !Contains(s, m) && n >= |m| - 1
    ensures Contains(s + d, m) <==> Contains(Suffix(s, n) + d, m)
  {
    hide Suffix;
    var b := Suffix(s, n);
    var k := |s| - |b|;
    if Contains(s + d, m) {
      var i :| 0 <= i <= |s + d| - |m| && OccursAt(s + d, m, i);
      hide OccursAt, Contains;
      OccursNearEnd(s, d, m, n, i);
      OccursNearEnd(s, d, m, n, i - k);
      ContainsAt(b + d, m, i - k);
    } else if Contains(b + d, m) {
      var i :| 0 <= i <= |b + d| - |m| && OccursAt(b + d, m, i);
      hide OccursAt, Contains;
      OccursNearEnd(s, d, m, n, i);
      ContainsAt(s + d, m, i + k);
    }
  }

  lemma {:induction false} SuffixOfSuffix(s: Data, d: Data, n: nat, k: nat)
    requires k <= n
    ensures Suffix(Suffix(s, n) + d, k) == Suffix(s + d, k)
  {
    var kept := Suffix(s, n);
    var lost := s[..|s| - |kept|];
    assert s + d == lost + (kept + d);
    hide Suffix;
    SuffixDrop(lost, kept + d, k);
  }

  lemma {:induction false} SuffixDrop(lost: Data, s: Data, k: nat)
    requires k <= |s| || lost == []
    ensures Suffix(lost + s, k) == Suffix(s, k)
  {
    if k <= |s| {
      assert (lost + s)[|lost| + |s| - k..] == s[|s| - k..];
    } else {
      assert lost + s == s;
    }
  }

  lemma {:induction false} ContainsGrows(s: Data, d: Data, m: Data)
    requires Contains(s, m)
    ensures Contains(s + d, m)
  {
    var i :| 0 <= i <= |s| - |m| && OccursAt(s, m, i);
    OccursPrefix(s, d, m, i);
  }

  // ----- ordered, non-overlapping occurrences -----

  /** The markers occur in `s` in order, without overlapping. */
  ghost predicate Embeds(ms: seq<Data>, s: Data)
    decreases |ms|
  {
    ms == [] || exists i :: OccursAt(s, ms[0], i) && Embeds(ms[1..], s[i + |ms[0]|..])
  }

  /** How many markers the leftmost strategy matches. */
  function Matched(ms: seq<Data>, s: Data): (k: nat)
    ensures k <= |ms|
    decreases |ms|
  {
    if ms == [] then 0
    else
      var i := Find(s, ms[0]);
      if i == -1 then 0 else 1 + Matched(ms[1..], s[i + |ms[0]|..])
  }

  /** What is left of `s` after those matches. */
  function Rest(ms: seq<Data>, s: Data): (r: Data)
    ensures |r| <= |s|
    decreases |ms|
  {
    if ms == [] then s
    else
      var i := Find(s, ms[0]);
      if i == -1 then s else Rest(ms[1..], s[i + |ms[0]|..])
  }

  lemma {:induction false} EmbedsEarlier(ms: seq<Data>, s: Data, j: nat)
    requires j <= |s| && Embeds(ms, s[j..])
    ensures Embeds(ms, s)
  {
    if ms != [] {
      var i :| OccursAt(s[j..], ms[0], i) && Embeds(ms[1..], s[j..][i + |ms[0]|..]);
      assert s == s[..j] + s[j..];
      OccursShift(s[..j], s[j..], ms[0], i);
      assert s[j..][i + |ms[0]|..] == s[j + i + |ms[0]|..];
      assert OccursAt(s, ms[0], j + i);
    }
  }

  /** The leftmost occurrence of the first marker comes no later than any embedding's. */
  lemma {:induction false} FirstBefore(ms: seq<Data>, s: Data) returns (i: nat, p: nat)
    requires ms != [] && Embeds(ms, s)
    ensures p <= i && i + |ms[0]| <= |s| && Find(s, ms[0]) == p && Embeds(ms[1..], s[i + |ms[0]|..])
  {
    i :| OccursAt(s, ms[0], i) && Embeds(ms[1..], s[i + |ms[0]|..]);
    assert Contains(s, ms[0]);
    p := Find(s, ms[0]);
  }

  lemma {:induction false} GreedyFinds(ms: seq<Data>, s: Data)
    requires Embeds(ms, s)
    ensures Matched(ms, s) == |ms|
    decreases |ms|
  {
    if ms != [] {
      var i, p := FirstBefore(ms, s);
      hide Find, Matched, Embeds, OccursAt;
      var m := |ms[0]|;
      assert s[p + m..][i - p..] == s[i + m..];
      EmbedsEarlier(ms[1..], s[p + m..], i - p);
      GreedyFinds(ms[1..], s[p + m..]);
      UnfoldMatched(ms, s, p);
    }
  }

  lemma {:induction false} GreedyEmbeds(ms: seq<Data>, s: Data)
    requires Matched(ms, s) == |ms|
    ensures Embeds(ms, s)
    decreases |ms|
  {
    hide FindFrom;
    if ms != [] {
      var p := Find(s, ms[0]);
      GreedyEmbeds(ms[1..], s[p + |ms[0]|..]);
      assert OccursAt(s, ms[0], p);
    }
  }

  /** Leftmost matching succeeds exactly when some matching exists. */
  lemma {:induction false} GreedyIsComplete(ms: seq<Data>, s: Data)
    ensures Embeds(ms, s) <==> Matched(ms, s) == |ms|
  {
    if Embeds(ms, s) { GreedyFinds(ms, s); }
    if Matched(ms, s) == |ms| { GreedyEmbeds(ms, s); }
  }

  lemma {:induction false} EmbedsGrows(ms: seq<Data>, s: Data, d: Data)
    requires Embeds(ms, s)
    ensures Embeds(ms, s + d)
    decreases |ms|
  {
    if ms != [] {
      var i :| OccursAt(s, ms[0], i) && Embeds(ms[1..], s[i + |ms[0]|..]);
      OccursPrefix(s, d, ms[0], i);
      EmbedsGrows(ms[1..], s[i + |ms[0]|..], d);
      assert (s + d)[i + |ms[0]|..] == s[i + |ms[0]|..] + d;
      assert OccursAt(s + d, ms[0], i);
    }
  }

  lemma {:induction false} FindGrows(s: Data, d: Data, m: Data)
    requires Find(s, m) != -1
    ensures Find(s + d, m) == Find(s, m)
  {
    var i := Find(s, m);
    OccursPrefix(s, d, m, i);
    forall j | 0 <= j < i ensures !OccursAt(s + d, m, j) { OccursPrefix(s, d, m, j); }
    FindIs(s + d, m, i);
  }

  ghost predicate Resumes(ms: seq<Data>, s: Data, d: Data, k: nat)
    requires k <= |ms|
  {
    && Matched(ms, s + d) == k + Matched(ms[k..], Rest(ms, s) + d)
    && Rest(ms, s + d) == Rest(ms[k..], Rest(ms, s) + d)
    && (k < |ms| ==> !Contains(Rest(ms, s), ms[k]))
  }

  lemma {:induction false} UnfoldMatched(ms: seq<Data>, s: Data, i: nat)
    requires ms != [] && Find(s, ms[0]) == i
    ensures i + |ms[0]| <= |s|
    ensures Matched(ms, s) == 1 + Matched(ms[1..], s[i + |ms[0]|..]) && Rest(ms, s) == Rest(ms[1..], s[i + |ms[0]|..])
  {
    hide Find, Contains, OccursAt;
  }

  /** Where leftmost matching stops on `s`, it resumes on `s + d`. */
  lemma {:induction false} MatchedGrows(ms: seq<Data>, s: Data, d: Data)
    ensures Resumes(ms, s, d, Matched(ms, s))
    decreases |ms|
  {
    hide Find, Contains, OccursAt, FindFrom;
    if ms == [] {
      assert ms[0..] == ms;
    } else if Find(s, ms[0]) == -1 {
      assert ms[0..] == ms && Matched(ms, s) == 0 && Rest(ms, s) == s;
    } else {
      var i := Find(s, ms[0]);
      var t, tail := s[i + |ms[0]|..], ms[1..];
      FindGrows(s, d, ms[0]);
      UnfoldMatched(ms, s, i);
      UnfoldMatched(ms, s + d, i);
      assert (s + d)[i + |ms[0]|..] == t + d;
      MatchedGrows(tail, t, d);
      var k := Matched(tail, t);
      assert tail[k..] == ms[k + 1..];
      assert k < |tail| ==> tail[k] == ms[k + 1];
      hide Matched, Rest;
    }
  }

  /** Dropping all but the last `|m| - 1` bytes before the search does not change it. */
  lemma {:induction false} FindInWindow(s: Data, d: Data, m: Data)
    requires m != [] && !Contains(s, m)
    ensures var b := Suffix(s, |m| - 1);
            Find(s + d, m) == (if Find(b + d, m) == -1 then -1 else Find(b + d, m) + |s| - |b|)
  {
    var n := |m| - 1;
    var b := Suffix(s, n);
    hide Suffix, OccursAt, Contains;
    ContainsWindow(s, d, m, n);
    var i := Find(b + d, m);
    hide Find;
    if i != -1 {
      OccursNearEnd(s, d, m, n, i);
      NoneEarlier(s, d, m, n, i);
      FindIs(s + d, m, i + |s| - |b|);
    }
  }

  lemma {:induction false} NoneEarlier(s: Data, d: Data, m: Data, n: nat, i: nat)
    requires m != [] && !Contains(s, m) && n >= |m| - 1
    requires forall j :: OccursAt(Suffix(s, n) + d, m, j) ==> i <= j
    ensures forall j :: 0 <= j < i + |s| - |Suffix(s, n)| ==> !OccursAt(s + d, m, j)
  {
    hide Suffix, OccursAt, Contains;
    forall j | 0 <= j < i + |s| - |Suffix(s, n)| ensures !OccursAt(s + d, m, j) {
      OccursNearEnd(s, d, m, n, j);
      OccursNearEnd(s, d, m, n, j - (|s| - |Suffix(s, n)|));
    }
  }

  lemma {:induction false} UnmatchedRest(ms: seq<Data>, s: Data)
    requires ms != [] && Find(s, ms[0]) == -1
    ensures Matched(ms, s) == 0 && Rest(ms, s) == s
  {
  }

  lemma {:induction false} SameMatch(ms: seq<Data>, x: Data, y: Data, k: nat)
    requires ms != [] && k <= |y| && y[k..] == x
    requires Find(y, ms[0]) == if Find(x, ms[0]) == -1 then -1 else Find(x, ms[0]) + k
    ensures Matched(ms, x) == Matched(ms, y)
    ensures Matched(ms, y) == 0 ==> Rest(ms, y) == y && Rest(ms, x) == x
    ensures Matched(ms, y) > 0 ==> Rest(ms, x) == Rest(ms, y)
  {
    hide Find, Contains, OccursAt;
    var i := Find(x, ms[0]);
    if i == -1 {
      UnmatchedRest(ms, x);
      UnmatchedRest(ms, y);
    } else {
      UnfoldMatched(ms, x, i);
      UnfoldMatched(ms, y, i + k);
      assert x[i + |ms[0]|..] == y[i + k + |ms[0]|..];
    }
    hide Matched, Rest;
  }

  /** The same for a whole list of markers. */
  lemma {:induction false} MatchedInWindow(ms: seq<Data>, s: Data, d: Data)
    requires ms != [] && ms[0] != [] && !Contains(s, ms[0])
    ensures var b := Suffix(s, |ms[0]| - 1);
            && Matched(ms, b + d) == Matched(ms, s + d)
            && (Matched(ms, s + d) == 0 ==> Rest(ms, s + d) == s + d && Rest(ms, b + d) == b + d)
            && (Matched(ms, s + d) > 0 ==> Rest(ms, b + d) == Rest(ms, s + d))
  {
    var b := Suffix(s, |ms[0]| - 1);
    FindInWindow(s, d, ms[0]);
    assert (s + d)[|s| - |b|..] == b + d;
    hide Find, Contains, OccursAt, FindFrom, Suffix, Matched, Rest;
    SameMatch(ms, b + d, s + d, |s| - |b|);
  }
}
