/** Two consequences for plain streams: the forbidden scanner of `_LegacyVerdict`, and exactly
    when a single-phase plan passes. */
module SerialScanners {
  import opened Bytes
  import opened Search
  import opened Serial
  import opened SerialRuns

  function Concat(chunks: seq<Data>): Data
  {
    if chunks == [] then [] else Concat(chunks[..|chunks| - 1]) + chunks[|chunks| - 1]
  }

  // ----- the forbidden part of _LegacyVerdict.feed -----

  /** The tail after a chunk without a hit; with single-byte markers the field is never written. */
  function NextTail(fs: seq<Data>, tail: Data, chunk: Data): Data
  {
    if Overlap(fs) > 0 then Suffix(tail + chunk, Overlap(fs)) else tail
  }

  class LegacyForbidden {
    const forbidden: seq<Data>
    const overlap: nat
    var tail: Data

    ghost predicate Valid() reads this { overlap == Overlap(forbidden) }

    constructor (fs: seq<Data>)
      ensures Valid() && forbidden == fs && tail == []
    {
      forbidden := fs;
      overlap := Overlap(fs);
      tail := [];
    }

    method Feed(chunk: Data) returns (hit: bool)
      requires Valid()
      modifies this
      ensures Valid() && hit == ContainsAny(forbidden, old(tail) + chunk)
      ensures tail == if hit then old(tail) else NextTail(forbidden, old(tail), chunk)
    {
      hide Contains;
      var window := tail + chunk;
      for i := 0 to |forbidden|
        invariant tail == old(tail)
        invariant forall j :: 0 <= j < i ==> !Contains(window, forbidden[j])
      {
        if Find(window, forbidden[i]) != -1 { return true; }
      }
      if overlap > 0 { tail := Suffix(window, overlap); }
      return false;
    }
  }

  /** The tail after a whole sequence of chunks, or `None` once a marker has been hit. */
  function Scan(fs: seq<Data>, chunks: seq<Data>): Option<Data>
  {
    if chunks == [] then Some([])
    else
      var n := |chunks| - 1;
      var before := Scan(fs, chunks[..n]);
      if before.None? || ContainsAny(fs, before.value + chunks[n]) then None
      else Some(NextTail(fs, before.value, chunks[n]))
  }

  lemma {:induction false} NextTailIsSuffix(fs: seq<Data>, all: Data, chunk: Data)
    ensures NextTail(fs, Suffix(all, Overlap(fs)), chunk) == Suffix(all + chunk, Overlap(fs))
  {
    SuffixOfSuffix(all, chunk, Overlap(fs), Overlap(fs));
  }

  /** The scanner keeps exactly the last `overlap` bytes, so however the stream is cut it hits
      if and only if the whole stream contains a forbidden marker. */
  lemma {:induction false} ScanIsExact(fs: seq<Data>, chunks: seq<Data>)
    requires forall i :: 0 <= i < |fs| ==> fs[i] != []
    ensures Scan(fs, chunks).None? <==> ContainsAny(fs, Concat(chunks))
    ensures Scan(fs, chunks).Some? ==> Scan(fs, chunks).value == Suffix(Concat(chunks), Overlap(fs))
  {
    hide ContainsAny, Suffix, NextTail, Overlap;
    if chunks == [] {
      EmptyStreamIsClean(fs);
      SuffixOfNothing(Overlap(fs));
    } else {
      var n := |chunks| - 1;
      var all := Concat(chunks[..n]);
      ScanIsExact(fs, chunks[..n]);
      if ContainsAny(fs, all) {
        ContainsAnyGrows(fs, all, all + chunks[n]);
      } else {
        ForbiddenInWindow(fs, all, chunks[n]);
        NextTailIsSuffix(fs, all, chunks[n]);
      }
    }
  }

  // ----- a single phase -----

  /** Where the leftmost match of all markers ends. */
  function MatchEnd(ms: seq<Data>, s: Data): nat { |s| - |Rest(ms, s)| }

  lemma {:induction false} RestReachesPast(ms: seq<Data>, r: Data, q: Data)
    requires ms != [] && !Contains(r, ms[0]) && Matched(ms, r + q) > 0
    ensures |Rest(ms, r + q)| < |q|
  {
    var m := ms[0];
    var i := Find(r + q, m);
    if i + |m| <= |r| { OccursPrefix(r, q, m, i); }
    hide Find, Contains, OccursAt;
    UnfoldMatched(ms, r + q, i);
  }

  /** A prefix embeds the markers exactly when it reaches the end of the leftmost match. */
  lemma {:induction false} PrefixEmbeds(ms: seq<Data>, p: Data, q: Data)
    requires Embeds(ms, p + q)
    ensures Embeds(ms, p) <==> MatchEnd(ms, p + q) <= |p|
  {
    GreedyIsComplete(ms, p);
    GreedyIsComplete(ms, p + q);
    MatchedGrows(ms, p, q);
    var k := Matched(ms, p);
    hide Matched, Rest, Embeds, Contains;
    if k == |ms| {
      assert ms[k..] == [];
      MatchedNone(Rest(ms, p) + q);
    } else {
      RestReachesPast(ms[k..], Rest(ms, p), q);
    }
  }

  // ----- any run of a single-phase plan -----

  /** Serial data, or a QMP event that concerns nobody here. */
  predicate Quiet(e: Event) { e.Chunk? || (e.Qmp? && !IsReset(e)) }

  predicate AllQuiet(es: seq<Event>) { forall i :: 0 <= i < |es| ==> Quiet(es[i]) }

  /** How many events come before the first reset, exit or deadline. */
  function QuietLength(es: seq<Event>): (n: nat)
    ensures n <= |es| && AllQuiet(es[..n]) && (n < |es| ==> !Quiet(es[n]))
  {
    if es == [] || !Quiet(es[0]) then 0
    else
      var n := QuietLength(es[1..]);
      QuietCons(es, n);
      n + 1
  }

  lemma {:induction false} QuietCons(es: seq<Event>, n: nat)
    requires n < |es| && Quiet(es[0]) && AllQuiet(es[1..][..n])
    ensures AllQuiet(es[..n + 1])
  {
    var a, b := es[..n + 1], es[1..][..n];
    hide Quiet;
    forall i | 0 <= i < |a| ensures Quiet(a[i]) {
      if i > 0 { assert a[i] == b[i - 1]; }
    }
  }

  lemma {:induction false} OnlyQuiet(es: seq<Event>)
    requires AllQuiet(es)
    ensures Orderly(es) && Segments(es) == [Stream(es)]
  {
    if es != [] { OnlyQuiet(es[..|es| - 1]); }
  }

  ghost predicate ReachesClean(c: Config, es: seq<Event>, k: int, e: nat)
  {
    0 <= k <= |es| && e <= |Stream(es[..k])| && !ContainsAny(c.forbidden, Stream(es[..k]))
  }

  lemma {:induction false} QuietPrefix(es: seq<Event>, k: nat)
    requires AllQuiet(es) && k <= |es|
    ensures AllQuiet(es[..k])
  {
    hide Quiet;
  }

  lemma {:induction false} OnePhase(c: Config, es: seq<Event>)
    requires |c.phases| == 1 && AllQuiet(es)
    ensures Accepts(c, es) <==> Embeds(c.phases[0].markers, Stream(es)) && !ContainsAny(c.forbidden, Stream(es))
  {
    OnlyQuiet(es);
    hide Embeds, ContainsAny, Stream, Segments, Orderly, AllQuiet;
  }

  lemma {:induction false} AcceptsPrefix(c: Config, es: seq<Event>, k: nat)
    requires |c.phases| == 1 && k <= |es| && AllQuiet(es)
    ensures var ms := c.phases[0].markers;
            Accepts(c, es[..k]) <==> Embeds(ms, Stream(es)) && ReachesClean(c, es, k, MatchEnd(ms, Stream(es)))
  {
    var ms, p, s := c.phases[0].markers, Stream(es[..k]), Stream(es);
    QuietPrefix(es, k);
    OnePhase(c, es[..k]);
    StreamGrows(es, k);
    var q := s[|p|..];
    assert s == p + q;
    hide Embeds, MatchEnd, ContainsAny, Stream, Accepts, AllQuiet;
    if Embeds(ms, p) { EmbedsGrows(ms, p, q); }
    if Embeds(ms, s) { PrefixEmbeds(ms, p, q); }
  }

  lemma {:induction false} ResetSplits(es: seq<Event>, n: nat, k: nat)
    requires n < k <= |es| && IsReset(es[n])
    ensures |Segments(es[..k])| >= 2
  {
    var upTo := es[..n + 1];
    assert upTo[..n] == es[..n] && es[..k][..n + 1] == upTo;
    assert |Segments(upTo)| >= 2 by { assert upTo[|upTo| - 1] == es[n]; }
    SegmentsSettle(es[..k], n + 1);
  }

  /** Nothing is accepted that includes a reset, an exit or a deadline. */
  lemma {:induction false} DisturbedFails(c: Config, es: seq<Event>, k: nat)
    requires |c.phases| == 1 && QuietLength(es) < k <= |es|
    ensures !Accepts(c, es[..k])
  {
    var n := QuietLength(es);
    var e := es[..k][n];
    assert e == es[n] && !Quiet(e);
    hide QuietLength, Embeds, ContainsAny, Stream;
    if IsReset(e) {
      ResetSplits(es, n, k);
      hide Segments;
    } else {
      hide Segments;
      assert Orderly(es[..k]) ==> e.Chunk? || e.Qmp?;
    }
  }

  /** A single-phase plan passes if and only if, in the events before any reset, exit or deadline, its
      markers occur in order, ending (leftmost) at `e`, and some chunk boundary at or after `e` comes
      before any forbidden marker is complete. */
  lemma {:induction false} SinglePhasePasses(c: Config, es: seq<Event>)
    requires ValidConfig(c) && |c.phases| == 1
    ensures var ms, q := c.phases[0].markers, es[..QuietLength(es)];
            Run(c, es).outcome == Pass <==>
            && Embeds(ms, Stream(q))
            && exists k :: 0 <= k <= |q| && ReachesClean(c, q, k, MatchEnd(ms, Stream(q)))
  {
    var ms, n := c.phases[0].markers, QuietLength(es);
    var q := es[..n];
    PassesIff(c, es);
    hide Run, ValidConfig, Embeds, MatchEnd, QuietLength, Accepts, ReachesClean, Stream, AllQuiet, Quiet;
    forall k | 0 <= k <= n
      ensures Accepts(c, es[..k]) <==> Embeds(ms, Stream(q)) && ReachesClean(c, q, k, MatchEnd(ms, Stream(q)))
    {
      assert q[..k] == es[..k];
      AcceptsPrefix(c, q, k);
    }
    forall k | n < k <= |es| ensures !Accepts(c, es[..k]) { DisturbedFails(c, es, k); }
  }
}
