/** What a run of the serial assertion machine means: the bounded-buffer machine refines
    matching over whole byte streams. */
module SerialRuns {
  import opened Bytes
  import opened Search
  import opened Serial

  // ----- runs -----

  datatype Event =
    | Chunk(data: Data)
    | Qmp(name: string, guest: Option<bool>, reason: Option<string>)
    | Exited
    | Deadline

  predicate IsReset(e: Event) { e.Qmp? && e.name == "RESET" }

  predicate GuestReset(e: Event) { e.Qmp? && (e.guest == Some(true) || e.reason == Some("guest-reset")) }

  function Step(c: Config, s: State, e: Event): State
    requires ValidState(c, s)
  {
    match e
    case Chunk(data) => Feed(c, s, data)
    case Qmp(_, guest, reason) => if IsReset(e) then HandleReset(c, s, guest, reason) else s
    case Exited => Stop(s)
    case Deadline => Stop(s)
  }

  lemma {:induction false} StepKeepsValid(c: Config, s: State, e: Event)
    requires ValidState(c, s)
    ensures ValidState(c, Step(c, s, e))
  {
    if e.Chunk? { FeedKeepsValid(c, s, e.data); }
    if s.phase + 1 < |c.phases| { assert ValidPhase(c.phases[s.phase + 1], s.phase + 1 == |c.phases| - 1); }
    hide Feed;
  }

  lemma {:induction false} InitialIsValid(c: Config)
    requires ValidConfig(c)
    ensures ValidState(c, INITIAL)
  {
    assert ValidPhase(c.phases[0], 0 == |c.phases| - 1);
  }

  function Run(c: Config, es: seq<Event>): (s: State)
    requires ValidConfig(c)
    ensures ValidState(c, s)
  {
    InitialIsValid(c);
    if es == [] then INITIAL
    else
      var n := |es| - 1;
      StepKeepsValid(c, Run(c, es[..n]), es[n]);
      Step(c, Run(c, es[..n]), es[n])
  }

  // ----- the specification, over whole streams -----

  /** All serial bytes of a run. */
  function Stream(es: seq<Event>): Data
  {
    if es == [] then []
    else
      var n := |es| - 1;
      if es[n].Chunk? then Stream(es[..n]) + es[n].data else Stream(es[..n])
  }

  /** The serial bytes between consecutive resets. */
  function Segments(es: seq<Event>): (segs: seq<Data>)
    ensures |segs| >= 1
  {
    if es == [] then [[]]
    else
      var n := |es| - 1;
      var before := Segments(es[..n]);
      var k := |before| - 1;
      if es[n].Chunk? then before[k := before[k] + es[n].data]
      else if es[n].Qmp? && es[n].name == "RESET" then before + [[]]
      else before
  }

  /** No exit and no deadline, and every reset is guest-initiated. */
  predicate Orderly(es: seq<Event>)
  {
    forall i :: 0 <= i < |es| ==>
      || es[i].Chunk?
      || (es[i].Qmp? && (es[i].name == "RESET" ==> es[i].guest == Some(true) || es[i].reason == Some("guest-reset")))
  }

  /** The run so far completes every phase in its own segment, with no forbidden marker anywhere. */
  ghost predicate Accepts(c: Config, es: seq<Event>)
  {
    Orderly(es) && Completes(c, Stream(es), Segments(es))
  }

  ghost predicate Completes(c: Config, all: Data, segs: seq<Data>)
  {
    && |segs| == |c.phases| && Settled(c, segs, |segs|)
    && !ContainsAny(c.forbidden, all)
  }

  // ----- a running state is a summary of the whole stream -----

  /** What a running machine knows after a stream `all` whose current segment is `seg`. */
  ghost predicate Summarizes(c: Config, s: State, all: Data, seg: Data)
    requires ValidState(c, s)
  {
    var ms := c.phases[s.phase].markers;
    && s.outcome == Running
    && !ContainsAny(c.forbidden, all)
    && s.tail == Suffix(all, Overlap(c.forbidden))
    && (if s.waiting then Embeds(ms, seg) && s.buffer == [] && s.marker == |ms|
        else Matched(ms, seg) == s.marker < |ms| && s.buffer == Suffix(Rest(ms, seg), Reach(ms[s.marker])))
  }

  lemma {:induction false} ForbiddenInWindow(fs: seq<Data>, all: Data, d: Data)
    requires (forall i :: 0 <= i < |fs| ==> fs[i] != []) && !ContainsAny(fs, all)
    ensures ContainsAny(fs, all + d) <==> ContainsAny(fs, Suffix(all, Overlap(fs)) + d)
  {
    hide Contains, Suffix;
    forall i | 0 <= i < |fs| ensures Contains(all + d, fs[i]) <==> Contains(Suffix(all, Overlap(fs)) + d, fs[i]) {
      ContainsWindow(all, d, fs[i], Overlap(fs));
    }
  }

  /** The outcome of the marker loop, given how many markers match and what is left. */
  function LoopResult(s: State, ms: seq<Data>, then_: Transition, n: nat, rest: Data): State
  {
    if n < |ms| then s.(marker := n, buffer := Suffix(rest, Reach(ms[n])))
    else if then_ == Complete then s.(marker := |ms|, buffer := [], outcome := Pass)
    else s.(marker := |ms|, buffer := [], waiting := true)
  }

  /** One round of the marker loop. */
  lemma {:induction false} LoopRound(markers: seq<Data>, then_: Transition, s: State, i: int, t: State)
    requires s.marker < |markers| && i == Find(s.buffer, markers[s.marker])
    requires i != -1 ==> t == s.(buffer := s.buffer[i + |markers[s.marker]|..], marker := s.marker + 1)
    ensures i == -1 ==> MatchMarkers(markers, then_, s) == LoopResult(s, markers, then_, s.marker, s.buffer)
    ensures i != -1 && t.marker < |markers| ==> MatchMarkers(markers, then_, s) == MatchMarkers(markers, then_, t)
    ensures i != -1 && t.marker == |markers| ==>
              MatchMarkers(markers, then_, s) == LoopResult(t, markers, then_, |markers|, t.buffer)
  {
    hide Find, Contains, OccursAt, Suffix, Reach;
  }

  lemma {:induction false} LoopResultForgets(s: State, t: State, ms: seq<Data>, then_: Transition, n: nat, rest: Data)
    requires t == s.(buffer := t.buffer, marker := t.marker)
    ensures LoopResult(s, ms, then_, n, rest) == LoopResult(t, ms, then_, n, rest)
  {
    hide Suffix, Reach;
  }

  /** The marker loop, started on an untruncated remainder, is leftmost matching. */
  lemma {:induction false} LoopIsMatched(markers: seq<Data>, then_: Transition, s: State)
    requires s.marker < |markers|
    ensures var left := markers[s.marker..];
            MatchMarkers(markers, then_, s) ==
            LoopResult(s, markers, then_, s.marker + Matched(left, s.buffer), Rest(left, s.buffer))
    decreases |markers| - s.marker
  {
    hide Find, Contains, OccursAt, Matched, Rest, MatchMarkers, LoopResult;
    var left, m := markers[s.marker..], markers[s.marker];
    assert left[0] == m;
    var i := Find(s.buffer, m);
    if i == -1 {
      UnmatchedRest(left, s.buffer);
      LoopRound(markers, then_, s, i, s);
    } else {
      UnfoldMatched(left, s.buffer, i);
      assert left[1..] == markers[s.marker + 1..];
      var t := s.(buffer := s.buffer[i + |m|..], marker := s.marker + 1);
      LoopRound(markers, then_, s, i, t);
      if t.marker < |markers| {
        LoopIsMatched(markers, then_, t);
      } else {
        assert left[1..] == [];
        MatchedNone(t.buffer);
      }
      LoopResultForgets(s, t, markers, then_, s.marker + Matched(left, s.buffer), Rest(left, s.buffer));
    }
  }

  lemma {:induction false} MatchedNone(s: Data)
    ensures Matched([], s) == 0 && Rest([], s) == s
  {
  }

  /** The state after a forbidden-free chunk that brings the stream to `all` and the segment to
      `seg`; `done` says whether the segment now embeds the phase's markers. */
  ghost predicate FedAs(c: Config, s: State, r: State, all: Data, seg: Data, done: bool)
    requires ValidState(c, s) && ValidState(c, r)
  {
    if s.waiting || !done then Summarizes(c, r, all, seg) && r.waiting == s.waiting
    else if c.phases[s.phase].then_ == Complete then
      r.outcome == Pass && !r.waiting && r.marker == |c.phases[s.phase].markers| && r.buffer == []
    else Summarizes(c, r, all, seg) && r.waiting
  }

  /** The state after feeding `d`, said of the whole stream and the whole segment. */
  ghost predicate Fed(c: Config, s: State, r: State, all: Data, seg: Data, d: Data)
    requires ValidState(c, s) && ValidState(c, r)
  {
    r.phase == s.phase &&
    if ContainsAny(c.forbidden, all + d) then r.outcome == Fail
    else FedAs(c, s, r, all + d, seg + d, Embeds(c.phases[s.phase].markers, seg + d))
  }

  lemma {:induction false} MatchedAfter(ms: seq<Data>, seg: Data, d: Data, k: nat)
    requires Matched(ms, seg) == k < |ms| && ms[k] != []
    ensures var b := Suffix(Rest(ms, seg), Reach(ms[k])); var j := Matched(ms[k..], b + d);
            && Matched(ms, seg + d) == k + j
            && (k + j < |ms| ==>
                  Suffix(Rest(ms[k..], b + d), Reach(ms[k + j])) == Suffix(Rest(ms, seg + d), Reach(ms[k + j])))
  {
    MatchedGrows(ms, seg, d);
    hide Contains, Matched, Rest, Suffix;
    var left, rest := ms[k..], Rest(ms, seg);
    assert left[0] == ms[k];
    MatchedInWindow(left, rest, d);
    SuffixOfSuffix(rest, d, |ms[k]| - 1, |ms[k]| - 1);
  }

  lemma {:induction false} LoopOnSegment(ms: seq<Data>, then_: Transition, start: State, seg: Data, d: Data)
    requires Matched(ms, seg) == start.marker < |ms| && ms[start.marker] != []
    requires start.buffer == Suffix(Rest(ms, seg), Reach(ms[start.marker])) + d
    ensures MatchMarkers(ms, then_, start) == LoopResult(start, ms, then_, Matched(ms, seg + d), Rest(ms, seg + d))
  {
    hide MatchMarkers, Matched, Rest, Suffix, Reach, LoopResult;
    MatchedAfter(ms, seg, d, start.marker);
    LoopIsMatched(ms, then_, start);
    SameLoopResult(start, ms, then_, Matched(ms, seg + d), Rest(ms[start.marker..], start.buffer), Rest(ms, seg + d));
  }

  lemma {:induction false} MarkersFed(c: Config, s: State, r: State, all: Data, seg: Data, d: Data)
    requires ValidState(c, s) && Summarizes(c, s, all, seg) && !s.waiting && !ContainsAny(c.forbidden, all + d)
    requires var phase := c.phases[s.phase];
             r == MatchMarkers(phase.markers, phase.then_,
                               s.(tail := Suffix(all + d, Overlap(c.forbidden)), buffer := s.buffer + d))
    requires ValidState(c, r)
    ensures Fed(c, s, r, all, seg, d)
  {
    var phase := c.phases[s.phase];
    var ms := phase.markers;
    assert ValidPhase(phase, s.phase == |c.phases| - 1);
    assert ms[s.marker] != [];
    hide ContainsAny, MatchMarkers, Matched, Rest, Embeds, Suffix, ValidConfig, Overlap, Reach, LoopResult, Fed;
    LoopOnSegment(ms, phase.then_, s.(tail := Suffix(all + d, Overlap(c.forbidden)), buffer := s.buffer + d), seg, d);
    GreedyIsComplete(ms, seg + d);
    LoopResultFed(c, s, r, all, seg, d, Matched(ms, seg + d));
  }

  lemma {:induction false} SameLoopResult(s: State, ms: seq<Data>, then_: Transition, n: nat, x: Data, y: Data)
    requires n < |ms| ==> Suffix(x, Reach(ms[n])) == Suffix(y, Reach(ms[n]))
    ensures LoopResult(s, ms, then_, n, x) == LoopResult(s, ms, then_, n, y)
  {
    hide Suffix, Reach;
  }

  lemma {:induction false} LoopResultFed(c: Config, s: State, r: State, all: Data, seg: Data, d: Data, n: nat)
    requires ValidState(c, s) && ValidState(c, r) && s.outcome == Running && !s.waiting
    requires !ContainsAny(c.forbidden, all + d)
    requires var phase := c.phases[s.phase];
             && n == Matched(phase.markers, seg + d) <= |phase.markers|
             && (Embeds(phase.markers, seg + d) <==> n == |phase.markers|)
             && r == LoopResult(s.(tail := Suffix(all + d, Overlap(c.forbidden)), buffer := s.buffer + d),
                                phase.markers, phase.then_, n, Rest(phase.markers, seg + d))
    ensures Fed(c, s, r, all, seg, d)
  {
    hide ContainsAny, Matched, Rest, Embeds, Suffix, ValidConfig, Overlap;
  }

  lemma {:induction false} TailFed(c: Config, s: State, all: Data, seg: Data, d: Data)
    requires ValidState(c, s) && Summarizes(c, s, all, seg)
    ensures ContainsAny(c.forbidden, all + d) <==> ContainsAny(c.forbidden, s.tail + d)
    ensures Suffix(s.tail + d, Overlap(c.forbidden)) == Suffix(all + d, Overlap(c.forbidden))
  {
    hide ContainsAny, Matched, Rest, Embeds;
    ForbiddenInWindow(c.forbidden, all, d);
    SuffixOfSuffix(all, d, Overlap(c.forbidden), Overlap(c.forbidden));
  }

  lemma {:induction false} NothingFed(c: Config, s: State, all: Data, seg: Data)
    requires ValidState(c, s) && Summarizes(c, s, all, seg)
    ensures Fed(c, s, s, all, seg, [])
  {
    GreedyIsComplete(c.phases[s.phase].markers, seg);
    assert all + [] == all && seg + [] == seg;
    hide ContainsAny, Matched, Rest, Embeds, ValidConfig, Suffix, Overlap, Reach;
  }

  lemma {:induction false} WaitingFed(c: Config, s: State, r: State, all: Data, seg: Data, d: Data)
    requires ValidState(c, s) && ValidState(c, r) && Summarizes(c, s, all, seg) && s.waiting
    requires !ContainsAny(c.forbidden, all + d) && r == s.(tail := Suffix(all + d, Overlap(c.forbidden)))
    ensures Fed(c, s, r, all, seg, d)
  {
    var ms := c.phases[s.phase].markers;
    assert Embeds(ms, seg);
    EmbedsGrows(ms, seg, d);
    hide ContainsAny, Matched, Rest, Embeds, ValidConfig, Suffix, Overlap, Reach;
  }

  lemma {:induction false} Runs(c: Config, s: State, all: Data, seg: Data)
    requires ValidState(c, s) && Summarizes(c, s, all, seg)
    ensures s.outcome == Running
  {
    hide ContainsAny, Matched, Rest, Embeds, ValidConfig, Suffix, Overlap, Reach;
  }

  lemma {:induction false} DirtyFed(c: Config, s: State, all: Data, seg: Data, d: Data)
    requires ValidState(c, s) && ValidState(c, s.(outcome := Fail)) && ContainsAny(c.forbidden, all + d)
    ensures Fed(c, s, s.(outcome := Fail), all, seg, d)
  {
    hide ContainsAny, FedAs, Embeds, ValidConfig;
  }

  /** One `feed` refines whole-stream matching. */
  lemma {:induction false} FeedRefines(c: Config, s: State, all: Data, seg: Data, d: Data)
    requires ValidState(c, s) && Summarizes(c, s, all, seg)
    ensures ValidState(c, Feed(c, s, d)) && Fed(c, s, Feed(c, s, d), all, seg, d)
  {
    hide Feed, Fed, Summarizes, ContainsAny, MatchMarkers, ValidConfig, Suffix, Overlap;
    Runs(c, s, all, seg);
    FeedKeepsValid(c, s, d);
    FeedCases(c, s, d);
    TailFed(c, s, all, seg, d);
    if d == [] {
      NothingFed(c, s, all, seg);
    } else if ContainsAny(c.forbidden, all + d) {
      DirtyFed(c, s, all, seg, d);
    } else if s.waiting {
      WaitingFed(c, s, Feed(c, s, d), all, seg, d);
    } else {
      MarkersFed(c, s, Feed(c, s, d), all, seg, d);
    }
  }

  // ----- whole runs -----

  /** A running machine after the events `es`. */
  ghost predicate Tracks(c: Config, es: seq<Event>, s: State)
    requires ValidState(c, s)
  {
    Orderly(es) && Tracked(c, s, Stream(es), Segments(es))
  }

  ghost predicate Tracked(c: Config, s: State, all: Data, segs: seq<Data>)
    requires ValidState(c, s)
  {
    && s.phase == |segs| - 1
    && Settled(c, segs, s.phase)
    && Summarizes(c, s, all, segs[s.phase])
  }

  lemma {:induction false} OneMore(es: seq<Event>, e: Event)
    ensures Stream(es + [e]) == if e.Chunk? then Stream(es) + e.data else Stream(es)
    ensures var before := Segments(es); var k := |before| - 1;
            Segments(es + [e]) == if e.Chunk? then before[k := before[k] + e.data]
                                  else if IsReset(e) then before + [[]] else before
    ensures Orderly(es + [e]) <==> Orderly(es) && (e.Chunk? || (e.Qmp? && (IsReset(e) ==> GuestReset(e))))
  {
    var all, n := es + [e], |es|;
    assert all[..n] == es && all[n] == e;
    if Orderly(all) {
      forall i | 0 <= i < n ensures es[i].Chunk? || (es[i].Qmp? && (IsReset(es[i]) ==> GuestReset(es[i]))) {
        assert all[i] == es[i];
      }
    }
  }

  lemma {:induction false} FreshPhase(c: Config, s: State, all: Data)
    requires ValidState(c, s) && s.outcome == Running && !s.waiting && s.marker == 0 && s.buffer == []
    requires !ContainsAny(c.forbidden, all) && s.tail == Suffix(all, Overlap(c.forbidden))
    ensures Summarizes(c, s, all, [])
  {
    var phase := c.phases[s.phase];
    assert ValidPhase(phase, s.phase == |c.phases| - 1);
    hide ContainsAny, Suffix;
    assert phase.markers[0] != [] && Find([], phase.markers[0]) == -1;
    UnmatchedRest(phase.markers, []);
    hide Matched, Rest;
  }

  lemma {:induction false} FedCases(c: Config, s: State, r: State, all: Data, seg: Data, d: Data)
    requires ValidState(c, s) && ValidState(c, r) && s.outcome == Running && Fed(c, s, r, all, seg, d)
    ensures r.phase == s.phase
    ensures r.outcome == Running ==> Summarizes(c, r, all + d, seg + d)
    ensures r.outcome == Pass ==>
              && s.phase == |c.phases| - 1 && Embeds(c.phases[s.phase].markers, seg + d)
              && !ContainsAny(c.forbidden, all + d)
    ensures r.outcome == Fail ==> ContainsAny(c.forbidden, all + d)
  {
    assert ValidPhase(c.phases[s.phase], s.phase == |c.phases| - 1);
    hide ContainsAny, Embeds, ValidConfig, Suffix, Matched, Rest, Overlap, Reach;
  }

  ghost predicate Settled(c: Config, segs: seq<Data>, n: nat)
  {
    n <= |segs| && n <= |c.phases| && forall j :: 0 <= j < n ==> Embeds(c.phases[j].markers, segs[j])
  }

  lemma {:induction false} SettledUpdate(c: Config, segs: seq<Data>, k: nat, seg: Data)
    requires Settled(c, segs, k) && k < |segs| && k < |c.phases|
    ensures Settled(c, segs[k := seg], k)
    ensures Embeds(c.phases[k].markers, seg) ==> Settled(c, segs[k := seg], k + 1)
    ensures Settled(c, segs + [[]], k) && (Embeds(c.phases[k].markers, segs[k]) ==> Settled(c, segs + [[]], k + 1))
  {
    hide Embeds;
  }

  lemma {:induction false} ChunkTracked(c: Config, s: State, r: State, all: Data, segs: seq<Data>, d: Data)
    requires ValidState(c, s) && ValidState(c, r) && Tracked(c, s, all, segs)
    requires Fed(c, s, r, all, segs[s.phase], d)
    ensures r.outcome == Running ==> Tracked(c, r, all + d, segs[s.phase := segs[s.phase] + d])
    ensures r.outcome == Pass ==> Completes(c, all + d, segs[s.phase := segs[s.phase] + d])
    ensures r.outcome == Fail ==> ContainsAny(c.forbidden, all + d)
  {
    assert s.outcome == Running;
    hide Fed, Summarizes, ContainsAny, Settled, ValidConfig;
    FedCases(c, s, r, all, segs[s.phase], d);
    SettledUpdate(c, segs, s.phase, segs[s.phase] + d);
  }

  lemma {:induction false} ChunkTracks(c: Config, es: seq<Event>, s: State, d: Data)
    requires ValidState(c, s) && Tracks(c, es, s)
    ensures ValidState(c, Feed(c, s, d))
    ensures Feed(c, s, d).outcome == Running ==> Tracks(c, es + [Chunk(d)], Feed(c, s, d))
    ensures Feed(c, s, d).outcome == Pass ==> Accepts(c, es + [Chunk(d)])
    ensures Feed(c, s, d).outcome == Fail ==> ContainsAny(c.forbidden, Stream(es) + d)
  {
    hide Feed, ContainsAny, ValidState, Orderly, Segments, Stream, Completes, Fed, Summarizes, Settled;
    OneMore(es, Chunk(d));
    var all, segs, r, es' := Stream(es), Segments(es), Feed(c, s, d), es + [Chunk(d)];
    assert s.phase == |segs| - 1 && Summarizes(c, s, all, segs[s.phase]);
    hide Tracked;
    FeedRefines(c, s, all, segs[s.phase], d);
    ChunkTracked(c, s, r, all, segs, d);
    assert Stream(es') == all + d && Segments(es') == segs[s.phase := segs[s.phase] + d] && Orderly(es');
  }

  lemma {:induction false} ResetTracked(c: Config, s: State, r: State, all: Data, segs: seq<Data>)
    requires ValidState(c, s) && ValidState(c, r) && Tracked(c, s, all, segs) && s.waiting
    requires r == s.(phase := s.phase + 1, marker := 0, buffer := [], waiting := false)
    ensures Tracked(c, r, all, segs + [[]])
  {
    hide ContainsAny, Settled, ValidConfig, Suffix, Matched, Rest;
    FreshPhase(c, r, all);
    SettledUpdate(c, segs, s.phase, []);
    hide Overlap, Reach;
  }

  lemma {:induction false} ResetTracks(c: Config, es: seq<Event>, s: State, e: Event)
    requires ValidState(c, s) && Tracks(c, es, s) && IsReset(e)
    ensures var r := HandleReset(c, s, e.guest, e.reason);
            && (r.outcome == Running || r.outcome == Fail)
            && (r.outcome == Running <==> s.waiting && GuestReset(e))
            && (r.outcome == Running ==> ValidState(c, r) && Tracks(c, es + [e], r))
  {
    OneMore(es, e);
    StepKeepsValid(c, s, e);
    hide ValidState, Orderly, Segments, Stream;
    var r := HandleReset(c, s, e.guest, e.reason);
    assert s.outcome == Running;
    if r.outcome == Running {
      hide Tracked, Summarizes;
      ResetTracked(c, s, r, Stream(es), Segments(es));
    }
  }

  /** Soundness of one step. */
  lemma {:induction false} StepTracks(c: Config, es: seq<Event>, s: State, e: Event)
    requires ValidState(c, s) && Tracks(c, es, s)
    ensures ValidState(c, Step(c, s, e))
    ensures Step(c, s, e).outcome == Running ==> Tracks(c, es + [e], Step(c, s, e))
    ensures Step(c, s, e).outcome == Pass ==> Accepts(c, es + [e])
  {
    StepKeepsValid(c, s, e);
    OneMore(es, e);
    hide Feed, HandleReset, Orderly, Segments, Stream, Tracked, ValidState, Completes;
    if e.Chunk? {
      ChunkTracks(c, es, s, e.data);
    } else if IsReset(e) {
      ResetTracks(c, es, s, e);
    }
  }

  lemma {:induction false} TerminalStays(c: Config, s: State, e: Event)
    requires ValidState(c, s) && s.outcome != Running
    ensures Step(c, s, e) == s
  {
  }

  ghost predicate AcceptedBy(c: Config, es: seq<Event>) { exists k :: 0 <= k <= |es| && Accepts(c, es[..k]) }

  lemma {:induction false} AcceptedLater(c: Config, es: seq<Event>, e: Event)
    requires AcceptedBy(c, es)
    ensures AcceptedBy(c, es + [e])
  {
    hide Accepts;
    var k :| 0 <= k <= |es| && Accepts(c, es[..k]);
    assert (es + [e])[..k] == es[..k];
  }

  lemma {:induction false} RunOneMore(c: Config, es: seq<Event>, e: Event)
    requires ValidConfig(c)
    ensures Run(c, es + [e]) == Step(c, Run(c, es), e)
  {
    assert (es + [e])[..|es|] == es;
    hide Step, ValidState, ValidConfig;
  }

  lemma {:induction false} EmptyStreamIsClean(fs: seq<Data>)
    requires forall i :: 0 <= i < |fs| ==> fs[i] != []
    ensures !ContainsAny(fs, [])
  {
    forall i | 0 <= i < |fs| ensures !Contains([], fs[i]) { assert fs[i] != []; }
  }

  lemma {:induction false} SuffixOfNothing(n: nat)
    ensures Suffix([], n) == []
  {
  }

  lemma {:induction false} EmptyHistory(c: Config)
    ensures Stream([]) == [] && Segments([]) == [[]] && Orderly([]) && Settled(c, [[]], 0)
  {
  }

  lemma {:induction false} FreshStart(c: Config)
    requires ValidConfig(c) && ValidState(c, INITIAL)
    ensures Summarizes(c, INITIAL, [], []) && INITIAL.phase == 0
  {
    EmptyStreamIsClean(c.forbidden);
    hide ContainsAny, Summarizes, Suffix, Overlap, ValidState, ValidConfig;
    SuffixOfNothing(Overlap(c.forbidden));
    FreshPhase(c, INITIAL, []);
  }

  lemma {:induction false} TracksFrom(c: Config, es: seq<Event>, s: State)
    requires ValidState(c, s) && Orderly(es) && s.phase == |Segments(es)| - 1 && Settled(c, Segments(es), s.phase)
    requires Summarizes(c, s, Stream(es), Segments(es)[s.phase])
    ensures Tracks(c, es, s)
  {
    hide ValidState, Orderly, Stream, Segments, Settled, Summarizes;
  }

  lemma {:induction false} EmptyTracks(c: Config)
    requires ValidConfig(c)
    ensures ValidState(c, INITIAL) && Tracks(c, [], INITIAL)
  {
    hide *;
    InitialIsValid(c);
    EmptyHistory(c);
    FreshStart(c);
    TracksFrom(c, [], INITIAL);
  }

  /** A running machine summarizes its run; a passing one has an accepted prefix. */
  lemma {:induction false} RunIsSound(c: Config, es: seq<Event>)
    requires ValidConfig(c)
    ensures Run(c, es).outcome == Running ==> Tracks(c, es, Run(c, es))
    ensures Run(c, es).outcome == Pass ==> AcceptedBy(c, es)
  {
    hide Tracks, Accepts, Step, AcceptedBy, ValidState, ValidConfig;
    if es == [] {
      EmptyTracks(c);
    } else {
      var n := |es| - 1;
      var before, e := es[..n], es[n];
      assert es == before + [e];
      RunIsSound(c, before);
      RunOneMore(c, before, e);
      var s := Run(c, before);
      hide Run;
      if s.outcome == Running {
        StepTracks(c, before, s, e);
        if Accepts(c, es) { AcceptedNow(c, es); }
      } else {
        TerminalStays(c, s, e);
        if s.outcome == Pass { AcceptedLater(c, before, e); }
      }
    }
  }

  lemma {:induction false} AcceptedNow(c: Config, es: seq<Event>)
    requires Accepts(c, es)
    ensures AcceptedBy(c, es)
  {
    assert es[..|es|] == es;
  }

  // ----- completeness -----

  lemma {:induction false} StreamGrows(es: seq<Event>, i: nat)
    requires i <= |es|
    ensures Stream(es[..i]) <= Stream(es)
    decreases |es|
  {
    if i == |es| {
      assert es[..i] == es;
    } else {
      var n := |es| - 1;
      StreamGrows(es[..n], i);
      assert es[..n][..i] == es[..i];
    }
  }

  /** A segment is settled once a reset has followed it. */
  lemma {:induction false} SegmentsSettle(es: seq<Event>, i: nat)
    requires i <= |es|
    ensures |Segments(es[..i])| <= |Segments(es)|
    ensures forall j :: 0 <= j < |Segments(es[..i])| - 1 ==> Segments(es)[j] == Segments(es[..i])[j]
    decreases |es|
  {
    if i == |es| {
      assert es[..i] == es;
    } else {
      var n := |es| - 1;
      SegmentsSettle(es[..n], i);
      assert es[..n][..i] == es[..i];
    }
  }

  lemma {:induction false} ContainsAnyGrows(fs: seq<Data>, s: Data, t: Data)
    requires ContainsAny(fs, s) && s <= t
    ensures ContainsAny(fs, t)
  {
    hide Contains;
    var i :| 0 <= i < |fs| && Contains(s, fs[i]);
    ContainsGrows(s, t[|s|..], fs[i]);
    assert t == s + t[|s|..];
  }

  lemma {:induction false} NoForbiddenPrefix(c: Config, es: seq<Event>, i: nat)
    requires !ContainsAny(c.forbidden, Stream(es)) && i <= |es|
    ensures !ContainsAny(c.forbidden, Stream(es[..i]))
  {
    hide ContainsAny;
    StreamGrows(es, i);
    if ContainsAny(c.forbidden, Stream(es[..i])) { ContainsAnyGrows(c.forbidden, Stream(es[..i]), Stream(es)); }
  }

  lemma {:induction false} SettledAtReset(es: seq<Event>, i: nat)
    requires i < |es| && IsReset(es[i])
    ensures var k := |Segments(es[..i])| - 1; k < |Segments(es)| && Segments(es)[k] == Segments(es[..i])[k]
  {
    assert es[..i + 1] == es[..i] + [es[i]];
    OneMore(es[..i], es[i]);
    SegmentsSettle(es, i + 1);
    hide Segments;
  }

  lemma {:induction false} CompletedPhaseWaits(c: Config, s: State, all: Data, segs: seq<Data>)
    requires ValidState(c, s) && Tracked(c, s, all, segs) && Embeds(c.phases[s.phase].markers, segs[s.phase])
    ensures s.waiting
  {
    hide ContainsAny, ValidConfig, Embeds, Suffix, Matched, Rest, Settled;
    GreedyIsComplete(c.phases[s.phase].markers, segs[s.phase]);
  }

  lemma {:induction false} SegmentEmbeds(c: Config, es: seq<Event>, i: nat, k: nat)
    requires Accepts(c, es) && i < |es| && IsReset(es[i]) && k == |Segments(es[..i])| - 1 < |c.phases|
    ensures Embeds(c.phases[k].markers, Segments(es[..i])[k]) && GuestReset(es[i])
  {
    SettledAtReset(es, i);
    hide Segments, Stream, ContainsAny, Embeds, GuestReset;
  }

  lemma {:induction false} WaitingAtReset(c: Config, es: seq<Event>, i: nat, s: State)
    requires ValidState(c, s) && Accepts(c, es) && i < |es| && IsReset(es[i]) && Tracks(c, es[..i], s)
    ensures s.waiting && GuestReset(es[i])
  {
    hide Accepts, Segments, Stream, Orderly, ValidConfig, Embeds, Summarizes, Settled, GuestReset;
    SegmentEmbeds(c, es, i, s.phase);
    CompletedPhaseWaits(c, s, Stream(es[..i]), Segments(es[..i]));
  }

  lemma {:induction false} TracksRuns(c: Config, es: seq<Event>, s: State)
    requires ValidState(c, s) && Tracks(c, es, s)
    ensures s.outcome == Running
  {
  }

  lemma {:induction false} EventAllowed(c: Config, es: seq<Event>, i: nat)
    requires Accepts(c, es) && i < |es|
    ensures es[i].Chunk? || es[i].Qmp?
    ensures es[i].Chunk? ==> !ContainsAny(c.forbidden, Stream(es[..i]) + es[i].data)
  {
    NoForbiddenPrefix(c, es, i + 1);
    assert es[..i + 1] == es[..i] + [es[i]];
    OneMore(es[..i], es[i]);
    hide Segments, Stream, ContainsAny, Completes;
  }

  lemma {:induction false} StepSurvives(c: Config, es: seq<Event>, i: nat, s: State)
    requires ValidState(c, s) && Accepts(c, es) && i < |es| && Tracks(c, es[..i], s)
    ensures Step(c, s, es[i]).outcome != Fail
  {
    hide Accepts, Tracks, ValidState, Segments, Stream, ContainsAny, Feed, HandleReset, Orderly;
    EventAllowed(c, es, i);
    TracksRuns(c, es[..i], s);
    if es[i].Chunk? {
      ChunkTracks(c, es[..i], s, es[i].data);
    } else if IsReset(es[i]) {
      WaitingAtReset(c, es, i, s);
      ResetTracks(c, es[..i], s, es[i]);
    }
  }

  lemma {:induction false} NeverFails(c: Config, es: seq<Event>, i: nat)
    requires ValidConfig(c) && Accepts(c, es) && i <= |es|
    ensures Run(c, es[..i]).outcome != Fail
  {
    hide Accepts, Tracks, Step, ValidState, ValidConfig;
    if i > 0 {
      var before := es[..i - 1];
      assert es[..i] == before + [es[i - 1]];
      NeverFails(c, es, i - 1);
      RunOneMore(c, before, es[i - 1]);
      RunIsSound(c, before);
      var s := Run(c, before);
      if s.outcome == Running {
        StepSurvives(c, es, i - 1, s);
      } else {
        TerminalStays(c, s, es[i - 1]);
      }
    }
  }

  lemma {:induction false} AcceptedIsNotRunning(c: Config, es: seq<Event>, s: State)
    requires ValidState(c, s) && Accepts(c, es)
    ensures !Tracks(c, es, s)
  {
    hide Segments, Stream, ContainsAny, ValidConfig, Embeds, Suffix, Matched, Rest;
    GreedyIsComplete(c.phases[s.phase].markers, Segments(es)[|Segments(es)| - 1]);
  }

  lemma {:induction false} AcceptedPasses(c: Config, es: seq<Event>)
    requires ValidConfig(c) && Accepts(c, es)
    ensures Run(c, es).outcome == Pass
  {
    hide Accepts, Tracks, ValidConfig;
    NeverFails(c, es, |es|);
    assert es[..|es|] == es;
    RunIsSound(c, es);
    AcceptedIsNotRunning(c, es, Run(c, es));
  }

  lemma {:induction false} PassStays(c: Config, es: seq<Event>, k: nat)
    requires ValidConfig(c) && k <= |es| && Run(c, es[..k]).outcome != Running
    ensures Run(c, es) == Run(c, es[..k])
    decreases |es|
  {
    hide Step, ValidConfig, ValidState;
    if k == |es| {
      assert es[..k] == es;
    } else {
      var n := |es| - 1;
      assert es[..n][..k] == es[..k] && es == es[..n] + [es[n]];
      PassStays(c, es[..n], k);
      RunOneMore(c, es[..n], es[n]);
      TerminalStays(c, Run(c, es[..n]), es[n]);
    }
  }

  /** Whole-run exactness: a run passes if and only if some prefix of it has exactly one reset
      between consecutive phases, all guest-initiated, no exit and no deadline, every phase's
      markers in order inside its own segment, and no forbidden marker in the whole stream. */
  lemma {:induction false} PassesIff(c: Config, es: seq<Event>)
    requires ValidConfig(c)
    ensures Run(c, es).outcome == Pass <==> AcceptedBy(c, es)
  {
    RunIsSound(c, es);
    hide Accepts, Tracks, Run, ValidConfig;
    if AcceptedBy(c, es) {
      var k :| 0 <= k <= |es| && Accepts(c, es[..k]);
      AcceptedPasses(c, es[..k]);
      PassStays(c, es, k);
    }
  }

  // ----- chunking, bounds, and a single phase -----

  /** What callers see of a state. */
  function Observed(s: State): (Outcome, nat, nat, bool) { (s.outcome, s.phase, s.marker, s.waiting) }

  lemma {:induction false} FedAsTwice(
      c: Config, s: State, r: State, q: State, all: Data, seg: Data, done: bool, all': Data, seg': Data, done': bool)
    requires ValidState(c, s) && ValidState(c, r) && ValidState(c, q) && r.phase == s.phase && r.outcome == Running
    requires FedAs(c, s, r, all, seg, done) && FedAs(c, r, q, all', seg', done') && (done ==> done')
    ensures FedAs(c, s, q, all', seg', done')
  {
    hide Summarizes, ValidConfig;
  }

  lemma {:induction false} FedTwice(c: Config, s: State, r: State, q: State, all: Data, seg: Data, a: Data, b: Data)
    requires ValidState(c, s) && ValidState(c, r) && ValidState(c, q) && s.outcome == Running
    requires !ContainsAny(c.forbidden, all + a + b) && !ContainsAny(c.forbidden, all + a)
    requires Fed(c, s, r, all, seg, a) && r.outcome == Running && Fed(c, r, q, all + a, seg + a, b)
    ensures Fed(c, s, q, all, seg, a + b)
  {
    hide ContainsAny, Embeds, FedAs, ValidConfig;
    var ms := c.phases[s.phase].markers;
    assert all + a + b == all + (a + b) && seg + a + b == seg + (a + b);
    if Embeds(ms, seg + a) { EmbedsGrows(ms, seg + a, b); }
    FedAsTwice(c, s, r, q, all + a, seg + a, Embeds(ms, seg + a), all + a + b, seg + a + b, Embeds(ms, seg + a + b));
  }

  /** Two states that say the same of the same stream look the same. */
  lemma {:induction false} FedDetermines(c: Config, s: State, q: State, r: State, all: Data, seg: Data, d: Data)
    requires ValidState(c, s) && ValidState(c, q) && ValidState(c, r) && s.outcome == Running
    requires Fed(c, s, q, all, seg, d) && Fed(c, s, r, all, seg, d) && !ContainsAny(c.forbidden, all + d)
    ensures Observed(q) == Observed(r) && q.buffer == r.buffer
    ensures q.outcome == Running ==> q == r
  {
    hide ContainsAny, Embeds, ValidConfig, Suffix, Matched, Rest, Overlap, Reach;
  }

  lemma {:induction false} PassedEarly(c: Config, s: State, r: State, q: State, all: Data, seg: Data, a: Data, b: Data)
    requires ValidState(c, s) && ValidState(c, r) && ValidState(c, q) && s.outcome == Running && !s.waiting
    requires !ContainsAny(c.forbidden, all + a) && !ContainsAny(c.forbidden, all + (a + b))
    requires Fed(c, s, r, all, seg, a) && r.outcome != Running && Fed(c, s, q, all, seg, a + b)
    ensures Observed(r) == Observed(q)
  {
    var ms := c.phases[s.phase].markers;
    assert seg + a + b == seg + (a + b);
    if Embeds(ms, seg + a) { EmbedsGrows(ms, seg + a, b); }
    hide ContainsAny, Embeds, ValidConfig, Suffix, Matched, Rest, Overlap, Reach;
  }

  /** How the stream is cut into chunks does not matter on forbidden-free data. */
  lemma {:induction false} ChunkingIsInvisible(c: Config, es: seq<Event>, a: Data, b: Data)
    requires ValidConfig(c) && Run(c, es).outcome == Running && !ContainsAny(c.forbidden, Stream(es) + a + b)
    ensures Observed(Run(c, es + [Chunk(a)] + [Chunk(b)])) == Observed(Run(c, es + [Chunk(a + b)]))
  {
    hide Tracks, Feed, ContainsAny, Fed, ValidState, ValidConfig;
    RunIsSound(c, es);
    RunOneMore(c, es, Chunk(a));
    RunOneMore(c, es + [Chunk(a)], Chunk(b));
    RunOneMore(c, es, Chunk(a + b));
    hide Run;
    FeedsCompose(c, es, Run(c, es), a, b);
  }

  lemma {:induction false} TracksSummary(c: Config, es: seq<Event>, s: State)
    requires ValidState(c, s) && Tracks(c, es, s)
    ensures s.outcome == Running && s.phase < |Segments(es)| && Summarizes(c, s, Stream(es), Segments(es)[s.phase])
  {
    hide ValidState, Orderly, Stream, Segments, Settled, Summarizes;
    Runs(c, s, Stream(es), Segments(es)[s.phase]);
  }

  lemma {:induction false} CleanStart(c: Config, all: Data, a: Data, b: Data)
    requires !ContainsAny(c.forbidden, all + a + b)
    ensures !ContainsAny(c.forbidden, all + a) && !ContainsAny(c.forbidden, all + (a + b))
  {
    hide ContainsAny;
    assert all + (a + b) == all + a + b;
    if ContainsAny(c.forbidden, all + a) { ContainsAnyGrows(c.forbidden, all + a, all + a + b); }
  }

  lemma {:induction false} FeedsCompose(c: Config, es: seq<Event>, s: State, a: Data, b: Data)
    requires ValidState(c, s) && Tracks(c, es, s) && !ContainsAny(c.forbidden, Stream(es) + a + b)
    ensures ValidState(c, Feed(c, s, a)) && ValidState(c, Feed(c, s, a + b))
    ensures Observed(Feed(c, Feed(c, s, a), b)) == Observed(Feed(c, s, a + b))
  {
    hide Feed, Fed, ContainsAny, ValidState, Tracks, Summarizes, Stream, Segments;
    TracksSummary(c, es, s);
    var all, seg := Stream(es), Segments(es)[s.phase];
    CleanStart(c, all, a, b);
    var r, q := Feed(c, s, a), Feed(c, s, a + b);
    FeedRefines(c, s, all, seg, a);
    FeedRefines(c, s, all, seg, a + b);
    if r.outcome == Running {
      FedSummarizes(c, s, r, all, seg, a);
      FeedRefines(c, r, all + a, seg + a, b);
      FedTwice(c, s, r, Feed(c, r, b), all, seg, a, b);
      FedDetermines(c, s, Feed(c, r, b), q, all, seg, a + b);
    } else {
      FeedCases(c, r, b);
      WaitingKeepsRunning(c, s, r, all, seg, a);
      PassedEarly(c, s, r, q, all, seg, a, b);
    }
  }

  lemma {:induction false} FedSummarizes(c: Config, s: State, r: State, all: Data, seg: Data, d: Data)
    requires ValidState(c, s) && ValidState(c, r) && Fed(c, s, r, all, seg, d) && r.outcome == Running
    ensures Summarizes(c, r, all + d, seg + d)
  {
    hide ContainsAny, Embeds, ValidConfig, Suffix, Matched, Rest, Overlap, Reach;
  }

  lemma {:induction false} WaitingKeepsRunning(c: Config, s: State, r: State, all: Data, seg: Data, d: Data)
    requires ValidState(c, s) && ValidState(c, r) && Fed(c, s, r, all, seg, d)
    requires r.outcome != Running && !ContainsAny(c.forbidden, all + d)
    ensures !s.waiting
  {
    hide ContainsAny, Embeds, ValidConfig, Suffix, Matched, Rest, Overlap, Reach;
  }

  /** The longest marker of a plan bounds the marker buffer. */
  function LongestReach(phases: seq<Phase>): (n: nat)
    ensures forall i :: 0 <= i < |phases| ==> Overlap(phases[i].markers) <= n
  {
    if phases == [] then 0
    else
      var k := |phases| - 1;
      Max(LongestReach(phases[..k]), Overlap(phases[k].markers))
  }

  /** The machine retains at most (longest forbidden - 1) + (longest marker - 1) bytes, after any run. */
  lemma {:induction false} RetainedIsBounded(c: Config, es: seq<Event>)
    requires ValidConfig(c)
    ensures Retained(Run(c, es)) <= Overlap(c.forbidden) + LongestReach(c.phases)
  {
    hide Run, LongestReach, ValidConfig, Overlap;
    BuffersAreBounded(c, es);
  }

  lemma {:induction false} BuffersAreBounded(c: Config, es: seq<Event>)
    requires ValidConfig(c)
    ensures var s := Run(c, es);
            |s.tail| <= Overlap(c.forbidden) && |s.buffer| <= LongestReach(c.phases)
  {
    if es != [] {
      hide ValidConfig, ValidState, Run, Step, LongestReach, Overlap;
      var n := |es| - 1;
      var before, e := es[..n], es[n];
      assert es == before + [e];
      BuffersAreBounded(c, before);
      RunOneMore(c, before, e);
      StepRetains(c, Run(c, before), e);
    }
  }

  lemma {:induction false} StepRetains(c: Config, s: State, e: Event)
    requires ValidState(c, s) && |s.tail| <= Overlap(c.forbidden) && |s.buffer| <= LongestReach(c.phases)
    ensures |Step(c, s, e).tail| <= Overlap(c.forbidden) && |Step(c, s, e).buffer| <= LongestReach(c.phases)
  {
    hide ContainsAny, MatchMarkers, LongestReach, Overlap;
    if e.Chunk? && s.outcome == Running && e.data != [] && !s.waiting {
      var phase := c.phases[s.phase];
      var t := s.(tail := Suffix(s.tail + e.data, Overlap(c.forbidden)), buffer := s.buffer + e.data);
      MatchMarkersKeeps(phase.markers, phase.then_, t);
    }
  }
}
