/** What the hub's capture file holds, as a property of the schedule. */
module HubCapture {
  import opened Framing
  import opened Hub

  // ----- appending to a run -----

  lemma {:induction false} RunOne(h: State, e: Event, es: seq<Event>)
    requires Enabled(h, e) && Runs(Step(h, e), es)
    ensures Runs(h, [e] + es) && After(h, [e] + es) == After(Step(h, e), es)
  {
    hide Step, Enabled;
    assert ([e] + es)[1..] == es;
  }

  lemma {:induction false} RunLast(h: State, es: seq<Event>, e: Event)
    ensures Runs(h, es + [e]) <==> Runs(h, es) && Enabled(After(h, es), e)
    ensures Runs(h, es + [e]) ==> After(h, es + [e]) == Step(After(h, es), e)
    decreases |es|
  {
    hide Step, Enabled;
    if es == [] {
      assert es + [e] == [e];
      assert [e][1..] == [];
    } else {
      assert (es + [e])[0] == es[0] && (es + [e])[1..] == es[1..] + [e];
      if Enabled(h, es[0]) { RunLast(Step(h, es[0]), es[1..], e); }
    }
  }

  lemma {:induction false} RunConcat(h: State, a: seq<Event>, b: seq<Event>)
    requires Runs(h, a) && Runs(After(h, a), b)
    ensures Runs(h, a + b) && After(h, a + b) == After(After(h, a), b)
    decreases |a|
  {
    hide Step, Enabled;
    if a == [] {
      assert a + b == b;
    } else {
      RunConcat(Step(h, a[0]), a[1..], b);
      assert (a + b)[0] == a[0] && (a + b)[1..] == a[1..] + b;
    }
  }

  // ----- the schedule -----

  /** How many of the first `n` events capture a frame of `p`. */
  function Captures(es: seq<Event>, p: Port, n: nat): nat
    requires n <= |es|
  {
    if n == 0 then 0 else Captures(es, p, n - 1) + (if es[n - 1] == Capture(p) then 1 else 0)
  }

  predicate OffBefore(es: seq<Event>, n: nat)
    requires n <= |es|
  {
    exists m :: 0 <= m < n && es[m].EndClose?
  }

  predicate ClosedBefore(es: seq<Event>, n: nat)
    requires n <= |es|
  {
    exists m :: 0 <= m < n && es[m].BeginClose?
  }

  /** A join registers after `close` has begun. */
  predicate Overtakes(es: seq<Event>)
  {
    exists j :: 0 <= j < |es| && es[j].EndJoin? && ClosedBefore(es, j)
  }

  /** Event `i` captures the packet `x`. */
  predicate CapturesAt(es: seq<Event>, i: nat, x: Packet)
  {
    i < |es| && es[i] == Capture(x.source) && Captures(es, x.source, i) == x.index
  }

  /** Event `j` delivers the packet `x` to `d`. */
  predicate DeliversAt(es: seq<Event>, j: nat, d: Port, x: Packet)
  {
    j < |es| && es[j] == Deliver(x.source, d) && Captures(es, x.source, j) == x.index + 1
  }

  lemma {:induction false} CapturesAppend(es: seq<Event>, e: Event, p: Port, n: nat)
    requires n <= |es|
    ensures Captures(es + [e], p, n) == Captures(es, p, n)
  {
    if n > 0 { CapturesAppend(es, e, p, n - 1); }
  }

  lemma {:induction false} CapturesOneMore(es: seq<Event>, e: Event, p: Port)
    ensures Captures(es + [e], p, |es| + 1) == Captures(es, p, |es|) + (if e == Capture(p) then 1 else 0)
  {
    CapturesAppend(es, e, p, |es|);
  }

  lemma {:induction false} CapturesGrow(es: seq<Event>, p: Port, a: nat, b: nat)
    requires a <= b <= |es|
    ensures Captures(es, p, a) <= Captures(es, p, b)
    ensures a < b && es[a] == Capture(p) ==> Captures(es, p, a) < Captures(es, p, b)
    decreases b
  {
    if a < b { CapturesGrow(es, p, a, b - 1); }
  }

  lemma {:induction false} NthCapture(es: seq<Event>, p: Port, n: nat, k: nat) returns (i: nat)
    requires n <= |es| && k < Captures(es, p, n)
    ensures i < n && es[i] == Capture(p) && Captures(es, p, i) == k
    decreases n
  {
    if Captures(es, p, n - 1) == k { i := n - 1; } else { i := NthCapture(es, p, n - 1, k); }
  }

  lemma {:induction false} QuietStretch(es: seq<Event>, p: Port, a: nat, b: nat)
    requires a <= b <= |es| && forall k :: a <= k < b ==> es[k] != Capture(p)
    ensures Captures(es, p, b) == Captures(es, p, a)
    decreases b
  {
    if a < b { QuietStretch(es, p, a, b - 1); }
  }

  // ----- while no join overtakes `close` -----

  ghost predicate Logged(h: State, p: Port)
    requires p in h.ports
  {
    h.ports[p].read > 0 && Current(h.ports[p], p) in h.log
  }

  ghost predicate PortCaptured(h: State, p: Port)
    requires p in h.ports
  {
    var s := h.ports[p];
    && PhaseCaptured(h, p)
    && (forall i :: 0 <= i < |s.inbox| ==> s.inbox[i] in h.log)
  }

  ghost predicate PhaseCaptured(h: State, p: Port)
    requires p in h.ports
  {
    var phase := h.ports[p].phase;
    && (phase.Recorded? && h.recording ==> Logged(h, p))
    && (phase.Sending? && phase.to != {} ==> Logged(h, p))
  }

  lemma {:induction false} PhaseStep(h: State, e: Event, p: Port)
    requires Enabled(h, e) && p in h.ports && ThreadOk(h, p) && PhaseCaptured(h, p)
    requires h.recording || h.connections == {}
    ensures PhaseCaptured(Step(h, e), p)
  {
    PhaseAfter(h, e, p);
    if Logged(h, p) && !(e.Receive? && e.p == p) { LogStep(h, e, p); }
    if e == Capture(p) && h.recording { CaptureLogs(h, p); }
    hide Step, Logged;
    if e == Await(p) || e == Receive(p) || e == Capture(p) || e == Snapshot(p) || e == Finish(p) || e == Leave(p) {
    } else {
      RecordingStays(h, e);
      assert NextPhase(h, e, p) == h.ports[p].phase || (NextPhase(h, e, p).Sending? && h.ports[p].phase.Sending?);
    }
  }

  lemma {:induction false} RecordingStays(h: State, e: Event)
    requires Enabled(h, e)
    ensures Step(h, e).recording ==> h.recording
  {
    hide NextPorts;
  }

  lemma {:induction false} CaptureLogs(h: State, p: Port)
    requires Enabled(h, Capture(p)) && h.recording
    ensures p in Step(h, Capture(p)).ports && Logged(Step(h, Capture(p)), p)
  {
    PhaseAfter(h, Capture(p), p);
    hide NextPorts;
  }

  ghost predicate Captured(h: State)
  {
    h.capture && !h.late ==>
      && (!h.recording ==> h.closed) && (h.closed ==> h.connections == {})
      && forall p :: p in h.ports ==> PortCaptured(h, p)
  }

  lemma {:induction false} LogStep(h: State, e: Event, p: Port)
    requires Enabled(h, e) && p in h.ports && Logged(h, p) && !(e.Receive? && e.p == p)
    ensures Logged(Step(h, e), p)
  {
  }

  lemma {:induction false} PortCapturedStep(h: State, e: Event, p: Port)
    requires Inv(h) && Captured(h) && h.capture && Enabled(h, e) && p in Step(h, e).ports && !Step(h, e).late
    ensures PortCaptured(Step(h, e), p)
  {
    var h' := Step(h, e);
    if p in h.ports {
      assert PortCaptured(h, p) && PortOk(h, p);
      hide Inv, PhaseCaptured, ThreadOk;
      PhaseStep(h, e, p);
      InboxLogged(h, e, p);
    }
  }

  lemma {:induction false} InboxLogged(h: State, e: Event, p: Port)
    requires Captured(h) && h.capture && Enabled(h, e) && p in h.ports && !Step(h, e).late
    ensures forall i :: 0 <= i < |Step(h, e).ports[p].inbox| ==> Step(h, e).ports[p].inbox[i] in Step(h, e).log
  {
    assert PortCaptured(h, p);
    if e.Deliver? { assert PortCaptured(h, e.p); }
  }

  lemma {:induction false} CapturedStep(h: State, e: Event)
    requires Inv(h) && Captured(h) && Enabled(h, e)
    ensures Captured(Step(h, e))
  {
    var h' := Step(h, e);
    if h'.capture && !h'.late {
      forall p | p in h'.ports ensures PortCaptured(h', p) { PortCapturedStep(h, e, p); }
      hide Inv, PortCaptured;
    }
  }

  lemma {:induction false} CapturedRun(h: State, es: seq<Event>)
    requires Inv(h) && Captured(h) && Runs(h, es)
    ensures Captured(After(h, es))
    decreases |es|
  {
    if es != [] {
      InvStep(h, es[0]);
      CapturedStep(h, es[0]);
      hide Inv, Captured, Step, Enabled;
      CapturedRun(Step(h, es[0]), es[1..]);
    }
  }

  lemma {:induction false} KeepsCapture(h: State, es: seq<Event>)
    requires Runs(h, es)
    ensures After(h, es).capture == h.capture
    decreases |es|
  {
    if es != [] {
      var n := Step(h, es[0]);
      assert n.capture == h.capture;
      hide Step, Enabled;
      KeepsCapture(n, es[1..]);
    }
  }

  // ----- the state, said of the schedule -----

  ghost predicate FlagsMatch(es: seq<Event>, h: State)
  {
    && (h.closed <==> ClosedBefore(es, |es|))
    && (h.recording <==> h.capture && !OffBefore(es, |es|))
    && (h.late <==> Overtakes(es))
  }

  lemma {:induction false} FlagsAppend(es: seq<Event>, e: Event)
    ensures ClosedBefore(es + [e], |es| + 1) <==> ClosedBefore(es, |es|) || e.BeginClose?
    ensures OffBefore(es + [e], |es| + 1) <==> OffBefore(es, |es|) || e.EndClose?
    ensures Overtakes(es + [e]) <==> Overtakes(es) || (e.EndJoin? && ClosedBefore(es, |es|))
  {
    var all, n := es + [e], |es|;
    assert forall m :: 0 <= m < n ==> all[m] == es[m];
    assert forall j :: 0 <= j <= n ==> (ClosedBefore(all, j) <==> ClosedBefore(es, j)) by {
      forall j | 0 <= j <= n ensures ClosedBefore(all, j) <==> ClosedBefore(es, j) {
        if m :| 0 <= m < j && all[m].BeginClose? { assert es[m].BeginClose?; }
        if m :| 0 <= m < j && es[m].BeginClose? { assert all[m].BeginClose?; }
      }
    }
    assert all[n] == e;
    if m :| 0 <= m < n && es[m].BeginClose? { assert all[m].BeginClose?; }
    if m :| 0 <= m < n && es[m].EndClose? { assert all[m].EndClose?; }
    if j :| 0 <= j < n && es[j].EndJoin? && ClosedBefore(es, j) { assert all[j].EndJoin?; }
  }

  lemma {:induction false} FlagsStep(es: seq<Event>, h: State, e: Event)
    requires FlagsMatch(es, h) && Enabled(h, e)
    ensures FlagsMatch(es + [e], Step(h, e))
  {
    FlagsAppend(es, e);
    hide ClosedBefore, OffBefore, Overtakes, Enabled, NextPorts;
  }

  /** The flags of the final state are conditions on the schedule. */
  lemma {:induction false} FlagsRun(capture: bool, es: seq<Event>)
    requires Runs(Start(capture), es)
    ensures FlagsMatch(es, After(Start(capture), es))
    decreases |es|
  {
    if es != [] {
      var n := |es| - 1;
      var before, e := es[..n], es[n];
      assert es == before + [e];
      RunLast(Start(capture), before, e);
      FlagsRun(capture, before);
      hide Runs, After, Step, Enabled, FlagsMatch;
      FlagsStep(before, After(Start(capture), before), e);
    }
  }

  /** How many frames of a port have been captured, going by its thread. */
  ghost predicate Counted(n: nat, s: PortState)
  {
    match s.phase
    case Got => n + 1 == s.read
    case Done => n <= s.read
    case _ => n == s.read
  }

  ghost predicate CountsMatch(es: seq<Event>, h: State)
  {
    forall p :: if p in h.ports then Counted(Captures(es, p, |es|), h.ports[p]) else Captures(es, p, |es|) == 0
  }

  lemma {:induction false} CountsStep(es: seq<Event>, h: State, e: Event)
    requires CountsMatch(es, h) && Enabled(h, e)
    ensures CountsMatch(es + [e], Step(h, e))
  {
    forall p
      ensures var n := Captures(es + [e], p, |es| + 1);
              if p in Step(h, e).ports then Counted(n, Step(h, e).ports[p]) else n == 0
    {
      CapturesOneMore(es, e, p);
      var n := Captures(es, p, |es|);
      assert if p in h.ports then Counted(n, h.ports[p]) else n == 0;
      hide CountsMatch, Captures, Step, Enabled, Counted;
      if p in h.ports { CountStep(h, e, p, n); } else { UnknownPort(h, e, p); }
    }
  }

  lemma {:induction false} CountStep(h: State, e: Event, p: Port, n: nat)
    requires Enabled(h, e) && p in h.ports && Counted(n, h.ports[p])
    ensures p in Step(h, e).ports && Counted(n + (if e == Capture(p) then 1 else 0), Step(h, e).ports[p])
  {
    PhaseAfter(h, e, p);
    hide Step, NextInbox;
    if e == Capture(p) || e == Await(p) || e == Receive(p) || e == Finish(p) || e == Leave(p) || e == Snapshot(p) {
    } else {
      assert NextPhase(h, e, p) == h.ports[p].phase || (NextPhase(h, e, p).Sending? && h.ports[p].phase.Sending?);
    }
  }

  lemma {:induction false} UnknownPort(h: State, e: Event, p: Port)
    requires Enabled(h, e) && p !in h.ports
    ensures e != Capture(p) && (p in Step(h, e).ports ==> Counted(0, Step(h, e).ports[p]))
  {
  }

  lemma {:induction false} CountsRun(capture: bool, es: seq<Event>)
    requires Runs(Start(capture), es)
    ensures CountsMatch(es, After(Start(capture), es))
    decreases |es|
  {
    if es != [] {
      var n := |es| - 1;
      var before, e := es[..n], es[n];
      assert es == before + [e];
      RunLast(Start(capture), before, e);
      CountsRun(capture, before);
      hide Runs, After, Step, Enabled, CountsMatch;
      CountsStep(before, After(Start(capture), before), e);
    }
  }

  // ----- the log -----

  ghost predicate LoggedBy(es: seq<Event>, x: Packet)
  {
    exists i: nat :: CapturesAt(es, i, x) && !OffBefore(es, i)
  }

  ghost predicate LogMatches(es: seq<Event>, h: State)
  {
    forall x :: x in h.log <==> h.capture && LoggedBy(es, x)
  }

  lemma {:induction false} OffPrefix(es: seq<Event>, e: Event, i: nat)
    requires i <= |es|
    ensures OffBefore(es + [e], i) <==> OffBefore(es, i)
  {
    var all := es + [e];
    assert forall m :: 0 <= m < i ==> all[m] == es[m];
    if m :| 0 <= m < i && es[m].EndClose? { assert all[m].EndClose?; }
  }

  lemma {:induction false} LoggedAppend(es: seq<Event>, e: Event, x: Packet)
    ensures LoggedBy(es + [e], x) <==>
            || LoggedBy(es, x)
            || (e == Capture(x.source) && Captures(es, x.source, |es|) == x.index && !OffBefore(es, |es|))
  {
    var all, n := es + [e], |es|;
    hide OffBefore, Captures;
    if i: nat :| CapturesAt(all, i, x) && !OffBefore(all, i) {
      CapturesAppend(es, e, x.source, i);
      OffPrefix(es, e, i);
      if i < n { assert CapturesAt(es, i, x) && !OffBefore(es, i); }
    }
    if i: nat :| CapturesAt(es, i, x) && !OffBefore(es, i) {
      CapturesAppend(es, e, x.source, i);
      OffPrefix(es, e, i);
      assert CapturesAt(all, i, x) && !OffBefore(all, i);
    }
    if e == Capture(x.source) && Captures(es, x.source, n) == x.index && !OffBefore(es, n) {
      CapturesAppend(es, e, x.source, n);
      OffPrefix(es, e, n);
      assert CapturesAt(all, n, x) && !OffBefore(all, n);
    }
  }

  lemma {:induction false} LogGrows(h: State, e: Event, x: Packet)
    requires Enabled(h, e)
    ensures x in Step(h, e).log <==> x in h.log || (h.recording && e.Capture? && x == Current(h.ports[e.p], e.p))
  {
    hide NextPorts, NextConnections;
  }

  lemma {:induction false} LogStepMatches(es: seq<Event>, h: State, e: Event)
    requires LogMatches(es, h) && CountsMatch(es, h) && FlagsMatch(es, h) && Enabled(h, e)
    ensures LogMatches(es + [e], Step(h, e))
  {
    assert h.recording <==> h.capture && !OffBefore(es, |es|);
    if e.Capture? { assert Counted(Captures(es, e.p, |es|), h.ports[e.p]); }
    assert Step(h, e).capture == h.capture;
    hide FlagsMatch, CountsMatch, OffBefore, Captures, LoggedBy, Step;
    forall x ensures x in Step(h, e).log <==> h.capture && LoggedBy(es + [e], x) {
      LoggedAppend(es, e, x);
      LogGrows(h, e, x);
    }
  }

  /** The capture file holds exactly the frames captured before it was closed. */
  lemma {:induction false} LogRun(capture: bool, es: seq<Event>)
    requires Runs(Start(capture), es)
    ensures LogMatches(es, After(Start(capture), es))
    decreases |es|
  {
    if es != [] {
      var n := |es| - 1;
      var before, e := es[..n], es[n];
      assert es == before + [e];
      RunLast(Start(capture), before, e);
      LogRun(capture, before);
      CountsRun(capture, before);
      FlagsRun(capture, before);
      hide Runs, After, Step, Enabled, LogMatches, CountsMatch, FlagsMatch;
      LogStepMatches(before, After(Start(capture), before), e);
    }
  }

  // ----- the inboxes -----

  ghost predicate DeliveredBy(es: seq<Event>, d: Port, x: Packet) { exists j: nat :: DeliversAt(es, j, d, x) }

  ghost predicate InboxMatches(es: seq<Event>, h: State)
  {
    forall d, x :: DeliveredBy(es, d, x) <==> d in h.ports && x in h.ports[d].inbox
  }

  lemma {:induction false} DeliveredAppend(es: seq<Event>, e: Event, d: Port, x: Packet)
    ensures DeliveredBy(es + [e], d, x) <==>
            DeliveredBy(es, d, x) || (e == Deliver(x.source, d) && Captures(es, x.source, |es|) == x.index + 1)
  {
    var all, n := es + [e], |es|;
    hide Captures;
    if j: nat :| DeliversAt(all, j, d, x) {
      CapturesAppend(es, e, x.source, j);
      if j < n { assert DeliversAt(es, j, d, x); }
    }
    if j: nat :| DeliversAt(es, j, d, x) {
      CapturesAppend(es, e, x.source, j);
      assert DeliversAt(all, j, d, x);
    }
    if e == Deliver(x.source, d) && Captures(es, x.source, n) == x.index + 1 {
      CapturesAppend(es, e, x.source, n);
      assert DeliversAt(all, n, d, x);
    }
  }

  lemma {:induction false} InboxGains(h: State, e: Event, d: Port, x: Packet)
    requires Enabled(h, e)
    ensures d in Step(h, e).ports && x in Step(h, e).ports[d].inbox <==>
            (d in h.ports && x in h.ports[d].inbox) || (e.Deliver? && d == e.d && x == Current(h.ports[e.p], e.p))
  {
    if d in Step(h, e).ports {
      InboxGrows(h, e, d);
      hide Step, Enabled;
    }
  }

  lemma {:induction false} InboxStepMatches(es: seq<Event>, h: State, e: Event)
    requires InboxMatches(es, h) && CountsMatch(es, h) && Enabled(h, e)
    ensures InboxMatches(es + [e], Step(h, e))
  {
    if e.Deliver? { assert Counted(Captures(es, e.p, |es|), h.ports[e.p]); }
    hide CountsMatch, Captures, DeliveredBy, Step;
    forall d, x ensures DeliveredBy(es + [e], d, x) <==> d in Step(h, e).ports && x in Step(h, e).ports[d].inbox {
      DeliveredAppend(es, e, d, x);
      InboxGains(h, e, d, x);
    }
  }

  /** An inbox holds exactly what was delivered to it, each packet the one captured last. */
  lemma {:induction false} InboxRun(capture: bool, es: seq<Event>)
    requires Runs(Start(capture), es)
    ensures InboxMatches(es, After(Start(capture), es))
    decreases |es|
  {
    if es == [] {
      forall d, x ensures !DeliveredBy(es, d, x) {}
    } else {
      var n := |es| - 1;
      var before, e := es[..n], es[n];
      assert es == before + [e];
      RunLast(Start(capture), before, e);
      InboxRun(capture, before);
      CountsRun(capture, before);
      hide Runs, After, Step, Enabled, InboxMatches, CountsMatch;
      InboxStepMatches(before, After(Start(capture), before), e);
    }
  }

  // ----- when the promise is kept -----

  /** Frame by frame: a delivered packet was captured by one event of the schedule, before its
      delivery, and is in the capture file if and only if the file was still open then. */
  lemma {:induction false} FrameCapturedIff(es: seq<Event>, d: Port, x: Packet) returns (i: nat)
    requires Runs(Start(true), es) && d in After(Start(true), es).ports && x in After(Start(true), es).ports[d].inbox
    ensures CapturesAt(es, i, x) && forall k: nat :: CapturesAt(es, k, x) ==> k == i
    ensures exists j: nat :: i < j && DeliversAt(es, j, d, x)
    ensures x in After(Start(true), es).log <==> !OffBefore(es, i)
  {
    InboxRun(true, es);
    LogRun(true, es);
    KeepsCapture(Start(true), es);
    assert DeliveredBy(es, d, x);
    hide Runs, After, OffBefore, InboxMatches;
    var j: nat :| DeliversAt(es, j, d, x);
    i := NthCapture(es, x.source, j, x.index);
    forall k: nat | CapturesAt(es, k, x) ensures k == i { OneCapture(es, x, i, k); }
  }

  lemma {:induction false} OneCapture(es: seq<Event>, x: Packet, i: nat, k: nat)
    requires CapturesAt(es, i, x) && CapturesAt(es, k, x)
    ensures i == k
  {
    if i < k { CapturesGrow(es, x.source, i, k); }
    if k < i { CapturesGrow(es, x.source, k, i); }
  }

  /** The schedule closes the capture file (`m`), then captures a frame (`i`), then delivers it (`j`). */
  predicate LateFrame(es: seq<Event>, m: nat, i: nat, j: nat)
  {
    && m < i < j < |es| && es[m].EndClose? && es[i].Capture? && es[j].Deliver? && es[j].p == es[i].p
    && forall k :: i < k < j ==> es[k] != es[i]
  }

  /** Some packet was delivered that the capture file does not hold. */
  ghost predicate Escaped(h: State)
  {
    exists d, x :: d in h.ports && x in h.ports[d].inbox && x !in h.log
  }

  lemma {:induction false} EscapeIsLate(es: seq<Event>, d: Port, x: Packet) returns (m: nat, i: nat, j: nat)
    requires Runs(Start(true), es) && d in After(Start(true), es).ports && x in After(Start(true), es).ports[d].inbox
    requires x !in After(Start(true), es).log
    ensures LateFrame(es, m, i, j)
  {
    i := FrameCapturedIff(es, d, x);
    hide Runs, After;
    j :| i < j && DeliversAt(es, j, d, x);
    m :| 0 <= m < i && es[m].EndClose?;
    forall k | i < k < j ensures es[k] != Capture(x.source) {
      CapturesGrow(es, x.source, i, k);
      CapturesGrow(es, x.source, k, j);
    }
  }

  lemma {:induction false} LateEscapes(es: seq<Event>, m: nat, i: nat, j: nat)
    requires Runs(Start(true), es) && LateFrame(es, m, i, j)
    ensures Escaped(After(Start(true), es))
  {
    var h, p := After(Start(true), es), es[i].p;
    InboxRun(true, es);
    LogRun(true, es);
    hide Runs, After;
    var x := Packet(p, Captures(es, p, i));
    assert CapturesAt(es, i, x);
    QuietStretch(es, p, i + 1, j);
    assert DeliversAt(es, j, es[j].d, x);
    assert DeliveredBy(es, es[j].d, x);
    assert OffBefore(es, i);
    if x in h.log {
      var k: nat :| CapturesAt(es, k, x) && !OffBefore(es, k);
      OneCapture(es, x, i, k);
    }
  }

  /** Exactly when the promise fails: a frame is captured after the file was closed, and delivered. */
  lemma {:induction false} EscapesIff(es: seq<Event>)
    requires Runs(Start(true), es)
    ensures Escaped(After(Start(true), es)) <==> exists m, i, j :: LateFrame(es, m, i, j)
  {
    var h := After(Start(true), es);
    if Escaped(h) {
      var d, x :| d in h.ports && x in h.ports[d].inbox && x !in h.log;
      var m, i, j := EscapeIsLate(es, d, x);
    }
    hide Escaped;
    if m, i, j :| LateFrame(es, m, i, j) { LateEscapes(es, m, i, j); }
  }

  /** A schedule in which no join registers after `close` has begun keeps the promise. */
  lemma {:induction false} DeliveredWasCaptured(es: seq<Event>)
    requires Runs(Start(true), es) && !Overtakes(es)
    ensures !Escaped(After(Start(true), es))
  {
    var h := After(Start(true), es);
    CapturedRun(Start(true), es);
    KeepsCapture(Start(true), es);
    FlagsRun(true, es);
    hide Runs, After, Overtakes;
    forall d, x | d in h.ports && x in h.ports[d].inbox ensures x in h.log { assert PortCaptured(h, d); }
  }

  // ----- how far the exception reaches -----

  /** Everything in the capture file is behind a capture step. */
  ghost predicate LogRead(h: State)
  {
    forall x :: x in h.log ==> x.source in h.ports && x.index < Taken(h.ports[x.source])
  }

  /** How many frames of a port can have been captured. */
  function Taken(s: PortState): int { if s.phase.Got? then s.read - 1 else s.read }

  lemma {:induction false} TakenGrows(h: State, e: Event, p: Port)
    requires Enabled(h, e) && p in h.ports
    ensures p in Step(h, e).ports && Taken(h.ports[p]) <= Taken(Step(h, e).ports[p])
    ensures e == Capture(p) ==> Taken(Step(h, e).ports[p]) == h.ports[p].read > 0
  {
    PhaseAfter(h, e, p);
    hide Step;
  }

  lemma {:induction false} LogReadStep(h: State, e: Event)
    requires LogRead(h) && Enabled(h, e)
    ensures LogRead(Step(h, e))
  {
    forall x | x in Step(h, e).log
      ensures x.source in Step(h, e).ports && x.index < Taken(Step(h, e).ports[x.source])
    {
      LogGrows(h, e, x);
      assert x !in h.log ==> e.Capture? && e.p in h.ports && x.source == e.p && x.index < h.ports[e.p].read;
      hide Step, Enabled;
      TakenGrows(h, e, x.source);
    }
  }

  /** Which sockets are open, and which `close` has shut. */
  ghost predicate SocketsOk(h: State)
  {
    && h.connections <= h.open <= h.ports.Keys && h.closing + h.shut <= h.ports.Keys
    && h.open !! h.shut && h.closing !! h.connections && (!h.closed ==> h.closing == {})
    && (forall p :: p in h.open ==> h.ports[p].phase != Done)
  }

  lemma {:induction false} SocketsStep(h: State, e: Event)
    requires SocketsOk(h) && Enabled(h, e)
    ensures SocketsOk(Step(h, e))
  {
    var g := Step(h, e);
    assert g.connections == NextConnections(h, e) && g.open == NextOpen(h, e);
    assert g.ports.Keys == h.ports.Keys + (if e.EndJoin? then {e.p} else {});
    forall p | p in g.open ensures p in g.ports && g.ports[p].phase != Done {
      if p in h.ports { PhaseAfter(h, e, p); }
    }
  }

  ghost predicate Good(h: State) { Inv(h) && LogRead(h) && SocketsOk(h) }

  lemma {:induction false} GoodStep(h: State, e: Event)
    requires Good(h) && Enabled(h, e)
    ensures Good(Step(h, e))
  {
    hide Inv, LogRead, SocketsOk, Step, Enabled;
    InvStep(h, e);
    LogReadStep(h, e);
    SocketsStep(h, e);
  }

  lemma {:induction false} GoodRun(h: State, es: seq<Event>)
    requires Good(h) && Runs(h, es)
    ensures Good(After(h, es))
    decreases |es|
  {
    if es != [] {
      GoodStep(h, es[0]);
      hide Good, Step, Enabled;
      GoodRun(Step(h, es[0]), es[1..]);
    }
  }

  lemma {:induction false} GoodStart(capture: bool)
    ensures Good(Start(capture))
  {
  }

  /** The current frame of a thread is in no capture file. */
  ghost predicate Unlogged(h: State, q: Port)
    requires q in h.ports
  {
    h.ports[q].read > 0 && Current(h.ports[q], q) !in h.log
  }

  /** `q` can still come to forward a frame that is captured too late. */
  ghost predicate Source(h: State, q: Port)
  {
    || q in h.joining || q in h.open
    || (q in h.ports && match h.ports[q].phase
                        case Waiting => q !in h.shut
                        case Got => true
                        case Recorded => Unlogged(h, q)
                        case _ => false)
  }

  /** `d` is a destination of frames forwarded from now on, or can become one. */
  predicate Target(h: State, d: Port) { d in h.joining || d in h.connections }

  /** `q` is about to send `d` a frame that is in no capture file. */
  ghost predicate OnItsWay(h: State, q: Port, d: Port) { Serves(h, q, d) && d in h.open && Unlogged(h, q) }

  /** What it takes for a frame to escape sooner or later. */
  ghost predicate CanEscape(h: State)
  {
    || Escaped(h) || !h.closed
    || (exists q, d :: q != d && Source(h, q) && Target(h, d))
    || (exists q, d :: OnItsWay(h, q, d))
  }

  // ----- nothing else escapes -----

  lemma {:induction false} UnloggedBefore(h: State, e: Event, q: Port)
    requires Enabled(h, e) && q in h.ports && Unlogged(Step(h, e), q) && e != Receive(q)
    ensures Unlogged(h, q)
  {
    PhaseAfter(h, e, q);
    LogGrows(h, e, Current(h.ports[q], q));
    hide Step;
  }

  lemma {:induction false} PhaseBefore(h: State, e: Event, q: Port)
    requires Enabled(h, e) && q in h.ports
    ensures var phase, next := h.ports[q].phase, NextPhase(h, e, q);
            && (next == Waiting ==> phase == Waiting || q in h.open)
            && (next == Got ==> phase == Got || (phase == Waiting && q !in h.shut))
            && (next == Recorded ==> phase == Got || (phase == Recorded && e != Receive(q)))
  {
  }

  lemma {:induction false} ThreadBefore(h: State, e: Event, q: Port)
    requires Enabled(h, e) && q in h.ports && Source(Step(h, e), q)
    ensures Source(h, q) || q in Step(h, e).joining || q in Step(h, e).open
  {
    PhaseBefore(h, e, q);
    PhaseAfter(h, e, q);
    SocketsAfter(h, e);
    if Unlogged(Step(h, e), q) && e != Receive(q) { UnloggedBefore(h, e, q); }
    hide Step, Enabled, NextPhase, NextOpen, NextConnections, Unlogged;
  }

  lemma {:induction false} SourceBefore(h: State, e: Event, q: Port)
    requires Enabled(h, e) && h.closed && Source(Step(h, e), q)
    ensures Source(h, q)
  {
    SocketsAfter(h, e);
    hide Step;
    if q in h.ports { ThreadBefore(h, e, q); }
    hide Unlogged;
  }

  lemma {:induction false} SocketsAfter(h: State, e: Event)
    requires Enabled(h, e)
    ensures Step(h, e).open == NextOpen(h, e) && Step(h, e).connections == NextConnections(h, e)
    ensures h.shut <= Step(h, e).shut && Step(h, e).ports.Keys == h.ports.Keys + (if e.EndJoin? then {e.p} else {})
    ensures h.closed ==> Step(h, e).joining <= h.joining && Step(h, e).closed
  {
    hide NextOpen, NextConnections;
  }

  lemma {:induction false} TargetBefore(h: State, e: Event, d: Port)
    requires Enabled(h, e) && h.closed && Target(Step(h, e), d)
    ensures Target(h, d)
  {
    SocketsAfter(h, e);
    hide Step;
  }

  lemma {:induction false} OnItsWayBefore(h: State, e: Event, q: Port, d: Port)
    requires Enabled(h, e) && h.closed && Good(h) && OnItsWay(Step(h, e), q, d)
    ensures OnItsWay(h, q, d) || (q != d && Source(h, q) && Target(h, d))
  {
    SocketsAfter(h, e);
    assert q in h.ports;
    assert PortOk(h, q);
    PhaseAfter(h, e, q);
    UnloggedBefore(h, e, q);
    hide Step, Unlogged, Inv, LogRead;
  }

  lemma {:induction false} EscapedBefore(h: State, e: Event)
    requires Enabled(h, e) && Escaped(Step(h, e))
    ensures Escaped(h) || exists q, d :: OnItsWay(h, q, d)
  {
    var g := Step(h, e);
    var d, x :| d in g.ports && x in g.ports[d].inbox && x !in g.log;
    InboxGains(h, e, d, x);
    LogGrows(h, e, x);
    hide Step;
    if !(d in h.ports && x in h.ports[d].inbox) { assert OnItsWay(h, e.p, d); }
  }

  /** No step brings an escape within reach that was not. */
  lemma {:induction false} CanEscapeBefore(h: State, e: Event)
    requires Enabled(h, e) && Good(h) && CanEscape(Step(h, e))
    ensures CanEscape(h)
  {
    if h.closed {
      var g := Step(h, e);
      SocketsAfter(h, e);
      assert SocketsOk(h);
      hide Step, Enabled, Source, Target, OnItsWay, Good, SocketsOk, Escaped;
      if Escaped(g) {
        EscapedBefore(h, e);
      } else if q, d :| q != d && Source(g, q) && Target(g, d) {
        SourceBefore(h, e, q);
        TargetBefore(h, e, d);
      } else {
        var q, d :| OnItsWay(g, q, d);
        OnItsWayBefore(h, e, q, d);
      }
    }
  }

  ghost predicate Leaks(h: State, es: seq<Event>) { Runs(h, es) && Escaped(After(h, es)) }

  lemma {:induction false} LeakNeedsReach(h: State, es: seq<Event>)
    requires Good(h) && Leaks(h, es)
    ensures CanEscape(h)
    decreases |es|
  {
    if es != [] {
      var g := Step(h, es[0]);
      GoodStep(h, es[0]);
      assert Enabled(h, es[0]) && Leaks(g, es[1..]);
      hide Good, Step, Enabled, CanEscape, Leaks;
      LeakNeedsReach(g, es[1..]);
      CanEscapeBefore(h, es[0]);
    }
  }

  // ----- and all of it does -----

  lemma {:induction false} LeaksOne(h: State, e: Event, es: seq<Event>)
    requires Enabled(h, e) && Leaks(Step(h, e), es)
    ensures Leaks(h, [e] + es)
  {
    hide Step, Enabled, Escaped;
    RunOne(h, e, es);
  }

  lemma {:induction false} LeaksAfter(h: State, a: seq<Event>, b: seq<Event>)
    requires Runs(h, a) && Leaks(After(h, a), b)
    ensures Leaks(h, a + b)
  {
    hide Runs, After, Escaped;
    RunConcat(h, a, b);
  }

  /** Threads move, but no socket opens or closes. */
  ghost predicate SameSockets(h: State, g: State)
  {
    && g.ports.Keys == h.ports.Keys && g.connections == h.connections && g.open == h.open
    && g.shut == h.shut && g.closed == h.closed
  }

  lemma {:induction false} ThreadMoves(h: State, e: Event)
    requires Enabled(h, e) && SocketsOk(h)
    requires || e.Send? || e.Await? || e.Receive? || e.Capture? || e.Snapshot? || e.Deliver? || e.Finish?
             || (e.Fail? && e.d !in h.open)
    ensures SameSockets(h, Step(h, e))
  {
    SocketsAfter(h, e);
    assert Step(h, e).shut == h.shut && Step(h, e).closed == h.closed;
    hide Step, Enabled;
  }

  /** Serve one destination more, or finish. */
  lemma {:induction false} ServeOne(h: State, q: Port) returns (e: Event)
    requires Good(h) && q in h.ports && h.ports[q].phase.Sending?
    ensures Enabled(h, e) && Good(Step(h, e)) && SameSockets(h, Step(h, e)) && q in Step(h, e).ports
    ensures var to, next := h.ports[q].phase.to, Step(h, e).ports[q].phase;
            if to == {} then next == Idle else next.Sending? && next.to < to
  {
    var to := h.ports[q].phase.to;
    e := Finish(q);
    assert PortOk(h, q);
    hide FlowOk;
    if to != {} {
      var d :| d in to;
      e := if d in h.open then Deliver(q, d) else Fail(q, d);
    }
    assert Enabled(h, e) && SocketsOk(h);
    hide Inv, PortOk, LogRead, SocketsOk;
    GoodStep(h, e);
    ThreadMoves(h, e);
    PhaseAfter(h, e, q);
    hide Good, Step, SameSockets;
  }

  /** Capture, or choose the destinations. */
  lemma {:induction false} HandleOne(h: State, q: Port) returns (e: Event)
    requires Good(h) && q in h.ports && (h.ports[q].phase == Got || h.ports[q].phase == Recorded)
    ensures Enabled(h, e) && Good(Step(h, e)) && SameSockets(h, Step(h, e)) && q in Step(h, e).ports
    ensures var next := Step(h, e).ports[q].phase;
            if h.ports[q].phase == Got then next == Recorded else next.Sending?
  {
    assert PortOk(h, q);
    e := if h.ports[q].phase.Got? then Capture(q) else Snapshot(q);
    assert Enabled(h, e) && SocketsOk(h);
    hide Inv, PortOk, LogRead, SocketsOk;
    GoodStep(h, e);
    ThreadMoves(h, e);
    PhaseAfter(h, e, q);
    hide Good, Step, SameSockets;
  }

  /** The thread of `q` can finish what it is sending. */
  lemma {:induction false} FinishSending(h: State, q: Port) returns (es: seq<Event>)
    requires Good(h) && q in h.ports && h.ports[q].phase.Sending?
    ensures Runs(h, es) && SameSockets(h, After(h, es)) && After(h, es).ports[q].phase == Idle
    decreases h.ports[q].phase.to
  {
    var e := ServeOne(h, q);
    var g := Step(h, e);
    hide Good, Step, Enabled;
    if h.ports[q].phase.to == {} {
      es := [e];
      RunOne(h, e, []);
      assert [e] + [] == [e];
    } else {
      var rest := FinishSending(g, q);
      es := [e] + rest;
      RunOne(h, e, rest);
    }
  }

  /** From any phase but the last, the thread of `q` can come back for the next frame. */
  lemma {:induction false} ComeToRest(h: State, q: Port) returns (es: seq<Event>)
    requires Good(h) && q in h.ports && h.ports[q].phase != Done
    ensures Runs(h, es) && SameSockets(h, After(h, es)) && AtRest(After(h, es).ports[q].phase)
    decreases match h.ports[q].phase case Got => 2 case Recorded => 1 case _ => 0
  {
    hide Good;
    if AtRest(h.ports[q].phase) {
      es := [];
    } else if h.ports[q].phase.Sending? {
      es := FinishSending(h, q);
    } else {
      var e := HandleOne(h, q);
      hide Step, Enabled;
      var rest := ComeToRest(Step(h, e), q);
      es := [e] + rest;
      RunOne(h, e, rest);
    }
  }

  lemma {:induction false} SentAfter(h: State, q: Port, f: Frame)
    requires Enabled(h, Send(q, f))
    ensures q in Step(h, Send(q, f)).ports && Step(h, Send(q, f)).ports[q].sent == h.ports[q].sent + [f]
  {
    hide NextPhase, NextInbox;
  }

  /** A waiting thread whose participant sends one more frame. */
  lemma {:induction false} ReadOne(h: State, q: Port) returns (es: seq<Event>)
    requires Good(h) && q in h.ports && h.ports[q].phase == Waiting && q !in h.shut
    ensures Runs(h, es) && SameSockets(h, After(h, es)) && After(h, es).ports[q].phase == Got
  {
    var f: Frame := [0];
    var send, receive := Send(q, f), Receive(q);
    assert Enabled(h, send) && SocketsOk(h) && PortOk(h, q);
    SentAfter(h, q, f);
    PhaseAfter(h, send, q);
    ThreadMoves(h, send);
    GoodStep(h, send);
    var g := Step(h, send);
    assert Enabled(g, receive) && SocketsOk(g) by { hide Step, Inv, LogRead; }
    ThreadMoves(g, receive);
    PhaseAfter(g, receive, q);
    var k := Step(g, receive);
    hide Step, Enabled, Good, SocketsOk, Inv, PortOk;
    RunOne(g, receive, []);
    RunOne(h, send, [receive]);
    assert [receive] + [] == [receive];
    es := [send] + [receive];
  }

  /** A thread with an open socket can be brought to hold a new frame. */
  lemma {:induction false} GetOne(h: State, q: Port) returns (es: seq<Event>)
    requires Good(h) && q in h.ports && (q in h.open || (h.ports[q].phase == Waiting && q !in h.shut))
    ensures Runs(h, es) && SameSockets(h, After(h, es)) && After(h, es).ports[q].phase == Got
  {
    assert SocketsOk(h);
    if h.ports[q].phase == Waiting {
      hide Good, SocketsOk, Runs, After;
      es := ReadOne(h, q);
    } else {
      assert q in h.open && h.ports[q].phase != Done && q !in h.shut;
      hide SocketsOk;
      var a := ComeToRest(h, q);
      GoodRun(h, a);
      var g := After(h, a);
      hide Good, Runs, After;
      var b := WaitAndRead(g, q);
      GoodConcat(h, a, b);
      es := a + b;
    }
  }

  lemma {:induction false} WaitAndRead(h: State, q: Port) returns (es: seq<Event>)
    requires Good(h) && q in h.ports && AtRest(h.ports[q].phase) && q in h.open && q !in h.shut
    ensures Runs(h, es) && SameSockets(h, After(h, es)) && After(h, es).ports[q].phase == Got
  {
    if h.ports[q].phase == Waiting {
      hide Good, Runs, After;
      es := ReadOne(h, q);
    } else {
      var e := Await(q);
      assert Enabled(h, e) && SocketsOk(h);
      GoodStep(h, e);
      ThreadMoves(h, e);
      PhaseAfter(h, e, q);
      hide Good, SocketsOk, Step, Enabled;
      var g := Step(h, e);
      var rest := ReadOne(g, q);
      RunOne(h, e, rest);
      es := [e] + rest;
    }
  }

  lemma {:induction false} GoodConcat(h: State, a: seq<Event>, b: seq<Event>)
    requires Runs(h, a) && Runs(After(h, a), b)
    ensures Runs(h, a + b) && After(h, a + b) == After(After(h, a), b)
  {
    hide *;
    RunConcat(h, a, b);
  }

  /** `close` can shut down what it has left to shut down, and close the file. */
  lemma {:induction false} CloseFile(h: State) returns (es: seq<Event>)
    requires h.closed
    ensures Runs(h, es)
    ensures var g := After(h, es);
            g.ports == h.ports && g.connections == h.connections && g.log == h.log && !g.recording
    decreases h.closing
  {
    var e := EndClose;
    if h.closing != {} {
      var p :| p in h.closing;
      e := Shut(p);
    }
    assert Enabled(h, e);
    CloserMoves(h, e);
    var g := Step(h, e);
    hide Step, Enabled;
    if h.closing == {} {
      es := [e];
      RunOne(h, e, []);
      assert [e] + [] == [e];
    } else {
      var rest := CloseFile(g);
      RunOne(h, e, rest);
      es := [e] + rest;
    }
  }

  lemma {:induction false} CloserMoves(h: State, e: Event)
    requires Enabled(h, e) && (e.Shut? || e.EndClose?) && h.closed
    ensures var g := Step(h, e);
            && g.ports == h.ports && g.connections == h.connections && g.log == h.log && g.closed
            && (if e.Shut? then g.closing == h.closing - {e.p} else !g.recording)
  {
    forall p | p in h.ports ensures Step(h, e).ports[p] == h.ports[p] {}
    assert Step(h, e).ports.Keys == h.ports.Keys;
  }

  lemma {:induction false} DeliveryLeaks(h: State, q: Port, d: Port) returns (es: seq<Event>)
    requires OnItsWay(h, q, d)
    ensures Leaks(h, es)
  {
    var e, x := Deliver(q, d), Current(h.ports[q], q);
    InboxGains(h, e, d, x);
    LogGrows(h, e, x);
    hide Step;
    var g := Step(h, e);
    assert Escaped(g);
    assert Leaks(g, []);
    LeaksOne(h, e, []);
    es := [e] + [];
  }

  lemma {:induction false} RecordedLeaks(h: State, q: Port, d: Port) returns (es: seq<Event>)
    requires Good(h) && q in h.ports && d in h.connections && d != q
    requires h.ports[q].phase == Recorded && Unlogged(h, q)
    ensures Leaks(h, es)
  {
    var e := Snapshot(q);
    assert Enabled(h, e) && SocketsOk(h);
    PhaseAfter(h, e, q);
    ThreadMoves(h, e);
    LogGrows(h, e, Current(h.ports[q], q));
    hide Step, Good, Inv, LogRead;
    var g := Step(h, e);
    assert d in g.ports && OnItsWay(g, q, d);
    hide SocketsOk, OnItsWay, Leaks, Enabled;
    var rest := DeliveryLeaks(g, q, d);
    LeaksOne(h, e, rest);
    es := [e] + rest;
  }

  lemma {:induction false} GotLeaks(h: State, q: Port, d: Port) returns (es: seq<Event>)
    requires Good(h) && q in h.ports && d in h.connections && d != q && h.ports[q].phase == Got && !h.recording
    ensures Leaks(h, es)
  {
    var e := Capture(q);
    assert PortOk(h, q);
    assert Unlogged(h, q);
    assert Enabled(h, e) && SocketsOk(h);
    PhaseAfter(h, e, q);
    ThreadMoves(h, e);
    GoodStep(h, e);
    LogGrows(h, e, Current(h.ports[q], q));
    hide Step, Good, Inv, LogRead, PortOk, SocketsOk, Enabled, Leaks;
    var g := Step(h, e);
    var rest := RecordedLeaks(g, q, d);
    LeaksOne(h, e, rest);
    es := [e] + rest;
  }

  /** A frame in hand leaks once the file is closed. */
  lemma {:induction false} HeldLeaks(h: State, q: Port, d: Port) returns (es: seq<Event>)
    requires Good(h) && h.closed && q in h.ports && d in h.connections && d != q && h.ports[q].phase == Got
    ensures Leaks(h, es)
  {
    var a := CloseFile(h);
    GoodRun(h, a);
    hide Good, Runs, After, Leaks;
    var b := GotLeaks(After(h, a), q, d);
    LeaksAfter(h, a, b);
    es := a + b;
  }

  lemma {:induction false} PortLeaks(h: State, q: Port, d: Port) returns (es: seq<Event>)
    requires Good(h) && h.closed && q in h.ports && d in h.connections && d != q && Source(h, q) && q !in h.joining
    ensures Leaks(h, es)
  {
    var phase := h.ports[q].phase;
    if phase == Recorded && Unlogged(h, q) {
      hide Good, Leaks;
      es := RecordedLeaks(h, q, d);
    } else {
      var a := [];
      assert Runs(h, a) && After(h, a) == h;
      hide Unlogged;
      if phase != Got {
        hide Good, Runs, After, Leaks;
        a := GetOne(h, q);
      }
      GoodRun(h, a);
      hide Good, Runs, After, Leaks, Source;
      var b := HeldLeaks(After(h, a), q, d);
      LeaksAfter(h, a, b);
      es := a + b;
    }
  }

  lemma {:induction false} JoinOpens(h: State, p: Port)
    requires Good(h) && p in h.joining
    ensures Enabled(h, EndJoin(p)) && Good(Step(h, EndJoin(p)))
    ensures var g := Step(h, EndJoin(p));
            && p in g.ports && p in g.open && p in g.connections && g.joining == h.joining - {p}
            && g.closed == h.closed && h.connections <= g.connections
  {
    assert p !in h.ports;
    GoodStep(h, EndJoin(p));
    hide Good, NextPort, NewPort;
  }

  lemma {:induction false} SourceStays(h: State, p: Port, q: Port)
    requires Good(h) && p in h.joining && q != p && Source(h, q)
    ensures Source(Step(h, EndJoin(p)), q)
  {
    JoinOpens(h, p);
    var e := EndJoin(p);
    LogGrows(h, e, Packet(q, 0));
    if q in h.ports {
      PhaseAfter(h, e, q);
      assert Step(h, e).log == h.log;
    }
    hide Good;
  }

  /** A source and a target are enough, even if both have still to register. */
  lemma {:induction false} PairLeaks(h: State, q: Port, d: Port) returns (es: seq<Event>)
    requires Good(h) && h.closed && q != d && Source(h, q) && Target(h, d)
    ensures Leaks(h, es)
    decreases h.joining
  {
    if q in h.joining || d in h.joining {
      var p := if q in h.joining then q else d;
      JoinOpens(h, p);
      if p != q { SourceStays(h, p, q); }
      var e := EndJoin(p);
      var g := Step(h, e);
      assert Source(g, q) && Target(g, d);
      hide Step, Enabled, Good, Source, Target, Leaks;
      var rest := PairLeaks(g, q, d);
      LeaksOne(h, e, rest);
      es := [e] + rest;
    } else {
      assert SocketsOk(h);
      assert q in h.ports;
      hide Good, SocketsOk, Leaks;
      es := PortLeaks(h, q, d);
    }
  }

  lemma {:induction false} FreshPort(used: set<Port>) returns (p: Port)
    ensures p !in used && forall u :: u in used ==> u < p
  {
    if used == {} {
      p := 0;
    } else {
      var u :| u in used;
      var below := FreshPort(used - {u});
      p := if below <= u then u + 1 else below;
      assert forall v :: v in used ==> v == u || v in used - {u};
    }
  }

  lemma {:induction false} NewJoin(h: State, p: Port)
    requires Good(h) && !h.closed && p !in h.ports && p !in h.joining
    ensures Enabled(h, BeginJoin(p)) && Good(Step(h, BeginJoin(p)))
    ensures var g := Step(h, BeginJoin(p));
            g.ports.Keys == h.ports.Keys && g.joining == h.joining + {p} && !g.closed
  {
    GoodStep(h, BeginJoin(p));
    hide Good, NextPort;
  }

  lemma {:induction false} RaceClose(h: State, p: Port, q: Port) returns (es: seq<Event>)
    requires Good(h) && !h.closed && p != q && {p, q} <= h.joining
    ensures Leaks(h, es)
  {
    var e := BeginClose;
    GoodStep(h, e);
    var g := Step(h, e);
    assert Enabled(h, e) && g.closed && g.joining == h.joining;
    hide Good, Step, Enabled, Leaks;
    var rest := PairLeaks(g, p, q);
    LeaksOne(h, e, rest);
    es := [e] + rest;
  }

  /** While the hub is open, two joins that race `close` are enough. */
  lemma {:induction false} OpenLeaks(h: State) returns (es: seq<Event>)
    requires Good(h) && !h.closed
    ensures Leaks(h, es)
  {
    hide Good, Step, Enabled, Leaks;
    var p := FreshPort(h.ports.Keys + h.joining);
    var q := FreshPort(h.ports.Keys + h.joining + {p});
    var a, b := BeginJoin(p), BeginJoin(q);
    NewJoin(h, p);
    var g := Step(h, a);
    NewJoin(g, q);
    var rest := RaceClose(Step(g, b), p, q);
    LeaksOne(g, b, rest);
    LeaksOne(h, a, [b] + rest);
    es := [a] + ([b] + rest);
  }

  lemma {:induction false} ReachLeaks(h: State) returns (es: seq<Event>)
    requires Good(h) && CanEscape(h)
    ensures Leaks(h, es)
  {
    hide Good, Source, Target, OnItsWay;
    if Escaped(h) {
      es := [];
    } else if !h.closed {
      hide Leaks;
      es := OpenLeaks(h);
    } else if q, d :| q != d && Source(h, q) && Target(h, d) {
      hide Leaks;
      es := PairLeaks(h, q, d);
    } else {
      hide Leaks;
      var q, d :| OnItsWay(h, q, d);
      es := DeliveryLeaks(h, q, d);
    }
  }

  /** The exact reach of the exception: a run can be continued so that a delivered frame is in no
      capture file if and only if one has escaped already, the hub is open, a join that overtook
      `close` leaves a destination for another port's frames, or such a frame is on its way. */
  lemma {:induction false} EscapeIsReachable(es: seq<Event>)
    requires Runs(Start(true), es)
    ensures CanEscape(After(Start(true), es)) <==> exists more :: Leaks(After(Start(true), es), more)
  {
    var h := After(Start(true), es);
    GoodStart(true);
    GoodRun(Start(true), es);
    hide Good, CanEscape, Leaks, Runs, After;
    if CanEscape(h) { var more := ReachLeaks(h); }
    if more :| Leaks(h, more) { LeakNeedsReach(h, more); }
  }
}
