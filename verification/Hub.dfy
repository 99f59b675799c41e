/** `EthernetHub` as a state machine: one thread a port, interleaved with joins, participants and
    `close`.  Each `sendall` is one step. */
module Hub {
  import opened Bytes
  import opened Framing

  type Port = nat

  /** The `index`-th frame that `source` sent. */
  datatype Packet = Packet(source: Port, index: nat)

  /** Where the thread of a port is in `_forward_from`; `Waiting` is inside `_receive_exact`. */
  datatype Phase = Idle | Waiting | Got | Recorded | Sending(to: set<Port>) | Done

  /** `sent`: frames the participant has sent; `read`: how many the hub has taken; `inbox`: what
      the hub has sent to the participant; `since`: history, the first frame of each other port
      that it is due. */
  datatype PortState = PortState(sent: seq<Frame>, read: nat, phase: Phase, inbox: seq<Packet>, since: map<Port, nat>)

  /** `open`: ports whose socket the hub still holds open; `closing`: ports that `close` has still to
      shut down; `shut`: those whose two sockets it has shut down and closed; `late` is history: a
      port was added after the hub was closed. */
  datatype State = State(
    ports: map<Port, PortState>, joining: set<Port>, connections: set<Port>, log: seq<Packet>,
    capture: bool, recording: bool, closed: bool, late: bool, open: set<Port>, closing: set<Port>, shut: set<Port>)

  function Start(capture: bool): State
  {
    State(map[], {}, {}, [], capture, capture, false, false, {}, {}, {})
  }

  datatype Event =
    | BeginJoin(p: Port)            // `_new_port` finds the hub open
    | EndJoin(p: Port)              // ... and adds the connection
    | Send(p: Port, frame: Frame)   // a participant writes a frame
    | Await(p: Port)                // the thread of `p` starts to read
    | Receive(p: Port)              // ... and has a frame
    | Capture(p: Port)              // `_capture`
    | Snapshot(p: Port)             // the destinations are copied
    | Deliver(p: Port, d: Port)     // `sendall` succeeds
    | Fail(p: Port, d: Port)        // `sendall` raises, `d` is removed
    | Finish(p: Port)               // every destination served
    | Leave(p: Port)                // the thread ends, `p` is removed
    | BeginClose                    // `close` marks the hub and clears the connections
    | Shut(p: Port)                 // ... shuts down both sockets of a port it found
    | EndClose                      // ... and closes the capture file

  predicate Enabled(h: State, e: Event)
  {
    match e
    case BeginJoin(p) => !h.closed && p !in h.ports && p !in h.joining
    case EndJoin(p) => p in h.joining && p !in h.ports
    case Send(p, frame) => p in h.ports && p !in h.shut && ValidFrame(frame)
    case Await(p) => p in h.ports && h.ports[p].phase == Idle && p in h.open
    case Receive(p) =>
      p in h.ports && h.ports[p].phase == Waiting && p !in h.shut && h.ports[p].read < |h.ports[p].sent|
    case Capture(p) => p in h.ports && h.ports[p].phase == Got && h.ports[p].read > 0
    case Snapshot(p) => p in h.ports && h.ports[p].phase == Recorded
    case Deliver(p, d) => Serves(h, p, d) && d in h.open && h.ports[p].read > 0
    case Fail(p, d) => Serves(h, p, d)
    case Finish(p) => p in h.ports && h.ports[p].phase == Sending({})
    case Leave(p) => p in h.ports && h.ports[p].phase != Done
    case BeginClose => !h.closed
    case Shut(p) => p in h.closing
    case EndClose => h.closed && h.closing == {}
  }

  predicate Serves(h: State, p: Port, d: Port)
  {
    p in h.ports && d in h.ports && h.ports[p].phase.Sending? && d in h.ports[p].phase.to
  }

  function Current(s: PortState, p: Port): Packet
    requires s.read > 0
  {
    Packet(p, s.read - 1)
  }

  /** The first frame of a port whose destinations are still to be chosen. */
  function Due(s: PortState): nat
  {
    if s.phase.Got? || s.phase.Recorded? then Max(0, s.read - 1) else s.read
  }

  function NextPhase(h: State, e: Event, p: Port): Phase
    requires Enabled(h, e) && p in h.ports
  {
    var phase := h.ports[p].phase;
    match e
    case Await(q) => if p == q then Waiting else phase
    case Receive(q) => if p == q then Got else phase
    case Capture(q) => if p == q then Recorded else phase
    case Snapshot(q) => if p == q then Sending(h.connections - {p}) else phase
    case Deliver(q, d) => if p == q then Sending(phase.to - {d}) else phase
    case Fail(q, d) => if p == q then Sending(phase.to - {d}) else phase
    case Finish(q) => if p == q then Idle else phase
    case Leave(q) => if p == q then Done else phase
    case _ => phase
  }

  function NextInbox(h: State, e: Event, p: Port): seq<Packet>
    requires Enabled(h, e) && p in h.ports
  {
    if e.Deliver? && p == e.d then h.ports[p].inbox + [Current(h.ports[e.p], e.p)] else h.ports[p].inbox
  }

  function NextPort(h: State, e: Event, p: Port): PortState
    requires Enabled(h, e) && p in h.ports
  {
    var s := h.ports[p];
    PortState(if e.Send? && p == e.p then s.sent + [e.frame] else s.sent,
              if e.Receive? && p == e.p then s.read + 1 else s.read,
              NextPhase(h, e, p), NextInbox(h, e, p), s.since)
  }

  function NewPort(h: State): PortState
  {
    PortState([], 0, Idle, [], map q | q in h.ports :: Due(h.ports[q]))
  }

  function NextPorts(h: State, e: Event): (ports: map<Port, PortState>)
    requires Enabled(h, e)
    ensures ports.Keys == h.ports.Keys + (if e.EndJoin? then {e.p} else {})
  {
    map p | p in h.ports.Keys + (if e.EndJoin? then {e.p} else {}) ::
      if p in h.ports then NextPort(h, e, p) else NewPort(h)
  }

  function NextConnections(h: State, e: Event): set<Port>
  {
    match e
    case EndJoin(p) => h.connections + {p}
    case Fail(_, d) => h.connections - {d}
    case Leave(p) => h.connections - {p}
    case BeginClose => {}
    case _ => h.connections
  }

  /** `_remove` closes the socket of a port, and so does `close`. */
  function NextOpen(h: State, e: Event): set<Port>
  {
    match e
    case EndJoin(p) => h.open + {p}
    case Fail(_, d) => h.open - {d}
    case Leave(p) => h.open - {p}
    case Shut(p) => h.open - {p}
    case _ => h.open
  }

  function Step(h: State, e: Event): State
    requires Enabled(h, e)
  {
    State(
      NextPorts(h, e),
      if e.BeginJoin? then h.joining + {e.p} else if e.EndJoin? then h.joining - {e.p} else h.joining,
      NextConnections(h, e),
      if e.Capture? && h.recording then h.log + [Current(h.ports[e.p], e.p)] else h.log,
      h.capture,
      h.recording && !e.EndClose?,
      h.closed || e.BeginClose?,
      h.late || (e.EndJoin? && h.closed),
      NextOpen(h, e),
      if e.BeginClose? then h.ports.Keys else if e.Shut? then h.closing - {e.p} else h.closing,
      if e.Shut? then h.shut + {e.p} else h.shut)
  }

  predicate Runs(h: State, es: seq<Event>)
    decreases |es|
  {
    es == [] || (Enabled(h, es[0]) && Runs(Step(h, es[0]), es[1..]))
  }

  function After(h: State, es: seq<Event>): State
    requires Runs(h, es)
    decreases |es|
  {
    if es == [] then h else After(Step(h, es[0]), es[1..])
  }

  // ----- what every run keeps -----

  /** The indices of the frames of `q` in an inbox, in arrival order. */
  function From(inbox: seq<Packet>, q: Port): seq<nat>
  {
    if inbox == [] then []
    else
      var n := |inbox| - 1;
      From(inbox[..n], q) + (if inbox[n].source == q then [inbox[n].index] else [])
  }

  lemma {:induction false} FromAppend(inbox: seq<Packet>, x: Packet, q: Port)
    ensures From(inbox + [x], q) == From(inbox, q) + (if x.source == q then [x.index] else [])
  {
    assert (inbox + [x])[..|inbox|] == inbox;
  }

  function Run(first: nat, n: nat): (r: seq<nat>)
    ensures |r| == n && forall i :: 0 <= i < n ==> r[i] == first + i
  {
    seq(n, i => first + i)
  }

  /** The first frame of `q` that `d` is due. */
  function First(h: State, d: Port, q: Port): nat
    requires d in h.ports
  {
    if q in h.ports[d].since then h.ports[d].since[q] else 0
  }

  /** One past the last frame of `q` that `d` can have been sent. */
  function Upto(h: State, d: Port, q: Port): nat
    requires q in h.ports
  {
    var s := h.ports[q];
    if s.phase.Sending? && d in s.phase.to then Max(0, s.read - 1) else Due(s)
  }

  /** Nothing may be missing: `d` is connected, or about to be served. */
  predicate Owed(h: State, d: Port, q: Port)
    requires q in h.ports
  {
    var phase := h.ports[q].phase;
    phase != Done && (d in h.connections || (phase.Sending? && d in phase.to))
  }

  predicate Flow(got: seq<nat>, first: nat, upto: nat, owed: bool)
  {
    && got == Run(first, |got|) && first + |got| <= upto
    && (owed ==> first + |got| == upto)
  }

  ghost predicate FlowOk(h: State, d: Port, q: Port)
    requires d in h.ports && q in h.ports
  {
    Flow(From(h.ports[d].inbox, q), First(h, d, q), Upto(h, d, q), Owed(h, d, q))
  }

  /** Between two frames. */
  predicate AtRest(phase: Phase) { phase.Idle? || phase.Waiting? }

  ghost predicate ThreadOk(h: State, p: Port)
    requires p in h.ports
  {
    var s := h.ports[p];
    && s.read <= |s.sent| && AllValid(s.sent) && (!AtRest(s.phase) && !s.phase.Done? ==> s.read > 0)
    && (s.phase.Sending? ==> p !in s.phase.to && s.phase.to <= h.ports.Keys)
    && s.since.Keys <= h.ports.Keys
  }

  ghost predicate PortOk(h: State, p: Port)
    requires p in h.ports
  {
    ThreadOk(h, p) && forall i :: 0 <= i < |h.ports[p].inbox| ==> Known(h, p, h.ports[p].inbox[i])
  }

  /** A packet in the inbox of `d` is a frame that another port sent and the hub has read. */
  ghost predicate Known(h: State, d: Port, x: Packet)
  {
    x.source in h.ports && x.source != d && x.index < h.ports[x.source].read
  }

  ghost predicate Inv(h: State)
  {
    && h.connections <= h.ports.Keys && h.joining !! h.ports.Keys
    && (forall p :: p in h.ports ==> PortOk(h, p))
    && (forall d, q :: d in h.ports && q in h.ports && d != q ==> FlowOk(h, d, q))
  }

  lemma {:induction false} NothingFrom(inbox: seq<Packet>, q: Port)
    requires forall i :: 0 <= i < |inbox| ==> inbox[i].source != q
    ensures From(inbox, q) == []
  {
    if inbox != [] { NothingFrom(inbox[..|inbox| - 1], q); }
  }

  lemma {:induction false} PortStep(h: State, e: Event, p: Port)
    requires Inv(h) && Enabled(h, e) && p in Step(h, e).ports
    ensures PortOk(Step(h, e), p)
  {
    hide FlowOk, ThreadOk, Known;
    var h' := Step(h, e);
    if p in h.ports { assert PortOk(h, p); }
    ThreadStep(h, e, p);
    forall i | 0 <= i < |h'.ports[p].inbox| ensures Known(h', p, h'.ports[p].inbox[i]) {
      if p in h.ports && i < |h.ports[p].inbox| {
        var x := h.ports[p].inbox[i];
        assert Known(h, p, x);
        KnownStep(h, e, p, x);
        InboxGrows(h, e, p);
        assert h'.ports[p].inbox[i] == x;
      } else {
        InboxGrows(h, e, p);
        assert PortOk(h, e.p);
        DeliveredIsKnown(h, e);
      }
    }
  }

  lemma {:induction false} PhaseAfter(h: State, e: Event, p: Port)
    requires Enabled(h, e) && p in h.ports
    ensures p in Step(h, e).ports && Step(h, e).ports[p].phase == NextPhase(h, e, p)
    ensures Step(h, e).ports[p].read == h.ports[p].read + (if e == Receive(p) then 1 else 0)
  {
    hide NextPhase, NextInbox;
  }

  lemma {:induction false} ConnectionsAfter(h: State, e: Event)
    requires Enabled(h, e)
    ensures Step(h, e).connections == NextConnections(h, e)
    ensures Step(h, e).ports.Keys == h.ports.Keys + (if e.EndJoin? then {e.p} else {})
  {
    hide NextPort;
  }

  lemma {:induction false} ThreadStep(h: State, e: Event, p: Port)
    requires h.connections <= h.ports.Keys && Enabled(h, e) && p in Step(h, e).ports
    requires p in h.ports ==> ThreadOk(h, p)
    ensures ThreadOk(Step(h, e), p)
  {
    if p in h.ports {
      PhaseAfter(h, e, p);
      SentAfterStep(h, e, p);
      SinceStep(h, e, p);
      ConnectionsAfter(h, e);
      hide Step, NextConnections;
    }
  }

  lemma {:induction false} SentAfterStep(h: State, e: Event, p: Port)
    requires Enabled(h, e) && p in h.ports
    ensures p in Step(h, e).ports
    ensures Step(h, e).ports[p].sent == if e.Send? && p == e.p then h.ports[p].sent + [e.frame] else h.ports[p].sent
  {
    hide NextPhase, NextInbox;
  }

  lemma {:induction false} KnownStep(h: State, e: Event, d: Port, x: Packet)
    requires Enabled(h, e) && Known(h, d, x)
    ensures Known(Step(h, e), d, x)
  {
  }

  lemma {:induction false} InboxGrows(h: State, e: Event, p: Port)
    requires Enabled(h, e) && p in Step(h, e).ports
    ensures var inbox := Step(h, e).ports[p].inbox;
            if p in h.ports
            then inbox == h.ports[p].inbox + (if e.Deliver? && p == e.d then [Current(h.ports[e.p], e.p)] else [])
            else inbox == []
  {
  }

  lemma {:induction false} DeliveredIsKnown(h: State, e: Event)
    requires Enabled(h, e) && e.Deliver? && ThreadOk(h, e.p)
    ensures Known(Step(h, e), e.d, Current(h.ports[e.p], e.p))
  {
  }

  /** Delivering the current frame extends the run by one. */
  lemma {:induction false} RunGrows(got: seq<nat>, first: nat, upto: nat)
    requires Flow(got, first, upto, true)
    ensures Flow(got + [upto], first, upto + 1, true)
  {
    assert got + [upto] == Run(first, |got| + 1);
  }

  lemma {:induction false} FlowDeliver(h: State, e: Event, d: Port, q: Port)
    requires Inv(h) && e.Deliver? && Enabled(h, e) && d in h.ports && q in h.ports && d != q
    ensures FlowOk(Step(h, e), d, q)
  {
    assert FlowOk(h, d, q) && PortOk(h, q);
    hide FlowOk, Step, Inv;
    FlowDelivered(h, e, d, q);
  }

  lemma {:induction false} FromDelivered(h: State, e: Event, d: Port, q: Port)
    requires e.Deliver? && Enabled(h, e) && d in h.ports && q in h.ports
    ensures From(Step(h, e).ports[d].inbox, q) ==
            if d == e.d && q == e.p then From(h.ports[d].inbox, q) + [h.ports[q].read - 1]
            else From(h.ports[d].inbox, q)
  {
    InboxGrows(h, e, d);
    FromAppend(h.ports[d].inbox, Current(h.ports[e.p], e.p), q);
    NothingMore(h.ports[d].inbox);
    NothingMore(From(h.ports[d].inbox, q));
    hide *;
  }

  lemma {:induction false} NothingMore<T>(s: seq<T>)
    ensures s + [] == s
  {
  }

  /** A delivery moves the bound of the one pair it serves. */
  lemma {:induction false} UptoDeliver(h: State, e: Event, d: Port, q: Port)
    requires e.Deliver? && Enabled(h, e) && d in h.ports && q in h.ports && d != q && ThreadOk(h, q)
    ensures Owed(Step(h, e), d, q) ==> Owed(h, d, q)
    ensures if d == e.d && q == e.p
            then Owed(h, d, q) && Upto(h, d, q) == h.ports[q].read - 1 && Upto(Step(h, e), d, q) == h.ports[q].read
            else Upto(Step(h, e), d, q) == Upto(h, d, q)
  {
    PhaseAfter(h, e, q);
    ConnectionsAfter(h, e);
    hide Step;
  }

  lemma {:induction false} FlowDelivered(h: State, e: Event, d: Port, q: Port)
    requires e.Deliver? && Enabled(h, e) && d in h.ports && q in h.ports && d != q
    requires FlowOk(h, d, q) && ThreadOk(h, q)
    ensures FlowOk(Step(h, e), d, q)
  {
    var h' := Step(h, e);
    FromDelivered(h, e, d, q);
    UptoDeliver(h, e, d, q);
    SinceStep(h, e, d);
    hide Step, From, Run, Upto, Owed, Enabled, ThreadOk, Flow;
    FlowGrows(From(h.ports[d].inbox, q), From(h'.ports[d].inbox, q), First(h, d, q),
              Upto(h, d, q), Owed(h, d, q), Upto(h', d, q), Owed(h', d, q), d == e.d && q == e.p);
  }

  lemma {:induction false} FlowGrows(
      got: seq<nat>, got': seq<nat>, first: nat, upto: nat, owed: bool, upto': nat, owed': bool, hit: bool)
    requires Flow(got, first, upto, owed) && (owed' ==> owed)
    requires if hit then owed && got' == got + [upto] && upto' == upto + 1 else got' == got && upto' == upto
    ensures Flow(got', first, upto', owed')
  {
    if hit { RunGrows(got, first, upto); }
    hide Run;
  }

  lemma {:induction false} FlowStep(h: State, e: Event, d: Port, q: Port)
    requires Inv(h) && Enabled(h, e) && d in h.ports && q in h.ports && d != q
    ensures FlowOk(Step(h, e), d, q)
  {
    if e.Deliver? {
      FlowDeliver(h, e, d, q);
    } else {
      assert FlowOk(h, d, q) && PortOk(h, q);
      UptoStep(h, e, d, q);
      InboxGrows(h, e, d);
      SinceStep(h, e, d);
      hide From, Run, PortOk, Step, Enabled, Upto, Owed, Inv;
    }
  }

  /** Without a delivery the bound can only grow, and stays where something is owed. */
  lemma {:induction false} UptoStep(h: State, e: Event, d: Port, q: Port)
    requires Enabled(h, e) && !e.Deliver? && d in h.ports && q in h.ports && d != q && PortOk(h, q)
    ensures Upto(h, d, q) <= Upto(Step(h, e), d, q)
    ensures Owed(Step(h, e), d, q) ==> Owed(h, d, q) && Upto(Step(h, e), d, q) == Upto(h, d, q)
  {
    assert ThreadOk(h, q);
    PhaseAfter(h, e, q);
    ConnectionsAfter(h, e);
    hide Step, PortOk;
    if e == Receive(q) || e == Capture(q) || e == Snapshot(q) || e == Finish(q) || e == Leave(q) {
    } else if e.Fail? {
    } else {
      assert NextPhase(h, e, q) == h.ports[q].phase || e == Await(q);
    }
  }

  lemma {:induction false} SinceStep(h: State, e: Event, d: Port)
    requires Enabled(h, e) && d in h.ports
    ensures Step(h, e).ports[d].since == h.ports[d].since
  {
  }

  lemma {:induction false} FlowJoin(h: State, e: Event, d: Port, q: Port)
    requires Inv(h) && Enabled(h, e) && e.EndJoin? && d != q && (d == e.p || q == e.p)
    requires d in h.ports || d == e.p
    requires q in h.ports || q == e.p
    ensures FlowOk(Step(h, e), d, q)
  {
    hide FlowOk;
    if d == e.p {
      assert PortOk(h, q);
      assert From([], q) == [];
    } else {
      assert PortOk(h, d);
      forall i | 0 <= i < |h.ports[d].inbox| ensures h.ports[d].inbox[i].source != q {
        assert Known(h, d, h.ports[d].inbox[i]);
      }
      NothingFrom(h.ports[d].inbox, q);
    }
    FlowJoined(h, e, d, q);
  }

  lemma {:induction false} FlowJoined(h: State, e: Event, d: Port, q: Port)
    requires Enabled(h, e) && e.EndJoin? && d != q && (d == e.p || q == e.p)
    requires d in h.ports || d == e.p
    requires q in h.ports || q == e.p
    requires d == e.p ==> !(h.ports[q].phase.Sending? && d in h.ports[q].phase.to)
    requires d != e.p ==> From(h.ports[d].inbox, q) == [] && q !in h.ports[d].since
    ensures FlowOk(Step(h, e), d, q)
  {
    hide Run;
    assert Run(First(Step(h, e), d, q), 0) == [];
  }

  /** Every step keeps the invariant. */
  lemma {:induction false} InvStep(h: State, e: Event)
    requires Inv(h) && Enabled(h, e)
    ensures Inv(Step(h, e))
  {
    var h' := Step(h, e);
    forall p | p in h'.ports ensures PortOk(h', p) { PortStep(h, e, p); }
    forall d, q | d in h'.ports && q in h'.ports && d != q ensures FlowOk(h', d, q) {
      if d in h.ports && q in h.ports { FlowStep(h, e, d, q); } else { FlowJoin(h, e, d, q); }
    }
    ConnectionsAfter(h, e);
    assert h'.joining !! h'.ports.Keys;
    hide PortOk, FlowOk, Step, Enabled;
  }

  lemma {:induction false} InvRun(h: State, es: seq<Event>)
    requires Inv(h) && Runs(h, es)
    ensures Inv(After(h, es))
    decreases |es|
  {
    if es != [] {
      InvStep(h, es[0]);
      hide Inv, Step, Enabled;
      InvRun(Step(h, es[0]), es[1..]);
    }
  }

  /** Over every interleaving: what `d` has received from `q` is a contiguous, in-order run of the
      frames of `q`, each once, none of them its own; and while `d` is connected the run reaches
      from the first frame forwarded after `d` joined to the last one forwarded. */
  lemma {:induction false} HubIsOrdered(capture: bool, es: seq<Event>, d: Port, q: Port)
    requires Runs(Start(capture), es)
    ensures var h := After(Start(capture), es);
            d in h.ports && q in h.ports ==>
              var got := From(h.ports[d].inbox, q);
              && (d == q ==> got == [])
              && (d != q ==>
                    && got == Run(First(h, d, q), |got|)
                    && First(h, d, q) + |got| <= h.ports[q].read <= |h.ports[q].sent|
                    && (d in h.connections && AtRest(h.ports[q].phase) ==> First(h, d, q) + |got| == h.ports[q].read))
  {
    var h := After(Start(capture), es);
    InvRun(Start(capture), es);
    hide After, Runs;
    if d in h.ports && q in h.ports {
      assert PortOk(h, d) && PortOk(h, q);
      if d == q {
        forall i | 0 <= i < |h.ports[d].inbox| ensures h.ports[d].inbox[i].source != q {
          assert Known(h, d, h.ports[d].inbox[i]);
        }
        NothingFrom(h.ports[d].inbox, q);
      } else {
        assert FlowOk(h, d, q);
      }
    }
  }

  // ----- contents -----

  lemma {:induction false} SentStep(h: State, e: Event, q: Port)
    requires Enabled(h, e) && q in h.ports
    ensures q in Step(h, e).ports && h.ports[q].sent <= Step(h, e).ports[q].sent
  {
  }

  /** A packet names the same frame for ever: participants only append. */
  lemma {:induction false} SentGrows(h: State, es: seq<Event>, q: Port)
    requires Runs(h, es) && q in h.ports
    ensures q in After(h, es).ports && h.ports[q].sent <= After(h, es).ports[q].sent
    decreases |es|
  {
    if es != [] {
      SentStep(h, es[0], q);
      hide Step, Enabled;
      SentGrows(Step(h, es[0]), es[1..], q);
    }
  }

  ghost predicate IsFrame(h: State, x: Packet, f: Frame)
  {
    && x.source in h.ports && x.index < |h.ports[x.source].sent|
    && f == h.ports[x.source].sent[x.index] && ValidFrame(f)
  }

  /** The frames written to the socket of `d`. */
  ghost function FramesTo(h: State, d: Port): (fs: seq<Frame>)
    requires Inv(h) && d in h.ports
    ensures |fs| == |h.ports[d].inbox|
    ensures forall i :: 0 <= i < |fs| ==> IsFrame(h, h.ports[d].inbox[i], fs[i])
  {
    hide FlowOk;
    assert PortOk(h, d);
    seq(|h.ports[d].inbox|, i requires 0 <= i < |h.ports[d].inbox| =>
      var x := h.ports[d].inbox[i];
      assert Known(h, d, x) && PortOk(h, x.source);
      h.ports[x.source].sent[x.index])
  }

  /** A participant that reads its socket to the end, in whatever fragments, gets its frames; if
      the connection is cut it gets a prefix of them. */
  lemma {:induction false} ParticipantDecodes(h: State, d: Port, cut: seq<byte>) returns (k: nat)
    requires Inv(h) && d in h.ports
    ensures AllValid(FramesTo(h, d)) && DecodeAll(EncodeAll(FramesTo(h, d))) == (FramesTo(h, d), Eof)
    ensures cut <= EncodeAll(FramesTo(h, d)) ==> k <= |FramesTo(h, d)| && DecodeAll(cut) == (FramesTo(h, d)[..k], Eof)
  {
    var fs := FramesTo(h, d);
    FramesValid(h, d);
    hide FramesTo, Inv, IsFrame, AllValid, EncodeAll, DecodeAll;
    FramesRoundTrip(fs);
    k := 0;
    if cut <= EncodeAll(fs) { k := TruncatedStream(fs, cut); }
  }

  lemma {:induction false} FramesValid(h: State, d: Port)
    requires Inv(h) && d in h.ports
    ensures AllValid(FramesTo(h, d))
  {
    hide Inv;
    var fs := FramesTo(h, d);
    assert forall i :: 0 <= i < |fs| ==> IsFrame(h, h.ports[d].inbox[i], fs[i]);
  }
}
