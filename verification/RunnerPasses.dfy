/** When a run passes: exactly, for runs in which nothing but the guest can fail. */
module RunnerPasses {
  import opened Bytes
  import opened Runner
  import Serial
  import SerialRuns

  // ----- what a run shows -----

  /** What the loop takes in, in order: events for the machine, and replies. */
  datatype Seen = Put(e: SerialRuns.Event) | Answer(m: Message)

  function SeenTurns(turns: seq<Turn>): seq<Seen>
  {
    if turns == [] then []
    else if turns[0].Expired? then SeenTurns(turns[1..])
    else [Put(SerialRuns.Chunk(turns[0].chunk))] + SeenTurns(turns[1..])
  }

  function SeenMessage(m: Message): Seen
  {
    if m.Event? then Put(SerialRuns.Qmp(m.name, m.guest, m.reason)) else Answer(m)
  }

  function SeenMessages(ms: seq<Message>): seq<Seen>
  {
    if ms == [] then [] else [SeenMessage(ms[0])] + SeenMessages(ms[1..])
  }

  /** Replies among the queued messages are passed over. */
  function SeenPending(ms: seq<Message>): seq<Seen>
  {
    if ms == [] then []
    else if ms[0].Reply? then SeenPending(ms[1..])
    else [SeenMessage(ms[0])] + SeenPending(ms[1..])
  }

  function SeenKey(key: Key): seq<Seen> { SeenTurns(key.turns) + SeenMessages(MessagesOf(key)) }

  function SeenKeys(keys: seq<Key>): seq<Seen>
  {
    if keys == [] then [] else SeenKey(keys[0]) + SeenKeys(keys[1..])
  }

  /** The events queued while connecting, taken in by the first iteration. */
  function SeenQueue(pending: seq<Message>, r: Round): seq<Seen>
  {
    if pending == [] then [] else SeenTurns(r.pendingTurns) + SeenPending(pending)
  }

  function SeenRound(pending: seq<Message>, r: Round): seq<Seen> { SeenKeys(r.keys) + SeenQueue(pending, r) }

  function SeenRun(pending: seq<Message>, rounds: seq<Round>): seq<Seen>
    decreases |rounds|
  {
    if rounds == [] then [] else SeenRound(pending, rounds[0]) + SeenRun([], rounds[1..])
  }

  /** What of it goes to the machine. */
  function Fed(seen: seq<Seen>): (es: seq<SerialRuns.Event>)
  {
    if seen == [] then []
    else
      var n := |seen| - 1;
      if seen[n].Put? then Fed(seen[..n]) + [seen[n].e] else Fed(seen[..n])
  }

  // ----- nothing but the guest can fail -----

  predicate CalmTurns(turns: seq<Turn>)
  {
    forall i :: 0 <= i < |turns| ==> turns[i].Got? && turns[i].chunk != [] && !turns[i].hint.failure
  }

  /** A reply has an id, and the one that answers the request has a good image. */
  ghost predicate CalmMessage(p: Plan, m: Message)
  {
    m.Reply? ==> m.id.Some? && (m.id == Some(REQUEST_ID) ==> !m.error && ImageOk(p, m.image))
  }

  ghost predicate CalmMessages(p: Plan, ms: seq<Message>) { forall i :: 0 <= i < |ms| ==> CalmMessage(p, ms[i]) }

  ghost predicate CalmKeys(p: Plan, keys: seq<Key>)
  {
    forall i :: 0 <= i < |keys| ==> CalmTurns(keys[i].turns) && CalmMessages(p, MessagesOf(keys[i]))
  }

  /** No deadline, no end of output, no failure pattern, no failing companion, no exit, no lost connection. */
  ghost predicate Calm(p: Plan, r: Round)
  {
    && !r.expired && CalmKeys(p, r.keys) && CalmTurns(r.pendingTurns)
    && r.poll != Some(false) && r.exit.None? && !r.lost
  }

  // ----- when the run should pass -----

  /** The markers are complete. */
  ghost predicate GuestDone(p: Plan, seen: seq<Seen>)
    requires p.config.Some?
  {
    SerialRuns.AcceptedBy(p.config.value, Fed(seen))
  }

  /** The request has been answered after the guest was done. */
  ghost predicate Answered(p: Plan, seen: seq<Seen>)
    requires p.config.Some?
  {
    exists k :: 0 <= k < |seen| && seen[k].Answer? && seen[k].m.Reply? && seen[k].m.id == Some(REQUEST_ID)
                && GuestDone(p, seen[..k])
  }

  predicate Polled(rounds: seq<Round>) { exists i :: 0 <= i < |rounds| && rounds[i].poll == Some(true) }

  ghost predicate AllShown(p: Plan, seen: seq<Seen>, polled: bool)
    requires p.config.Some?
  {
    GuestDone(p, seen) && (p.shotWanted ==> Answered(p, seen)) && (p.companionWanted ==> polled)
  }

  // ----- following a run -----

  ghost predicate Alive(p: Plan, s: State, seen: seq<Seen>, polled: bool)
    requires ValidPlan(p) && p.config.Some?
  {
    AliveAt(p, s, SerialRuns.Run(p.config.value, Fed(seen)), |SerialRuns.Stream(Fed(seen))|, Answered(p, seen), polled)
  }

  ghost predicate AliveAt(p: Plan, s: State, m: Serial.State, logged: nat, answered: bool, polled: bool)
  {
    && m.outcome != Serial.Fail && s.machine == m && s.outcome.None? && !s.io.eof && s.io.logged == logged
    && s.goals.guest == (m.outcome == Serial.Pass)
    && s.goals.request == (if p.shotWanted && s.goals.guest then Some(REQUEST_ID) else None)
    && s.goals.shot == (!p.shotWanted || answered)
    && s.goals.companion == (!p.companionWanted || polled)
  }

  ghost predicate Dead(p: Plan, s: State, seen: seq<Seen>)
    requires ValidPlan(p) && p.config.Some?
  {
    && SerialRuns.Run(p.config.value, Fed(seen)).outcome == Serial.Fail
    && s.outcome == Some(false) && !s.goals.guest && Ok(p, s.machine)
  }

  ghost predicate Follows(p: Plan, s: State, seen: seq<Seen>, polled: bool, pending: seq<Message>)
    requires ValidPlan(p) && p.config.Some?
  {
    && s.io.pending == pending && Ok(p, s.machine)
    && (Alive(p, s, seen, polled) || Dead(p, s, seen))
  }

  lemma {:induction false} FedMore(seen: seq<Seen>, x: Seen)
    ensures Fed(seen + [x]) == if x.Put? then Fed(seen) + [x.e] else Fed(seen)
  {
    assert (seen + [x])[..|seen|] == seen;
  }

  lemma {:induction false} RunMore(p: Plan, seen: seq<Seen>, x: Seen)
    requires ValidPlan(p) && p.config.Some?
    ensures var c := p.config.value; var m := SerialRuns.Run(c, Fed(seen));
            && (x.Put? ==> SerialRuns.Run(c, Fed(seen + [x])) == SerialRuns.Step(c, m, x.e))
            && (x.Answer? ==> SerialRuns.Run(c, Fed(seen + [x])) == m)
            && (m.outcome != Serial.Running ==> SerialRuns.Run(c, Fed(seen + [x])) == m)
  {
    var c := p.config.value;
    FedMore(seen, x);
    hide Fed, SerialRuns.Run, SerialRuns.Step, Serial.ValidConfig, Serial.ValidState;
    if x.Put? {
      SerialRuns.RunOneMore(c, Fed(seen), x.e);
      if SerialRuns.Run(c, Fed(seen)).outcome != Serial.Running {
        SerialRuns.TerminalStays(c, SerialRuns.Run(c, Fed(seen)), x.e);
      }
    }
  }

  lemma {:induction false} AnsweredMore(p: Plan, seen: seq<Seen>, x: Seen)
    requires ValidPlan(p) && p.config.Some?
    ensures Answered(p, seen + [x]) <==>
            || Answered(p, seen)
            || (x.Answer? && x.m.Reply? && x.m.id == Some(REQUEST_ID) && GuestDone(p, seen))
  {
    hide GuestDone;
    var all, n := seen + [x], |seen|;
    assert forall k :: 0 <= k <= n ==> all[..k] == seen[..k];
    assert seen[..n] == seen && all[n] == x;
    assert forall k :: 0 <= k < n ==> all[k] == seen[k];
  }

  lemma {:induction false} DoneIff(p: Plan, seen: seq<Seen>)
    requires ValidPlan(p) && p.config.Some?
    ensures GuestDone(p, seen) <==> SerialRuns.Run(p.config.value, Fed(seen)).outcome == Serial.Pass
  {
    SerialRuns.PassesIff(p.config.value, Fed(seen));
  }

  lemma {:induction false} StreamMore(seen: seq<Seen>, x: Seen)
    ensures SerialRuns.Stream(Fed(seen + [x])) ==
            SerialRuns.Stream(Fed(seen)) + if x.Put? && x.e.Chunk? then x.e.data else []
  {
    FedMore(seen, x);
    hide Fed;
    if x.Put? {
      SerialRuns.OneMore(Fed(seen), x.e);
    }
  }

  lemma {:induction false} DeadStays(p: Plan, s: State, t: State, seen: seq<Seen>, x: Seen)
    requires ValidPlan(p) && p.config.Some? && Dead(p, s, seen)
    requires t.outcome == Some(false) && t.goals.guest == s.goals.guest && Ok(p, t.machine)
    ensures Dead(p, t, seen + [x])
  {
    RunMore(p, seen, x);
    hide Fed, SerialRuns.Run, SerialRuns.Step, Ok;
  }

  /** What one calm chunk does to the loop's variables. */
  ghost predicate Took(s: State, r: State, m: Serial.State, chunk: Data)
  {
    && r.machine == m && r.io.pending == s.io.pending && r.io.eof == s.io.eof && r.io.logged == s.io.logged + |chunk|
    && r.goals.companion == s.goals.companion && r.goals.shot == s.goals.shot
    && r.outcome == (if m.outcome == Serial.Fail then Some(false) else s.outcome)
    && r.goals.guest == (s.goals.guest || m.outcome == Serial.Pass)
    && r.goals.request == if r.goals.guest && !s.goals.shot && s.goals.request.None? then Some(REQUEST_ID)
                          else s.goals.request
  }

  lemma {:induction false} TakeIs(p: Plan, s: State, chunk: Data, hint: Hint)
    requires ValidPlan(p) && p.config.Some? && Ok(p, s.machine)
    requires chunk != [] && !hint.failure && s.io.logged + |chunk| <= MAX_SERIAL_LOG_BYTES
    ensures Took(s, TakeChunk(p, s, chunk, hint),
                 SerialRuns.Step(p.config.value, s.machine, SerialRuns.Chunk(chunk)), chunk)
    ensures Ok(p, TakeChunk(p, s, chunk, hint).machine)
  {
    hide Ok, SerialRuns.Step, JudgePattern, ValidPlan;
  }

  lemma {:induction false} TookAlive(
      p: Plan, s: State, r: State, m: Serial.State, next: Serial.State, logged: nat, chunk: Data, answered: bool,
      polled: bool)
    requires AliveAt(p, s, m, logged, answered, polled) && Took(s, r, next, chunk)
    requires (m.outcome == Serial.Pass ==> next == m) && (answered ==> m.outcome == Serial.Pass)
    ensures next.outcome != Serial.Fail ==> AliveAt(p, r, next, logged + |chunk|, answered, polled)
    ensures next.outcome == Serial.Fail ==> r.outcome == Some(false) && !r.goals.guest
  {
  }

  /** One chunk. */
  lemma {:induction false} ChunkFollows(p: Plan, s: State, seen: seq<Seen>, polled: bool, chunk: Data, hint: Hint)
    requires ValidPlan(p) && p.config.Some? && Ok(p, s.machine) && Alive(p, s, seen, polled)
    requires chunk != [] && !hint.failure && s.io.logged + |chunk| <= MAX_SERIAL_LOG_BYTES
    ensures Follows(p, TakeChunk(p, s, chunk, hint), seen + [Put(SerialRuns.Chunk(chunk))], polled, s.io.pending)
  {
    var x := Put(SerialRuns.Chunk(chunk));
    RunMore(p, seen, x);
    AnsweredMore(p, seen, x);
    StreamMore(seen, x);
    DoneIff(p, seen);
    if Answered(p, seen) { AnsweredNeedsDone(p, seen); }
    TakeIs(p, s, chunk, hint);
    var c := p.config.value;
    hide Fed, SerialRuns.Run, SerialRuns.Step, Answered, GuestDone, SerialRuns.Stream, Ok, TakeChunk;
    var m, next := SerialRuns.Run(c, Fed(seen)), SerialRuns.Run(c, Fed(seen + [x]));
    TookAlive(p, s, TakeChunk(p, s, chunk, hint), m, next, |SerialRuns.Stream(Fed(seen))|, chunk,
              Answered(p, seen), polled);
    assert TakeChunk(p, s, chunk, hint).io.pending == s.io.pending;
    hide AliveAt, Took;
  }

  /** An answer comes after the guest is done, and the guest stays done. */
  lemma {:induction false} AnsweredNeedsDone(p: Plan, seen: seq<Seen>)
    requires ValidPlan(p) && p.config.Some? && Answered(p, seen)
    ensures GuestDone(p, seen)
  {
    var k :| 0 <= k < |seen| && seen[k].Answer? && seen[k].m.Reply? && seen[k].m.id == Some(REQUEST_ID)
             && GuestDone(p, seen[..k]);
    DoneStays(p, seen, k);
  }

  lemma {:induction false} DoneStays(p: Plan, seen: seq<Seen>, k: nat)
    requires ValidPlan(p) && p.config.Some? && k <= |seen| && GuestDone(p, seen[..k])
    ensures GuestDone(p, seen)
    decreases |seen|
  {
    if k == |seen| {
      assert seen[..k] == seen;
    } else {
      var n := |seen| - 1;
      assert seen[..n][..k] == seen[..k] && seen == seen[..n] + [seen[n]];
      DoneStays(p, seen[..n], k);
      DoneIff(p, seen[..n]);
      DoneIff(p, seen);
      RunMore(p, seen[..n], seen[n]);
    }
  }

  // ----- draining -----

  predicate Within(seen: seq<Seen>) { |SerialRuns.Stream(Fed(seen))| <= MAX_SERIAL_LOG_BYTES }

  lemma {:induction false} WithinBefore(seen: seq<Seen>, more: seq<Seen>)
    requires Within(seen + more)
    ensures Within(seen)
    decreases |more|
  {
    if more == [] {
      assert seen + more == seen;
    } else {
      var n := |more| - 1;
      assert seen + more == (seen + more[..n]) + [more[n]];
      StreamMore(seen + more[..n], more[n]);
      hide SerialRuns.Stream, Fed;
      WithinBefore(seen, more[..n]);
    }
  }

  lemma {:induction false} FollowsDead(
      p: Plan, s: State, t: State, seen: seq<Seen>, more: seq<Seen>, polled: bool, pending: seq<Message>)
    requires ValidPlan(p) && p.config.Some? && Dead(p, s, seen) && t.io.pending == pending
    requires t.outcome == Some(false) && t.goals.guest == s.goals.guest && Ok(p, t.machine)
    ensures Follows(p, t, seen + more, polled, pending)
    decreases |more|
  {
    hide Ok, Fed, SerialRuns.Run;
    if more == [] {
      assert seen + more == seen;
    } else {
      DeadStays(p, s, t, seen, more[0]);
      assert seen + more == (seen + [more[0]]) + more[1..];
      FollowsDead(p, t, t, seen + [more[0]], more[1..], polled, pending);
    }
  }

  lemma {:induction false} DrainFollows(
      p: Plan, s: State, seen: seq<Seen>, polled: bool, pending: seq<Message>, turns: seq<Turn>)
    requires ValidPlan(p) && p.config.Some? && Follows(p, s, seen, polled, pending)
    requires CalmTurns(turns) && Within(seen + SeenTurns(turns))
    ensures Ok(p, s.machine)
    ensures Follows(p, DrainSerial(p, s, turns), seen + SeenTurns(turns), polled, pending)
    decreases |turns|
  {
    if Dead(p, s, seen) {
      DrainStops(p, s, turns);
      FollowsDead(p, s, s, seen, SeenTurns(turns), polled, pending);
    } else if turns == [] {
      DrainStops(p, s, turns);
      assert seen + [] == seen;
    } else {
      var t, rest := turns[0], turns[1..];
      var x := Put(SerialRuns.Chunk(t.chunk));
      assert seen + SeenTurns(turns) == (seen + [x]) + SeenTurns(rest);
      WithinBefore(seen + [x], SeenTurns(rest));
      StreamMore(seen, x);
      DrainUnfolds(p, s, turns);
      assert s.io.logged + |t.chunk| <= MAX_SERIAL_LOG_BYTES && CalmTurns(rest);
      hide Alive, Dead, Within, Ok, TakeChunk, Fed, DrainSerial;
      ChunkFollows(p, s, seen, polled, t.chunk, t.hint);
      DrainFollows(p, TakeChunk(p, s, t.chunk, t.hint), seen + [x], polled, pending, rest);
    }
  }

  // ----- messages -----

  /** What an event does to the loop's variables. */
  lemma {:induction false} EventIs(p: Plan, s: State, m: Message)
    requires ValidPlan(p) && p.config.Some? && Ok(p, s.machine) && m.Event?
    ensures var r := HandleEvent(p, s, m);
            var next := SerialRuns.Step(p.config.value, s.machine, SerialRuns.Qmp(m.name, m.guest, m.reason));
            && r.machine == next && r.io == s.io && r.goals == s.goals
            && r.outcome == if next.outcome == Serial.Fail then Some(false) else s.outcome
  {
    hide Ok, SerialRuns.Step, ValidPlan;
  }

  /** No event but a chunk completes a phase. */
  lemma {:induction false} EventsDoNotPass(c: Serial.Config, m: Serial.State, e: SerialRuns.Event)
    requires Serial.ValidState(c, m) && !e.Chunk? && m.outcome != Serial.Pass
    ensures SerialRuns.Step(c, m, e).outcome != Serial.Pass
  {
  }

  lemma {:induction false} EventFollows(
      p: Plan, s: State, seen: seq<Seen>, polled: bool, pending: seq<Message>, m: Message)
    requires ValidPlan(p) && p.config.Some? && Ok(p, s.machine) && Alive(p, s, seen, polled) && m.Event?
    requires s.io.pending == pending
    ensures Follows(p, HandleEvent(p, s, m), seen + [SeenMessage(m)], polled, pending)
  {
    var x := SeenMessage(m);
    RunMore(p, seen, x);
    AnsweredMore(p, seen, x);
    StreamMore(seen, x);
    EventIs(p, s, m);
    if s.machine.outcome != Serial.Pass { EventsDoNotPass(p.config.value, s.machine, x.e); }
    hide Fed, SerialRuns.Run, SerialRuns.Step, Answered, GuestDone, SerialRuns.Stream, Ok, HandleEvent;
  }

  lemma {:induction false} ReplyFollows(
      p: Plan, s: State, seen: seq<Seen>, polled: bool, pending: seq<Message>, m: Message)
    requires ValidPlan(p) && p.config.Some? && Ok(p, s.machine) && Alive(p, s, seen, polled) && m.Reply?
    requires s.io.pending == pending && CalmMessage(p, m)
    ensures Follows(p, HandleReply(p, s, m), seen + [SeenMessage(m)], polled, pending)
  {
    var x := SeenMessage(m);
    RunMore(p, seen, x);
    AnsweredMore(p, seen, x);
    StreamMore(seen, x);
    DoneIff(p, seen);
    hide Fed, SerialRuns.Run, SerialRuns.Step, Answered, GuestDone, SerialRuns.Stream, Ok, ImageOk;
  }

  lemma {:induction false} DeadMessage(p: Plan, s: State, m: Message)
    requires ValidPlan(p) && p.config.Some? && Ok(p, s.machine) && s.outcome == Some(false)
    ensures var r := HandleMessage(p, s, m);
            r.outcome == Some(false) && r.goals.guest == s.goals.guest && r.io == s.io
  {
    if m.Event? { EventIs(p, s, m); }
    hide Ok, HandleEvent, ImageOk;
  }

  lemma {:induction false} MessageFollows(
      p: Plan, s: State, seen: seq<Seen>, polled: bool, pending: seq<Message>, m: Message)
    requires ValidPlan(p) && p.config.Some? && Follows(p, s, seen, polled, pending) && CalmMessage(p, m)
    ensures Ok(p, s.machine) && Follows(p, HandleMessage(p, s, m), seen + [SeenMessage(m)], polled, pending)
  {
    hide Alive, Ok, HandleEvent, HandleReply;
    if Dead(p, s, seen) {
      DeadMessage(p, s, m);
      FollowsDead(p, s, HandleMessage(p, s, m), seen, [SeenMessage(m)], polled, pending);
    } else if m.Event? {
      EventFollows(p, s, seen, polled, pending, m);
    } else {
      ReplyFollows(p, s, seen, polled, pending, m);
    }
  }

  lemma {:induction false} MessagesFollow(
      p: Plan, s: State, seen: seq<Seen>, polled: bool, pending: seq<Message>, ms: seq<Message>)
    requires ValidPlan(p) && p.config.Some? && Follows(p, s, seen, polled, pending) && CalmMessages(p, ms)
    ensures Ok(p, s.machine)
    ensures Follows(p, HandleMessages(p, s, ms), seen + SeenMessages(ms), polled, pending)
    decreases |ms|
  {
    assert Ok(p, s.machine);
    hide Follows, Ok, HandleMessage, CalmMessage;
    if ms == [] {
      assert seen + [] == seen;
    } else {
      assert seen + SeenMessages(ms) == (seen + [SeenMessage(ms[0])]) + SeenMessages(ms[1..]);
      hide SeenMessages, SeenMessage;
      MessageFollows(p, s, seen, polled, pending, ms[0]);
      MessagesFollow(p, HandleMessage(p, s, ms[0]), seen + [SeenMessage(ms[0])], polled, pending, ms[1..]);
    }
  }

  lemma {:induction false} CloseFollows(p: Plan, s: State, seen: seq<Seen>, polled: bool, pending: seq<Message>)
    requires ValidPlan(p) && p.config.Some? && Follows(p, s, seen, polled, pending)
    ensures Follows(p, CloseQmp(s), seen, polled, pending)
  {
    hide Ok, Fed, SerialRuns.Run, Answered, SerialRuns.Stream;
  }

  lemma {:induction false} KeyFollows(
      p: Plan, s: State, seen: seq<Seen>, polled: bool, pending: seq<Message>, key: Key)
    requires ValidPlan(p) && p.config.Some? && Follows(p, s, seen, polled, pending)
    requires CalmTurns(key.turns) && CalmMessages(p, MessagesOf(key)) && Within(seen + SeenTurns(key.turns))
    ensures Ok(p, s.machine)
    ensures Follows(p, HandleKey(p, s, key), seen + SeenKey(key), polled, pending)
  {
    var mid := seen + SeenTurns(key.turns);
    assert seen + SeenKey(key) == mid + SeenMessages(MessagesOf(key));
    assert SeenMessages([]) == [] && mid + [] == mid;
    DrainFollows(p, s, seen, polled, pending, key.turns);
    var d := DrainSerial(p, s, key.turns);
    hide Ok, DrainSerial, HandleMessages, CloseQmp, SeenTurns, SeenMessages, Within, CalmTurns, CalmMessages;
    if key.SerialKey? {
    } else if d.outcome.Some? {
      DeadIfSome(p, d, mid, polled, pending);
      hide Follows;
      FollowsDead(p, d, d, mid, SeenMessages(MessagesOf(key)), polled, pending);
    } else {
      hide Follows;
      match key.input {
        case Blocked =>
        case Closed => CloseFollows(p, d, mid, polled, pending);
        case Received(ms) => MessagesFollow(p, d, mid, polled, pending, ms);
      }
    }
  }

  lemma {:induction false} DeadIfSome(p: Plan, s: State, seen: seq<Seen>, polled: bool, pending: seq<Message>)
    requires ValidPlan(p) && p.config.Some? && Follows(p, s, seen, polled, pending)
    ensures s.io.pending == pending
    ensures (s.outcome.Some? <==> Dead(p, s, seen)) && (s.outcome.None? <==> Alive(p, s, seen, polled))
  {
    hide Ok, Fed, SerialRuns.Run, Answered, SerialRuns.Stream;
  }

  lemma {:induction false} Regroup(a: seq<Seen>, b: seq<Seen>, c: seq<Seen>)
    ensures a + (b + c) == (a + b) + c
  {
  }

  lemma {:induction false} KeysSplit(p: Plan, seen: seq<Seen>, keys: seq<Key>)
    requires keys != [] && CalmKeys(p, keys) && Within(seen + SeenKeys(keys))
    ensures var key := keys[0];
            && seen + SeenKeys(keys) == (seen + SeenKey(key)) + SeenKeys(keys[1..]) && CalmKeys(p, keys[1..])
            && CalmTurns(key.turns) && CalmMessages(p, MessagesOf(key)) && Within(seen + SeenTurns(key.turns))
  {
    var key, rest := keys[0], keys[1..];
    var turns, messages := SeenTurns(key.turns), SeenMessages(MessagesOf(key));
    Regroup(seen, SeenKey(key), SeenKeys(rest));
    Regroup(seen, turns, messages);
    assert CalmTurns(key.turns) && CalmMessages(p, MessagesOf(key));
    RestIsCalm(p, keys);
    assert SeenKeys(keys) == SeenKey(key) + SeenKeys(rest) && SeenKey(key) == turns + messages;
    hide *;
    WithinBefore(seen + SeenKey(key), SeenKeys(rest));
    WithinBefore(seen + turns, messages);
  }

  lemma {:induction false} RestIsCalm(p: Plan, keys: seq<Key>)
    requires keys != [] && CalmKeys(p, keys)
    ensures CalmKeys(p, keys[1..])
  {
    hide CalmTurns, CalmMessages, MessagesOf;
  }

  lemma {:induction false} KeysFollow(
      p: Plan, s: State, seen: seq<Seen>, polled: bool, pending: seq<Message>, keys: seq<Key>)
    requires ValidPlan(p) && p.config.Some? && Follows(p, s, seen, polled, pending)
    requires CalmKeys(p, keys) && Within(seen + SeenKeys(keys))
    ensures Ok(p, s.machine)
    ensures Follows(p, HandleKeys(p, s, keys), seen + SeenKeys(keys), polled, pending)
    decreases |keys|
  {
    assert Ok(p, s.machine);
    if keys == [] {
      assert seen + [] == seen;
      hide Follows;
    } else {
      KeysSplit(p, seen, keys);
      hide Follows, Ok, HandleKey, SeenKey, Within, SeenTurns, CalmTurns, CalmMessages, HearsKeys, CalmKeys, SeenKeys;
      KeyFollows(p, s, seen, polled, pending, keys[0]);
      KeysFollow(p, HandleKey(p, s, keys[0]), seen + SeenKey(keys[0]), polled, pending, keys[1..]);
    }
  }

  // ----- queued events -----

  lemma {:induction false} PendingFollows(
      p: Plan, s: State, seen: seq<Seen>, polled: bool, pending: seq<Message>, ms: seq<Message>)
    requires ValidPlan(p) && p.config.Some? && Ok(p, s.machine) && Alive(p, s, seen, polled) && s.io.pending == pending
    ensures Follows(p, HandlePending(p, s, ms), seen + SeenPending(ms), polled, pending)
    decreases |ms|
  {
    if ms == [] {
      assert seen + [] == seen;
    } else if ms[0].Reply? {
      hide Alive, Ok, HandleEvent;
      PendingFollows(p, s, seen, polled, pending, ms[1..]);
    } else {
      var x := SeenMessage(ms[0]);
      var h := HandleEvent(p, s, ms[0]);
      assert seen + SeenPending(ms) == (seen + [x]) + SeenPending(ms[1..]);
      EventFollows(p, s, seen, polled, pending, ms[0]);
      EventIs(p, s, ms[0]);
      assert s.outcome.None?;
      DeadIfSome(p, h, seen + [x], polled, pending);
      hide Alive, Ok, HandleEvent, SeenMessage;
      if h.machine.outcome == Serial.Fail {
        FollowsDead(p, h, h, seen + [x], SeenPending(ms[1..]), polled, pending);
      } else {
        PendingFollows(p, h, seen + [x], polled, pending, ms[1..]);
      }
    }
  }

  // ----- one iteration -----

  lemma {:induction false} Complete1(p: Plan, s: State, seen: seq<Seen>, polled: bool)
    requires ValidPlan(p) && p.config.Some? && Alive(p, s, seen, polled)
    ensures Complete(s) <==> AllShown(p, seen, polled)
  {
    DoneIff(p, seen);
    hide Fed, SerialRuns.Run, Answered, GuestDone, SerialRuns.Stream;
  }

  /** What ends an iteration in which there is no verdict so far. */
  lemma {:induction false} AfterEventsFollows(
      p: Plan, s: State, seen: seq<Seen>, polled: bool, pending: seq<Message>, r: Round)
    requires ValidPlan(p) && p.config.Some? && Follows(p, s, seen, polled, pending) && Calm(p, r)
    ensures Ok(p, s.machine)
    ensures var t := AfterEvents(p, s, r); var now := polled || r.poll == Some(true);
            if s.outcome.None? && AllShown(p, seen, now) then t.outcome == Some(true)
            else Follows(p, t, seen, now, pending)
  {
    var c, now := PollCompanion(s, r.poll), polled || r.poll == Some(true);
    DeadIfSome(p, s, seen, polled, pending);
    if s.outcome.None? {
      assert Alive(p, c, seen, now) && c.io == s.io && c.outcome.None?;
      Complete1(p, c, seen, now);
      hide Alive, Ok, Dead, AllShown, CalmKeys, CalmTurns, PollCompanion;
    } else {
      assert !Complete(c) && c.outcome == Some(false) && !c.goals.guest && c.io == s.io && Dead(p, c, seen);
      hide Alive, Ok, Dead, AllShown, CalmKeys, CalmTurns, PollCompanion;
    }
  }

  lemma {:induction false} ClearPending(p: Plan, s: State, seen: seq<Seen>, polled: bool, pending: seq<Message>)
    requires ValidPlan(p) && p.config.Some? && Follows(p, s, seen, polled, pending) && s.outcome.None?
    ensures var t := s.(io := s.io.(pending := [])); Ok(p, t.machine) && Alive(p, t, seen, polled)
  {
    DeadIfSome(p, s, seen, polled, pending);
    hide Ok, Fed, SerialRuns.Run, Answered, SerialRuns.Stream;
  }

  /** The queued events of the first iteration. */
  lemma {:induction false} QueueFollows(
      p: Plan, s: State, seen: seq<Seen>, polled: bool, pending: seq<Message>, turns: seq<Turn>)
    requires ValidPlan(p) && p.config.Some? && Follows(p, s, seen, polled, pending) && CalmTurns(turns)
    requires Within(seen + SeenTurns(turns))
    ensures Ok(p, s.machine)
    ensures var d := DrainSerial(p, s, turns); var all := seen + (SeenTurns(turns) + SeenPending(pending));
            if d.outcome.Some? then Follows(p, d, all, polled, pending)
            else Follows(p, HandlePending(p, d.(io := d.io.(pending := [])), d.io.pending), all, polled, [])
  {
    assert Ok(p, s.machine);
    hide Ok, DrainSerial, SeenTurns, Within, CalmTurns, SeenPending, Alive, Dead, HandlePending, Follows;
    var mid := seen + SeenTurns(turns);
    Regroup(seen, SeenTurns(turns), SeenPending(pending));
    DrainFollows(p, s, seen, polled, pending, turns);
    var d := DrainSerial(p, s, turns);
    DeadIfSome(p, d, mid, polled, pending);
    if d.outcome.Some? {
      DeadGoesOn(p, d, mid, SeenPending(pending), polled, pending);
    } else {
      ClearPending(p, d, mid, polled, pending);
      PendingFollows(p, d.(io := d.io.(pending := [])), mid, polled, [], pending);
    }
  }

  lemma {:induction false} DeadGoesOn(
      p: Plan, s: State, seen: seq<Seen>, more: seq<Seen>, polled: bool, pending: seq<Message>)
    requires ValidPlan(p) && p.config.Some? && Dead(p, s, seen) && s.io.pending == pending
    ensures Follows(p, s, seen + more, polled, pending)
  {
    assert Ok(p, s.machine);
    hide Ok, Follows;
    FollowsDead(p, s, s, seen, more, polled, pending);
  }

  lemma {:induction false} AfterKeysFollows(
      p: Plan, s: State, seen: seq<Seen>, polled: bool, pending: seq<Message>, r: Round)
    requires ValidPlan(p) && p.config.Some? && Follows(p, s, seen, polled, pending) && s.outcome.None? && Calm(p, r)
    requires Within(seen + SeenQueue(pending, r))
    ensures Ok(p, s.machine)
    ensures var t := AfterKeys(p, s, r); var now := polled || r.poll == Some(true);
            var all := seen + SeenQueue(pending, r);
            || (t.outcome == Some(true) && AllShown(p, all, now))
            || (t.outcome.Some? && exists q :: Follows(p, t, all, polled, q))
            || (Follows(p, t, all, now, []) && (t.outcome.None? ==> !AllShown(p, all, now)))
  {
    assert s.io.pending == pending && Ok(p, s.machine);
    hide AfterEvents, DrainSerial, HandlePending, Ok, Alive, Dead, Within, AllShown;
    if pending == [] {
      assert seen + [] == seen;
      hide Follows, Calm;
      AfterEventsFollows(p, s, seen, polled, [], r);
    } else {
      var all := seen + (SeenTurns(r.pendingTurns) + SeenPending(pending));
      assert all == (seen + SeenTurns(r.pendingTurns)) + SeenPending(pending);
      WithinBefore(seen + SeenTurns(r.pendingTurns), SeenPending(pending));
      assert CalmTurns(r.pendingTurns);
      QueueFollows(p, s, seen, polled, pending, r.pendingTurns);
      hide Follows, Calm, SeenTurns, SeenPending, CalmTurns;
      var d := DrainSerial(p, s, r.pendingTurns);
      if d.outcome.None? {
        var e := HandlePending(p, d.(io := d.io.(pending := [])), d.io.pending);
        AfterEventsFollows(p, e, all, polled, [], r);
      }
    }
  }

  /** One iteration that starts with something still to be shown. */
  lemma {:induction false} StepFollows(
      p: Plan, s: State, seen: seq<Seen>, polled: bool, pending: seq<Message>, r: Round)
    requires ValidPlan(p) && p.config.Some? && Follows(p, s, seen, polled, pending) && s.outcome.None? && Calm(p, r)
    requires Within(seen + SeenRound(pending, r))
    ensures Ok(p, s.machine)
    ensures var t := Step(p, s, r); var now := polled || r.poll == Some(true); var all := seen + SeenRound(pending, r);
            || (t.outcome == Some(true) && AllShown(p, all, now))
            || Dead(p, t, all)
            || (t.outcome.None? && Follows(p, t, all, now, []) && !AllShown(p, all, now))
  {
    assert Ok(p, s.machine);
    var mid, now := seen + SeenKeys(r.keys), polled || r.poll == Some(true);
    Regroup(seen, SeenKeys(r.keys), SeenQueue(pending, r));
    assert seen + SeenRound(pending, r) == mid + SeenQueue(pending, r);
    assert CalmKeys(p, r.keys) && !r.expired;
    hide HandleKeys, AfterKeys, Ok, SeenKeys, SeenQueue, SeenRound, Within, Follows, Calm, CalmKeys, AllShown, Dead;
    WithinBefore(mid, SeenQueue(pending, r));
    KeysFollow(p, s, seen, polled, pending, r.keys);
    var a := HandleKeys(p, s, r.keys);
    if a.outcome.Some? {
      DeadIfSome(p, a, mid, polled, pending);
      DeadMore(p, a, mid, SeenQueue(pending, r), polled);
    } else {
      AfterKeysFollows(p, a, mid, polled, pending, r);
      var t := AfterKeys(p, a, r);
      if t.outcome.Some? { Ended(p, t, mid + SeenQueue(pending, r), polled, now); }
    }
  }

  lemma {:induction false} DeadMore(p: Plan, s: State, seen: seq<Seen>, more: seq<Seen>, polled: bool)
    requires ValidPlan(p) && p.config.Some? && Dead(p, s, seen)
    ensures Dead(p, s, seen + more)
  {
    assert Ok(p, s.machine);
    FollowsDead(p, s, s, seen, more, polled, s.io.pending);
    DeadIfSome(p, s, seen + more, polled, s.io.pending);
    hide Ok, Follows, Alive;
  }

  lemma {:induction false} Ended(p: Plan, t: State, all: seq<Seen>, polled: bool, now: bool)
    requires ValidPlan(p) && p.config.Some? && t.outcome.Some?
    ensures (exists q :: Follows(p, t, all, polled, q)) ==> Dead(p, t, all)
    ensures Follows(p, t, all, now, []) ==> Dead(p, t, all)
  {
    if q :| Follows(p, t, all, polled, q) { DeadIfSome(p, t, all, polled, q); }
    if Follows(p, t, all, now, []) { DeadIfSome(p, t, all, now, []); }
    hide Follows, Dead, Alive;
  }

  // ----- the whole run -----

  lemma {:induction false} ShownStays(p: Plan, seen: seq<Seen>, more: seq<Seen>, polled: bool, later: bool)
    requires ValidPlan(p) && p.config.Some? && AllShown(p, seen, polled) && (polled ==> later)
    ensures AllShown(p, seen + more, later)
  {
    assert (seen + more)[..|seen|] == seen;
    DoneStays(p, seen + more, |seen|);
    if p.shotWanted {
      var k :| 0 <= k < |seen| && seen[k].Answer? && seen[k].m.Reply? && seen[k].m.id == Some(REQUEST_ID)
               && GuestDone(p, seen[..k]);
      assert (seen + more)[k] == seen[k] && (seen + more)[..k] == seen[..k];
    }
    hide GuestDone;
  }

  ghost predicate MachineFails(p: Plan, seen: seq<Seen>)
    requires ValidPlan(p) && p.config.Some?
  {
    SerialRuns.Run(p.config.value, Fed(seen)).outcome == Serial.Fail
  }

  lemma {:induction false} ShownIsNotFailed(p: Plan, seen: seq<Seen>, polled: bool)
    requires ValidPlan(p) && p.config.Some? && AllShown(p, seen, polled)
    ensures !MachineFails(p, seen)
  {
    DoneIff(p, seen);
    hide GuestDone, Answered, Fed, SerialRuns.Run;
  }

  lemma {:induction false} DeadShowsNothing(
      p: Plan, s: State, seen: seq<Seen>, more: seq<Seen>, polled: bool, later: bool)
    requires ValidPlan(p) && p.config.Some? && Dead(p, s, seen)
    ensures s.outcome == Some(false) && !AllShown(p, seen + more, later) && MachineFails(p, seen + more)
  {
    DeadMore(p, s, seen, more, polled);
    DoneIff(p, seen + more);
    hide Ok, GuestDone, Fed, SerialRuns.Run, Answered;
  }

  lemma {:induction false} RunFollows(
      p: Plan, s: State, seen: seq<Seen>, polled: bool, pending: seq<Message>, rounds: seq<Round>)
    requires ValidPlan(p) && p.config.Some? && Follows(p, s, seen, polled, pending) && s.outcome.None?
    requires !AllShown(p, seen, polled) && (forall i :: 0 <= i < |rounds| ==> Calm(p, rounds[i]))
    requires Within(seen + SeenRun(pending, rounds))
    ensures Ok(p, s.machine)
    ensures Run(p, s, rounds).outcome == Some(true) <==>
            AllShown(p, seen + SeenRun(pending, rounds), polled || Polled(rounds))
    ensures Run(p, s, rounds).outcome == Some(false) <==> MachineFails(p, seen + SeenRun(pending, rounds))
    decreases |rounds|
  {
    assert Ok(p, s.machine);
    if rounds == [] {
      assert seen + [] == seen && !Polled(rounds);
      DeadIfSome(p, s, seen, polled, pending);
      hide AllShown, Ok, Follows;
    } else {
      var r, rest := rounds[0], rounds[1..];
      var mid, now := seen + SeenRound(pending, r), polled || r.poll == Some(true);
      Regroup(seen, SeenRound(pending, r), SeenRun([], rest));
      assert seen + SeenRun(pending, rounds) == mid + SeenRun([], rest);
      PolledFirst(rounds);
      assert forall i :: 0 <= i < |rest| ==> rest[i] == rounds[i + 1];
      hide Ok, Step, SeenRun, SeenRound, Follows, Within, Calm, AllShown, Dead, SaidIn, Polled;
      hide MachineFails;
      WithinBefore(mid, SeenRun([], rest));
      StepFollows(p, s, seen, polled, pending, r);
      var t := Step(p, s, r);
      RunUnfolds(p, s, rounds);
      if t.outcome == Some(true) {
        ShownStays(p, mid, SeenRun([], rest), now, polled || Polled(rounds));
        ShownIsNotFailed(p, mid + SeenRun([], rest), polled || Polled(rounds));
      } else if Dead(p, t, mid) {
        DeadShowsNothing(p, t, mid, SeenRun([], rest), now, polled || Polled(rounds));
      } else {
        RunFollows(p, t, mid, now, [], rest);
      }
    }
  }

  lemma {:induction false} PolledFirst(rounds: seq<Round>)
    requires rounds != []
    ensures Polled(rounds) <==> rounds[0].poll == Some(true) || Polled(rounds[1..])
  {
    var rest := rounds[1..];
    if Polled(rest) {
      var i :| 0 <= i < |rest| && rest[i].poll == Some(true);
      assert rounds[i + 1].poll == Some(true);
    }
    if i :| 0 <= i < |rounds| && rounds[i].poll == Some(true) { if i > 0 { assert rest[i - 1] == rounds[i]; } }
  }

  lemma {:induction false} RunUnfolds(p: Plan, s: State, rounds: seq<Round>)
    requires Ok(p, s.machine) && rounds != [] && s.outcome.None?
    ensures var t := Step(p, s, rounds[0]);
            && Run(p, s, rounds) == Run(p, t, rounds[1..]) && (t.outcome.Some? ==> Run(p, s, rounds) == t)
  {
    hide Ok, Step, SaidIn;
  }

  lemma {:induction false} StartFollows(p: Plan, pending: seq<Message>)
    requires ValidPlan(p) && p.config.Some?
    ensures Follows(p, Start(p, pending), [], false, pending) && !AllShown(p, [], false)
    ensures var s := Start(p, pending); s.outcome.None? && s.machine == Serial.INITIAL && Ok(p, s.machine)
  {
    StartInv(p, pending);
    TracedOk(p, Start(p, pending));
    DoneIff(p, []);
    assert SerialRuns.Run(p.config.value, []) == Serial.INITIAL;
    hide Inv, Ok, GuestDone;
  }

  /** Exactly when a calm run passes: its serial stream has completed the markers as the machine's
      specification says, the screendump that is wanted has been answered after that, and the companion
      that is wanted has succeeded.  It fails exactly when the machine does. */
  lemma {:induction false} CalmRunPasses(p: Plan, pending: seq<Message>, rounds: seq<Round>)
    requires ValidPlan(p) && p.config.Some? && forall i :: 0 <= i < |rounds| ==> Calm(p, rounds[i])
    requires |SerialRuns.Stream(Fed(SeenRun(pending, rounds)))| <= MAX_SERIAL_LOG_BYTES
    ensures Ok(p, Serial.INITIAL)
    ensures var seen := SeenRun(pending, rounds);
            Run(p, Start(p, pending), rounds).outcome == Some(true) <==>
            && SerialRuns.AcceptedBy(p.config.value, Fed(seen))
            && (p.shotWanted ==> Answered(p, seen))
            && (p.companionWanted ==> Polled(rounds))
    ensures Run(p, Start(p, pending), rounds).outcome == Some(false) <==> MachineFails(p, SeenRun(pending, rounds))
  {
    hide Ok, Start, Run, SeenRun, Answered, Polled, SerialRuns.AcceptedBy, SerialRuns.Stream, Fed, MachineFails;
    CalmRun(p, pending, rounds);
  }

  lemma {:induction false} CalmRun(p: Plan, pending: seq<Message>, rounds: seq<Round>)
    requires ValidPlan(p) && p.config.Some? && forall i :: 0 <= i < |rounds| ==> Calm(p, rounds[i])
    requires |SerialRuns.Stream(Fed(SeenRun(pending, rounds)))| <= MAX_SERIAL_LOG_BYTES
    ensures Ok(p, Serial.INITIAL)
    ensures var t, seen := Run(p, Start(p, pending), rounds), SeenRun(pending, rounds);
            && (t.outcome == Some(true) <==> AllShown(p, seen, Polled(rounds)))
            && (t.outcome == Some(false) <==> MachineFails(p, seen))
  {
    hide Ok, Start, Follows, Run, SeenRun, Polled, AllShown, MachineFails, Calm, Fed, SerialRuns.Stream;
    StartFollows(p, pending);
    var seen := SeenRun(pending, rounds);
    assert [] + seen == seen;
    assert Within([] + seen);
    hide Within;
    RunFollows(p, Start(p, pending), [], false, pending, rounds);
  }
}
