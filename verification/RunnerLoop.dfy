/** The loops of `_run_qemu` as they update their variables and the assertion machine. */
module RunnerLoop {
  import opened Bytes
  import opened Runner
  import Serial
  import SerialRuns
  import SerialScanners
  import Ppm

  class Loop {
    const plan: Plan
    const machine: Serial.SerialAssertionMachine?
    const legacy: SerialScanners.LegacyForbidden?
    var goals: Goals
    var io: Io
    var outcome: Option<bool>
    ghost var trace: seq<SerialRuns.Event>
    ghost var heard: seq<Heard>
    ghost var failed: bool

    ghost function Now(): State
      reads this, machine, legacy
    {
      State(if machine == null then Serial.INITIAL else machine.Now(), if legacy == null then [] else legacy.tail,
            goals, io, outcome, trace, heard, failed)
    }

    ghost predicate Valid()
      reads this, machine, legacy
    {
      && ValidPlan(plan) && (machine == null <==> plan.config.None?) && (legacy == null <==> plan.config.Some?)
      && (machine != null ==> machine.Valid() && machine.config == plan.config.value)
      && (legacy != null ==> legacy.Valid() && legacy.forbidden == plan.forbidden)
      && Ok(plan, Now().machine)
    }

    constructor (p: Plan, pending: seq<Message>)
      requires ValidPlan(p)
      ensures Valid() && plan == p && Now() == Start(p, pending)
      ensures (machine != null ==> fresh(machine)) && (legacy != null ==> fresh(legacy))
    {
      plan := p;
      var m, l := null, null;
      if p.config.Some? {
        m := new Serial.SerialAssertionMachine(p.config.value);
      } else {
        l := new SerialScanners.LegacyForbidden(p.forbidden);
      }
      machine, legacy := m, l;
      goals := Goals(false, None, !p.shotWanted, !p.companionWanted, false, false);
      io := Io(false, 0, pending, false, false, []);
      outcome := None;
      trace, heard, failed := [], [], false;
    }

    method Failure()
      requires Valid()
      modifies this
      ensures Valid() && Now() == Fail(old(Now()))
    {
      outcome := Some(false);
      failed := true;
    }

    method FeedMachine(chunk: Data)
      requires Valid() && machine != null
      modifies this, machine, legacy
      ensures Valid() && Now() == Advance(plan, old(Now()), SerialRuns.Chunk(chunk))
    {
      hide Serial.Feed, Serial.ValidState, Serial.ValidConfig;
      machine.FeedChunk(chunk);
      trace := trace + [SerialRuns.Chunk(chunk)];
    }

    method StopMachine(e: SerialRuns.Event)
      requires Valid() && (e.Exited? || e.Deadline?)
      modifies this, machine, legacy
      ensures Valid() && Now() == Stopped(plan, old(Now()), e)
    {
      hide Serial.ValidState, Serial.ValidConfig;
      if machine != null {
        if e.Exited? { machine.ProcessExited(); } else { machine.TimedOut(); }
        trace := trace + [e];
      }
    }

    /** `_LegacyVerdict.feed` and what follows from its verdict. */
    method ConsultLegacy(chunk: Data, hint: Hint)
      requires Valid() && legacy != null
      modifies this, legacy
      ensures Valid() && Now() == JudgePattern(plan, old(Now()), chunk, hint)
    {
      hide Ok, Fail, Serial.ContainsAny, SerialScanners.NextTail;
      var hit := legacy.Feed(chunk);
      if hit || hint.failure {
        Failure();
      } else if hint.success {
        goals := goals.(guest := true, matched := true);
      }
    }

    method ConsultMachine()
      requires Valid() && machine != null
      modifies this
      ensures Valid() && Now() == JudgeMachine(old(Now()))
    {
      hide Ok, Fail;
      if machine.outcome == Serial.Fail {
        Failure();
      } else if machine.outcome == Serial.Pass {
        goals := goals.(guest := true);
      }
    }

    method Request()
      requires Valid()
      modifies this
      ensures Valid() && Now() == RequestShot(old(Now()))
    {
      hide Ok;
      if goals.guest && !goals.shot && goals.request.None? { goals := goals.(request := Some(REQUEST_ID)); }
    }

    method HandOn(chunk: Data)
      requires Valid()
      modifies this
      ensures Valid() && Now() == Hand(old(Now()), chunk)
    {
      hide Ok;
      io := io.(fed := io.fed + chunk);
    }

    method Process(chunk: Data, final: bool, hint: Hint)
      requires Valid()
      modifies this, machine, legacy
      ensures Valid() && Now() == ProcessSerial(plan, old(Now()), chunk, final, hint)
    {
      hide Ok, JudgePattern, JudgeMachine, Fail, RequestShot, Hand, Advance;
      if chunk == [] && !final { return; }
      HandOn(chunk);
      if legacy != null {
        ConsultLegacy(chunk, hint);
      } else {
        if hint.failure {
          Failure();
          return;
        }
        FeedMachine(chunk);
        ConsultMachine();
      }
      Request();
    }

    method Take(chunk: Data, hint: Hint)
      requires Valid()
      modifies this, machine, legacy
      ensures Valid() && Now() == TakeChunk(plan, old(Now()), chunk, hint)
    {
      hide Ok, ProcessSerial, Fail;
      if chunk == [] {
        io := io.(eof := true);
      } else {
        io := io.(logged := io.logged + |chunk|);
        if io.logged > MAX_SERIAL_LOG_BYTES {
          Failure();
          return;
        }
      }
      Process(chunk, chunk == [], hint);
    }

    method Drain(turns: seq<Turn>)
      requires Valid()
      modifies this, machine, legacy
      ensures Valid() && Now() == DrainSerial(plan, old(Now()), turns)
    {
      hide Ok, TakeChunk, Stopped, Fail, DrainSerial;
      var k := 0;
      while k < |turns| && !io.eof && outcome.None?
        invariant k <= |turns| && Valid()
        invariant DrainSerial(plan, Now(), turns[k..]) == DrainSerial(plan, old(Now()), turns)
        decreases |turns| - k
      {
        assert turns[k..][0] == turns[k] && turns[k..][1..] == turns[k + 1..];
        match turns[k] {
          case Expired =>
            DrainExpires(plan, Now(), turns[k..]);
            StopMachine(SerialRuns.Deadline);
            Failure();
            return;
          case Got(chunk, hint) =>
            DrainUnfolds(plan, Now(), turns[k..]);
            Take(chunk, hint);
        }
        k := k + 1;
      }
      DrainStops(plan, Now(), turns[k..]);
    }

    method TakeEvent(m: Message)
      requires Valid() && m.Event?
      modifies this, machine, legacy
      ensures Valid() && Now() == HandleEvent(plan, old(Now()), m)
    {
      hide Serial.ValidState, Serial.ValidConfig, Fail, Serial.HandleReset;
      if machine == null { return; }
      if m.name == "RESET" { machine.HandleResetEvent(m.guest, m.reason); }
      trace := trace + [SerialRuns.Qmp(m.name, m.guest, m.reason)];
      if machine.outcome == Serial.Fail { Failure(); }
    }

    /** The screendump file is validated when its answer comes. */
    method TakeReply(m: Message)
      requires Valid() && m.Reply?
      modifies this
      ensures Valid() && Now() == HandleReply(plan, old(Now()), m)
    {
      hide Ok, Fail, Ppm.Validate;
      heard := heard + [Heard(goals.request, goals.guest, m)];
      if m.id != goals.request { return; }
      if m.error || m.image.None? {
        Failure();
        return;
      }
      var info := Ppm.ValidatePpm(m.image.value, plan.minDistinct, MAX_PPM_BYTES, MAX_PPM_PIXELS);
      if info.None? { Failure(); } else { goals := goals.(shot := true); }
    }

    method TakeMessages(ms: seq<Message>)
      requires Valid()
      modifies this, machine, legacy
      ensures Valid() && Now() == HandleMessages(plan, old(Now()), ms)
    {
      hide Ok, HandleEvent, HandleReply;
      for k := 0 to |ms|
        invariant Valid() && HandleMessages(plan, Now(), ms[k..]) == HandleMessages(plan, old(Now()), ms)
      {
        assert ms[k..][0] == ms[k] && ms[k..][1..] == ms[k + 1..];
        match ms[k] {
          case Event(_, _, _) => TakeEvent(ms[k]);
          case Reply(_, _, _) => TakeReply(ms[k]);
        }
      }
    }

    method TakePending(ms: seq<Message>)
      requires Valid()
      modifies this, machine, legacy
      ensures Valid() && Now() == HandlePending(plan, old(Now()), ms)
    {
      hide Ok, HandleEvent;
      for k := 0 to |ms|
        invariant Valid() && HandlePending(plan, Now(), ms[k..]) == HandlePending(plan, old(Now()), ms)
      {
        assert ms[k..][0] == ms[k] && ms[k..][1..] == ms[k + 1..];
        if ms[k].Event? {
          TakeEvent(ms[k]);
          if machine != null && machine.outcome == Serial.Fail { return; }
        }
      }
    }

    method TakeInput(input: Input)
      requires Valid()
      modifies this, machine, legacy
      ensures Valid() && Now() == HandleInput(plan, old(Now()), input)
    {
      hide Ok, HandleMessages;
      match input {
        case Blocked =>
        case Closed => if !(goals.guest && goals.shot) { io := io.(qmpClosed := true); }
        case Received(ms) => TakeMessages(ms);
      }
    }

    method TakeKeys(keys: seq<Key>)
      requires Valid()
      modifies this, machine, legacy
      ensures Valid() && Now() == HandleKeys(plan, old(Now()), keys)
    {
      hide Ok, DrainSerial, HandleInput, HearsKeys, HearsOnly;
      for k := 0 to |keys|
        invariant Valid() && HandleKeys(plan, Now(), keys[k..]) == HandleKeys(plan, old(Now()), keys)
      {
        var key := keys[k];
        assert keys[k..][0] == key && keys[k..][1..] == keys[k + 1..];
        Drain(key.turns);
        if key.QmpKey? {
          if outcome.Some? {
            KeysSettled(plan, Now(), keys[k + 1..]);
            return;
          }
          TakeInput(key.input);
        }
      }
    }

    method Exit(r: Round)
      requires Valid()
      modifies this, machine, legacy
      ensures Valid() && Now() == HandleExit(plan, old(Now()), r)
    {
      hide Ok, DrainSerial, FinishExit, Fail;
      if r.exit.Some? && !io.exitHandled {
        Drain(r.exitTurns);
        if !io.eof { return; }
        io := io.(exitHandled := true);
        Ended(r.exit.value);
      }
      if outcome.None? && io.qmpClosed && r.lost && !(goals.guest && goals.shot) { Failure(); }
    }

    method Ended(code: int)
      requires Valid()
      modifies this, machine, legacy
      ensures Valid() && Now() == FinishExit(plan, old(Now()), code)
    {
      hide Ok, Stopped, Fail;
      if outcome.None? && code in plan.accepted { goals := goals.(guest := true, exitAccepted := true); }
      if outcome.None? && goals.guest && goals.shot {
        if goals.companion { outcome := Some(true); }
      } else if outcome.None? {
        StopMachine(SerialRuns.Exited);
        Failure();
      }
    }

    method Iterate(r: Round)
      requires Valid() && outcome.None?
      modifies this, machine, legacy
      ensures Valid() && Now() == Step(plan, old(Now()), r)
    {
      hide Ok, DrainSerial, Stopped, Fail, HandleKeys, HandlePending, AfterEvents;
      if r.expired {
        StopMachine(SerialRuns.Deadline);
        Failure();
        return;
      }
      TakeKeys(r.keys);
      if outcome.Some? { return; }
      if io.pending != [] {
        Drain(r.pendingTurns);
        if outcome.Some? { return; }
        var queued := io.pending;
        io := io.(pending := []);
        TakePending(queued);
      }
      Conclude(r);
    }

    method Poll(status: Option<bool>)
      requires Valid()
      modifies this
      ensures Valid() && Now() == PollCompanion(old(Now()), status)
    {
      hide Ok, Fail;
      if !goals.companion && status.Some? {
        if status.value { goals := goals.(companion := true); } else { Failure(); }
      }
    }

    /** The companion, then the combined verdict, then the process. */
    method Conclude(r: Round)
      requires Valid()
      modifies this, machine, legacy
      ensures Valid() && Now() == AfterEvents(plan, old(Now()), r)
    {
      hide Ok, HandleExit, PollCompanion;
      Poll(r.poll);
      if goals.guest && goals.shot && goals.companion {
        outcome := Some(true);
        return;
      }
      Exit(r);
    }

    /** `while outcome is None` */
    method RunLoop(rounds: seq<Round>)
      requires Valid()
      modifies this, machine, legacy
      ensures Valid() && Now() == Run(plan, old(Now()), rounds)
    {
      hide Ok, Step;
      var k := 0;
      while k < |rounds| && outcome.None?
        invariant k <= |rounds| && Valid() && Run(plan, Now(), rounds[k..]) == Run(plan, old(Now()), rounds)
        decreases |rounds| - k
      {
        assert rounds[k..][0] == rounds[k] && rounds[k..][1..] == rounds[k + 1..];
        Iterate(rounds[k]);
        k := k + 1;
      }
    }
  }
}
