/** The event loop of `_run_qemu`: how serial data, QMP messages, the companion, the process and
    the deadline become one verdict.  Everything the loop observes is an input. */
module Runner {
  import opened Bytes
  import opened Search
  import Serial
  import SerialRuns
  import SerialScanners
  import Ppm
  import PpmFormat

  const MAX_SERIAL_LOG_BYTES := 256 * 1024 * 1024
  const MAX_PPM_BYTES := 64 * 1024 * 1024
  const MAX_PPM_PIXELS := 16 * 1024 * 1024

  /** The id of the screendump request. */
  const REQUEST_ID := 1000

  /** What a run is to show: ordered or phased markers, or (`config == None`) a success pattern and
      no forbidden marker; exit statuses that count as success; how many colours a screendump must
      have; whether a screendump and a companion are wanted at all. */
  datatype Plan = Plan(
    config: Option<Serial.Config>, forbidden: seq<Data>, accepted: set<int>, minDistinct: int,
    shotWanted: bool, companionWanted: bool)

  /** The rule that runs the tool refuses empty markers. */
  predicate ValidPlan(p: Plan)
  {
    && (p.config.Some? ==> Serial.ValidConfig(p.config.value))
    && forall i :: 0 <= i < |p.forbidden| ==> p.forbidden[i] != []
  }

  // ----- what the loop observes -----

  /** Whether the failure and the success pattern match the text up to and including a chunk. */
  datatype Hint = Hint(failure: bool, success: bool)

  /** One turn of the draining loop: the deadline has passed, or `os.read` returned a chunk (empty
      at end of file).  A list of turns ends where `os.read` would block. */
  datatype Turn = Expired | Got(chunk: Data, hint: Hint)

  /** A QMP message.  A reply has an id or none, and an error or none; `image` is what the
      screendump file holds when the reply is handled, or `None` when it cannot be read. */
  datatype Message =
    | Event(name: string, guest: Option<bool>, reason: Option<string>)
    | Reply(id: Option<int>, error: bool, image: Option<Data>)

  datatype Input = Blocked | Closed | Received(messages: seq<Message>)

  datatype Key = SerialKey(turns: seq<Turn>) | QmpKey(turns: seq<Turn>, input: Input)

  /** One iteration: the selector's keys in sorted order, the companion's and the process's status
      (`None` while running), and whether QMP has been closed for long under a running process. */
  datatype Round = Round(
    expired: bool, keys: seq<Key>, pendingTurns: seq<Turn>, poll: Option<bool>, exit: Option<int>,
    exitTurns: seq<Turn>, lost: bool)

  // ----- the loop's variables -----

  /** `request` is `screenshot_request_id`.  `exitAccepted` and `matched` are history: an accepted
      exit status was seen, the success pattern matched. */
  datatype Goals = Goals(
    guest: bool, request: Option<int>, shot: bool, companion: bool, exitAccepted: bool, matched: bool)

  /** `fed` is history: the serial bytes handed on. */
  datatype Io = Io(eof: bool, logged: nat, pending: seq<Message>, exitHandled: bool, qmpClosed: bool, fed: Data)

  /** History: a reply, and what had been requested and completed when it was handled. */
  datatype Heard = Heard(request: Option<int>, guest: bool, reply: Message)

  /** `tail` is the tail of the forbidden scan in pattern mode.  `trace`, `heard` and `failed` are
      history: the events handed to the machine, the replies handled, and whether a failure was ever
      recorded. */
  datatype State = State(
    machine: Serial.State, tail: Data, goals: Goals, io: Io, outcome: Option<bool>,
    trace: seq<SerialRuns.Event>, heard: seq<Heard>, failed: bool)

  function Start(p: Plan, pending: seq<Message>): State
  {
    State(Serial.INITIAL, [], Goals(false, None, !p.shotWanted, !p.companionWanted, false, false),
          Io(false, 0, pending, false, false, []), None, [], [], false)
  }

  function Fail(s: State): (r: State)
    ensures r.machine == s.machine && r.goals == s.goals && r.heard == s.heard
  {
    s.(outcome := Some(false), failed := true)
  }

  function Pass(s: State): (r: State)
    ensures r.machine == s.machine && r.goals == s.goals && r.heard == s.heard
  {
    s.(outcome := Some(true))
  }

  /** Serial data and events neither complete the companion nor are they replies. */
  predicate SameGoals(s: State, r: State)
  {
    r.goals.companion == s.goals.companion && r.goals.exitAccepted == s.goals.exitAccepted && r.heard == s.heard
  }

  /** The replies handled between two states are among `ms`. */
  predicate HearsOnly(s: State, r: State, ms: seq<Message>)
  {
    && r.goals.companion == s.goals.companion && r.goals.exitAccepted == s.goals.exitAccepted
    && forall x :: x in r.heard ==> x in s.heard || x.reply in ms
  }

  function MessagesOf(key: Key): seq<Message>
  {
    if key.QmpKey? && key.input.Received? then key.input.messages else []
  }

  predicate SaidIn(keys: seq<Key>, m: Message) { exists i :: 0 <= i < |keys| && m in MessagesOf(keys[i]) }

  predicate HearsKeys(s: State, r: State, keys: seq<Key>)
  {
    && r.goals.companion == s.goals.companion && r.goals.exitAccepted == s.goals.exitAccepted
    && forall x :: x in r.heard ==> x in s.heard || SaidIn(keys, x.reply)
  }

  predicate AcceptedExit(p: Plan, r: Round) { r.exit.Some? && r.exit.value in p.accepted }

  ghost predicate Ok(p: Plan, m: Serial.State)
  {
    ValidPlan(p) && (p.config.Some? ==> Serial.ValidState(p.config.value, m))
  }

  /** The machine takes one event. */
  function Advance(p: Plan, s: State, e: SerialRuns.Event): (r: State)
    requires Ok(p, s.machine) && p.config.Some?
    ensures Ok(p, r.machine) && r.goals == s.goals && r.heard == s.heard
  {
    hide SerialRuns.Step, Serial.ValidState, Serial.ValidConfig;
    SerialRuns.StepKeepsValid(p.config.value, s.machine, e);
    s.(machine := SerialRuns.Step(p.config.value, s.machine, e), trace := s.trace + [e])
  }

  function Stopped(p: Plan, s: State, e: SerialRuns.Event): (r: State)
    requires Ok(p, s.machine)
    ensures Ok(p, r.machine) && r.goals == s.goals && r.heard == s.heard
  {
    hide Ok, Advance;
    if p.config.None? then s else Advance(p, s, e)
  }

  // ----- serial data -----

  /** `_LegacyVerdict.feed`: the forbidden scan, then the failure and the success pattern. */
  function JudgePattern(p: Plan, s: State, chunk: Data, hint: Hint): (r: State)
    ensures r.machine == s.machine && SameGoals(s, r)
  {
    if Serial.ContainsAny(p.forbidden, s.tail + chunk) then Fail(s)
    else
      var t := s.(tail := SerialScanners.NextTail(p.forbidden, s.tail, chunk));
      if hint.failure then Fail(t)
      else if hint.success then t.(goals := t.goals.(guest := true, matched := true))
      else t
  }

  /** What the machine's outcome means for the run. */
  function JudgeMachine(s: State): (r: State)
    ensures r.machine == s.machine && SameGoals(s, r)
  {
    if s.machine.outcome == Serial.Fail then Fail(s)
    else if s.machine.outcome == Serial.Pass then s.(goals := s.goals.(guest := true))
    else s
  }

  /** The chunk is handed on. */
  function Hand(s: State, chunk: Data): (r: State)
    ensures r.machine == s.machine && r.goals == s.goals && r.heard == s.heard
  {
    s.(io := s.io.(fed := s.io.fed + chunk))
  }

  /** The screendump is requested once the guest is done. */
  function RequestShot(s: State): (r: State)
    ensures r.machine == s.machine && SameGoals(s, r)
  {
    if s.goals.guest && !s.goals.shot && s.goals.request.None?
    then s.(goals := s.goals.(request := Some(REQUEST_ID))) else s
  }

  function ProcessSerial(p: Plan, s: State, chunk: Data, final: bool, hint: Hint): (r: State)
    requires Ok(p, s.machine)
    ensures Ok(p, r.machine) && SameGoals(s, r)
  {
    hide Ok, Advance, Hand, JudgePattern, JudgeMachine, RequestShot, Fail;
    if chunk == [] && !final then s
    else if p.config.None? then RequestShot(JudgePattern(p, Hand(s, chunk), chunk, hint))
    else if hint.failure then Fail(Hand(s, chunk))
    else RequestShot(JudgeMachine(Advance(p, Hand(s, chunk), SerialRuns.Chunk(chunk))))
  }

  /** End of file is noted; other chunks are logged. */
  function Count(s: State, chunk: Data): (r: State)
    ensures r.machine == s.machine && r.goals == s.goals && r.heard == s.heard
  {
    if chunk == [] then s.(io := s.io.(eof := true)) else s.(io := s.io.(logged := s.io.logged + |chunk|))
  }

  function DrainSerial(p: Plan, s: State, turns: seq<Turn>): (r: State)
    requires Ok(p, s.machine)
    ensures Ok(p, r.machine) && SameGoals(s, r)
    decreases |turns|
  {
    if s.io.eof || turns == [] || s.outcome.Some? then s
    else
      hide ProcessSerial, Stopped, Ok, Fail, Count;
      match turns[0]
      case Expired => Fail(Stopped(p, s, SerialRuns.Deadline))
      case Got(chunk, hint) =>
        var t := Count(s, chunk);
        if chunk != [] && t.io.logged > MAX_SERIAL_LOG_BYTES then Fail(t)
        else DrainSerial(p, ProcessSerial(p, t, chunk, chunk == [], hint), turns[1..])
  }

  // ----- QMP -----

  function HandleEvent(p: Plan, s: State, m: Message): (r: State)
    requires Ok(p, s.machine) && m.Event?
    ensures Ok(p, r.machine) && r.goals == s.goals && r.heard == s.heard
  {
    if p.config.None? then s
    else
      hide Advance, Ok, Fail;
      var r := Advance(p, s, SerialRuns.Qmp(m.name, m.guest, m.reason));
      if r.machine.outcome == Serial.Fail then Fail(r) else r
  }

  /** `validate_ppm_distinct_pixels` on the screendump file. */
  ghost predicate ImageOk(p: Plan, image: Option<Data>)
  {
    image.Some? && Ppm.Validate(image.value, p.minDistinct, MAX_PPM_BYTES, MAX_PPM_PIXELS).Some?
  }

  /** A reply whose id equals the request's counts as its answer; so does one without id while there
      is no request. */
  ghost function HandleReply(p: Plan, s: State, m: Message): (r: State)
    requires m.Reply?
    ensures r.machine == s.machine && HearsOnly(s, r, [m])
  {
    var t := s.(heard := s.heard + [Heard(s.goals.request, s.goals.guest, m)]);
    if m.id != s.goals.request then t
    else if m.error || !ImageOk(p, m.image) then Fail(t)
    else t.(goals := t.goals.(shot := true))
  }

  ghost function HandleMessage(p: Plan, s: State, m: Message): (r: State)
    requires Ok(p, s.machine)
    ensures Ok(p, r.machine) && HearsOnly(s, r, [m])
  {
    hide Ok, HandleEvent, HandleReply;
    if m.Event? then HandleEvent(p, s, m) else HandleReply(p, s, m)
  }

  /** Every complete line of the buffer is handled, even after a failure. */
  ghost function HandleMessages(p: Plan, s: State, ms: seq<Message>): (r: State)
    requires Ok(p, s.machine)
    ensures Ok(p, r.machine) && HearsOnly(s, r, ms)
    decreases |ms|
  {
    hide Ok, HandleMessage;
    if ms == [] then s else HandleMessages(p, HandleMessage(p, s, ms[0]), ms[1..])
  }

  /** The events queued while connecting; these stop at a failure. */
  function HandlePending(p: Plan, s: State, ms: seq<Message>): (r: State)
    requires Ok(p, s.machine)
    ensures Ok(p, r.machine) && r.goals == s.goals && r.heard == s.heard
    decreases |ms|
  {
    hide Ok, HandleEvent;
    if ms == [] then s
    else if ms[0].Reply? then HandlePending(p, s, ms[1..])
    else
      var r := HandleEvent(p, s, ms[0]);
      if p.config.Some? && r.machine.outcome == Serial.Fail then r else HandlePending(p, r, ms[1..])
  }

  /** The connection is gone while something is still to come over it. */
  function CloseQmp(s: State): (r: State)
    ensures r.machine == s.machine && r.goals == s.goals && r.heard == s.heard
  {
    if s.goals.guest && s.goals.shot then s else s.(io := s.io.(qmpClosed := true))
  }

  ghost function HandleInput(p: Plan, s: State, input: Input): (r: State)
    requires Ok(p, s.machine)
    ensures Ok(p, r.machine) && HearsOnly(s, r, if input.Received? then input.messages else [])
  {
    hide Ok, HandleMessages, CloseQmp;
    match input
    case Blocked => s
    case Closed => CloseQmp(s)
    case Received(ms) => HandleMessages(p, s, ms)
  }

  ghost function HandleKey(p: Plan, s: State, key: Key): (r: State)
    requires Ok(p, s.machine)
    ensures Ok(p, r.machine) && HearsOnly(s, r, MessagesOf(key))
  {
    hide Ok, DrainSerial, HandleInput;
    var d := DrainSerial(p, s, key.turns);
    if key.SerialKey? || d.outcome.Some? then d else HandleInput(p, d, key.input)
  }

  ghost function HandleKeys(p: Plan, s: State, keys: seq<Key>): (r: State)
    requires Ok(p, s.machine)
    ensures Ok(p, r.machine) && HearsKeys(s, r, keys)
    decreases |keys|
  {
    hide Ok, HandleKey;
    if keys == [] then s
    else
      var t := HandleKey(p, s, keys[0]);
      var r := HandleKeys(p, t, keys[1..]);
      HearsMore(s, t, r, keys);
      r
  }

  lemma {:induction false} HearsMore(s: State, t: State, r: State, keys: seq<Key>)
    requires keys != [] && HearsOnly(s, t, MessagesOf(keys[0])) && HearsKeys(t, r, keys[1..])
    ensures HearsKeys(s, r, keys)
  {
    hide MessagesOf;
    forall x | x in r.heard ensures x in s.heard || SaidIn(keys, x.reply) {
      if SaidIn(keys[1..], x.reply) {
        var i :| 0 <= i < |keys[1..]| && x.reply in MessagesOf(keys[1..][i]);
        assert keys[i + 1] == keys[1..][i];
      }
    }
  }

  /** Once there is a verdict the remaining keys change nothing, so breaking off is the same. */
  lemma {:induction false} KeysSettled(p: Plan, s: State, keys: seq<Key>)
    requires Ok(p, s.machine) && s.outcome.Some?
    ensures HandleKeys(p, s, keys) == s
    decreases |keys|
  {
    if keys != [] {
      assert DrainSerial(p, s, keys[0].turns) == s;
      hide Ok, DrainSerial, HandleInput;
      KeysSettled(p, s, keys[1..]);
    }
  }

  // ----- one iteration -----

  predicate Complete(s: State) { s.goals.guest && s.goals.shot && s.goals.companion }

  function PollCompanion(s: State, poll: Option<bool>): (r: State)
    ensures r.machine == s.machine && r.heard == s.heard && r.goals.exitAccepted == s.goals.exitAccepted
    ensures r.goals.companion ==> s.goals.companion || poll == Some(true)
  {
    if s.goals.companion || poll.None? then s
    else if poll.value then s.(goals := s.goals.(companion := true))
    else Fail(s)
  }

  function AcceptExit(p: Plan, s: State, code: int): (r: State)
    ensures r.machine == s.machine && r.heard == s.heard && r.goals.companion == s.goals.companion
    ensures r.goals.exitAccepted ==> s.goals.exitAccepted || code in p.accepted
  {
    if s.outcome.None? && code in p.accepted then s.(goals := s.goals.(guest := true, exitAccepted := true)) else s
  }

  /** The process has ended and its output is drained. */
  function FinishExit(p: Plan, s: State, code: int): (r: State)
    requires Ok(p, s.machine)
    ensures Ok(p, r.machine) && r.heard == s.heard && r.goals.companion == s.goals.companion
    ensures r.goals.exitAccepted ==> s.goals.exitAccepted || code in p.accepted
  {
    hide Ok, Stopped, Fail, Pass, AcceptExit;
    var t := AcceptExit(p, s, code);
    if t.outcome.Some? then t
    else if t.goals.guest && t.goals.shot then if t.goals.companion then Pass(t) else t
    else Fail(Stopped(p, t, SerialRuns.Exited))
  }

  function LoseQmp(s: State, lost: bool): (r: State)
    ensures r.machine == s.machine && r.goals == s.goals && r.heard == s.heard
  {
    if s.outcome.None? && s.io.qmpClosed && lost && !(s.goals.guest && s.goals.shot) then Fail(s) else s
  }

  function HandleExit(p: Plan, s: State, r: Round): (t: State)
    requires Ok(p, s.machine)
    ensures Ok(p, t.machine) && t.heard == s.heard && t.goals.companion == s.goals.companion
    ensures t.goals.exitAccepted ==> s.goals.exitAccepted || AcceptedExit(p, r)
  {
    hide Ok, DrainSerial, FinishExit, LoseQmp;
    if r.exit.None? || s.io.exitHandled then LoseQmp(s, r.lost)
    else
      var d := DrainSerial(p, s, r.exitTurns);
      if !d.io.eof then d
      else LoseQmp(FinishExit(p, d.(io := d.io.(exitHandled := true)), r.exit.value), r.lost)
  }

  function AfterEvents(p: Plan, s: State, r: Round): (t: State)
    requires Ok(p, s.machine)
    ensures Ok(p, t.machine) && t.heard == s.heard
    ensures t.goals.companion ==> s.goals.companion || r.poll == Some(true)
    ensures t.goals.exitAccepted ==> s.goals.exitAccepted || AcceptedExit(p, r)
  {
    hide HandleExit, Ok, PollCompanion, Pass;
    var c := PollCompanion(s, r.poll);
    if Complete(c) then Pass(c) else HandleExit(p, c, r)
  }

  function AfterKeys(p: Plan, s: State, r: Round): (t: State)
    requires Ok(p, s.machine)
    ensures Ok(p, t.machine) && t.heard == s.heard
    ensures t.goals.companion ==> s.goals.companion || r.poll == Some(true)
    ensures t.goals.exitAccepted ==> s.goals.exitAccepted || AcceptedExit(p, r)
  {
    hide AfterEvents, DrainSerial, HandlePending, Ok;
    if s.io.pending == [] then AfterEvents(p, s, r)
    else
      var d := DrainSerial(p, s, r.pendingTurns);
      if d.outcome.Some? then d
      else AfterEvents(p, HandlePending(p, d.(io := d.io.(pending := [])), d.io.pending), r)
  }

  ghost function Step(p: Plan, s: State, r: Round): (t: State)
    requires Ok(p, s.machine)
    ensures Ok(p, t.machine) && forall x :: x in t.heard ==> x in s.heard || SaidIn(r.keys, x.reply)
    ensures t.goals.companion ==> s.goals.companion || r.poll == Some(true)
    ensures t.goals.exitAccepted ==> s.goals.exitAccepted || AcceptedExit(p, r)
  {
    hide HandleKeys, AfterKeys, Ok, Stopped, Fail, SaidIn;
    if r.expired then Fail(Stopped(p, s, SerialRuns.Deadline))
    else
      var a := HandleKeys(p, s, r.keys);
      if a.outcome.Some? then a else AfterKeys(p, a, r)
  }

  /** `while outcome is None` */
  ghost function Run(p: Plan, s: State, rounds: seq<Round>): (t: State)
    requires Ok(p, s.machine)
    ensures Ok(p, t.machine)
    ensures forall x :: x in t.heard ==> x in s.heard || Said(rounds, x.reply)
    ensures t.goals.companion ==> s.goals.companion || exists r :: r in rounds && r.poll == Some(true)
    ensures t.goals.exitAccepted ==> s.goals.exitAccepted || exists r :: r in rounds && AcceptedExit(p, r)
    decreases |rounds|
  {
    hide Ok, Step, SaidIn;
    if rounds == [] || s.outcome.Some? then s
    else
      assert rounds[0] in rounds && forall r :: r in rounds[1..] ==> r in rounds;
      Run(p, Step(p, s, rounds[0]), rounds[1..])
  }

  /** The message arrives in one of the rounds. */
  predicate Said(rounds: seq<Round>, m: Message) { exists r :: r in rounds && SaidIn(r.keys, m) }

  // ----- what every run keeps -----

  /** The machine has seen exactly the recorded events. */
  ghost predicate Traced(p: Plan, m: Serial.State, trace: seq<SerialRuns.Event>)
  {
    Ok(p, m) && (p.config.Some? ==> m == SerialRuns.Run(p.config.value, trace))
  }

  /** Until a failure, what was handed on is what the machine saw, or what the forbidden scan found
      clean. */
  ghost predicate Scanned(p: Plan, trace: seq<SerialRuns.Event>, tail: Data, fed: Data)
  {
    if p.config.Some? then SerialRuns.Stream(trace) == fed
    else tail == Suffix(fed, Serial.Overlap(p.forbidden)) && !Serial.ContainsAny(p.forbidden, fed)
  }

  /** The guest counts as done only on evidence. */
  ghost predicate Evidence(p: Plan, s: State)
  {
    s.goals.guest ==>
      s.goals.exitAccepted || (if p.config.Some? then s.machine.outcome == Serial.Pass else s.goals.matched)
  }

  ghost predicate Flags(s: State)
  {
    (s.goals.exitAccepted ==> s.io.exitHandled) && (s.io.exitHandled ==> s.io.pending == [])
  }

  ghost predicate Verdicts(s: State)
  {
    (s.failed <==> s.outcome == Some(false)) && (s.outcome == Some(true) ==> Complete(s))
  }

  // ----- what every run keeps about the screendump -----

  /** The reply was taken for the answer, and its image is good. */
  ghost predicate Answers(p: Plan, x: Heard)
  {
    x.reply.Reply? && x.reply.id == x.request && !x.reply.error && ImageOk(p, x.reply.image)
  }

  /** A reply without id, handled while there was no request. */
  predicate Early(x: Heard) { x.reply.Reply? && x.reply.id.None? && x.request.None? }

  /** The good answer to the request, which was made after the guest was done. */
  ghost predicate Genuine(p: Plan, x: Heard) { Answers(p, x) && x.request == Some(REQUEST_ID) && x.guest }

  predicate Asked(request: Option<int>, guest: bool) { request.Some? ==> request == Some(REQUEST_ID) && guest }

  predicate NoneAsked(heard: seq<Heard>) { forall x :: x in heard ==> x.request.None? }

  ghost predicate Shots(p: Plan, g: Goals, heard: seq<Heard>, failed: bool)
  {
    && Asked(g.request, g.guest) && (forall x :: x in heard ==> Asked(x.request, x.guest))
    && (g.request.None? ==> NoneAsked(heard))
    && (g.shot && p.shotWanted ==> exists x :: x in heard && Answers(p, x))
    && (p.shotWanted && !failed && (exists x :: x in heard && Early(x)) ==> g.shot && g.request.None?)
  }

  lemma {:induction false} ShotsGuest(p: Plan, g: Goals, h: Goals, heard: seq<Heard>, failed: bool, failed': bool)
    requires Shots(p, g, heard, failed) && h.shot == g.shot && h.request == g.request && (g.guest ==> h.guest)
    requires failed ==> failed'
    ensures Shots(p, h, heard, failed')
  {
    hide Answers, Early, NoneAsked;
  }

  lemma {:induction false} ShotsRequest(p: Plan, g: Goals, heard: seq<Heard>, failed: bool)
    requires Shots(p, g, heard, failed) && g.guest && !g.shot && g.request.None?
    ensures Shots(p, g.(request := Some(REQUEST_ID)), heard, failed)
  {
    hide Answers, Early, NoneAsked;
  }

  lemma {:induction false} ShotsReply(p: Plan, s: State, m: Message)
    requires m.Reply? && Shots(p, s.goals, s.heard, s.failed)
    ensures var r := HandleReply(p, s, m); Shots(p, r.goals, r.heard, r.failed)
  {
    var x := Heard(s.goals.request, s.goals.guest, m);
    var good := m.id == s.goals.request && !m.error && ImageOk(p, m.image);
    var failed := s.failed || (m.id == s.goals.request && !good);
    var r := HandleReply(p, s, m);
    hide ImageOk;
    assert r.heard == s.heard + [x] && r.failed == failed;
    assert r.goals == if good then s.goals.(shot := true) else s.goals;
    assert good ==> Answers(p, x);
    hide HandleReply, Shots;
    ShotsHeard(p, s.goals, s.heard, s.failed, x, good, failed);
  }

  lemma {:induction false} ShotsHeard(
      p: Plan, g: Goals, heard: seq<Heard>, failed: bool, x: Heard, good: bool, failed': bool)
    requires Shots(p, g, heard, failed) && x.request == g.request && x.guest == g.guest && x.reply.Reply?
    requires good ==> Answers(p, x)
    requires failed' <==> failed || (x.reply.id == g.request && !good)
    ensures Shots(p, if good then g.(shot := true) else g, heard + [x], failed')
  {
    hide Answers;
    var all := heard + [x];
    assert x in all && forall y :: y in all <==> y in heard || y == x;
    if !good && g.shot && p.shotWanted {
      var y :| y in heard && Answers(p, y);
      assert y in all;
    }
    if !failed' && p.shotWanted && exists y :: y in all && Early(y) {
      var y :| y in all && Early(y);
      if y in heard { assert g.shot && g.request.None?; }
    }
  }

  ghost predicate Inv(p: Plan, s: State)
  {
    && Traced(p, s.machine, s.trace) && Evidence(p, s) && Flags(s) && Verdicts(s)
    && Shots(p, s.goals, s.heard, s.failed) && (!s.failed ==> Scanned(p, s.trace, s.tail, s.io.fed))
  }

  /** What the serial and QMP steps leave alone. */
  ghost predicate Keeps(s: State, r: State)
  {
    && r.io.pending == s.io.pending && r.io.exitHandled == s.io.exitHandled
    && r.goals.exitAccepted == s.goals.exitAccepted && r.goals.companion == s.goals.companion
    && (s.failed ==> r.failed) && r.outcome != Some(true)
  }

  lemma {:induction false} KeepsOn(s: State, t: State, r: State)
    requires Keeps(s, t) && Keeps(t, r)
    ensures Keeps(s, r)
  {
  }

  lemma {:induction false} MachineStep(p: Plan, m: Serial.State, trace: seq<SerialRuns.Event>, e: SerialRuns.Event)
    requires Traced(p, m, trace) && p.config.Some?
    ensures Ok(p, m) && Traced(p, SerialRuns.Step(p.config.value, m, e), trace + [e])
    ensures m.outcome != Serial.Running ==> SerialRuns.Step(p.config.value, m, e) == m
  {
    var c := p.config.value;
    hide SerialRuns.Step, Serial.ValidState, SerialRuns.Run, Serial.ValidConfig;
    SerialRuns.RunOneMore(c, trace, e);
    SerialRuns.StepKeepsValid(c, m, e);
    if m.outcome != Serial.Running { SerialRuns.TerminalStays(c, m, e); }
  }

  lemma {:induction false} TracedOk(p: Plan, s: State)
    requires Inv(p, s)
    ensures Ok(p, s.machine)
  {
    hide Ok, Shots, Scanned;
  }

  lemma {:induction false} FailInv(p: Plan, s: State)
    requires Inv(p, s) && s.outcome != Some(true)
    ensures Inv(p, Fail(s)) && Keeps(s, Fail(s)) && Fail(s).outcome == Some(false)
  {
    ShotsGuest(p, s.goals, s.goals, s.heard, s.failed, true);
    hide Traced, Shots, Scanned;
  }

  lemma {:induction false} EventStream(
      p: Plan, trace: seq<SerialRuns.Event>, tail: Data, fed: Data, e: SerialRuns.Event)
    requires Scanned(p, trace, tail, fed) && p.config.Some?
    ensures Scanned(p, trace + [e], tail, if e.Chunk? then fed + e.data else fed)
  {
    SerialRuns.OneMore(trace, e);
    hide SerialRuns.Stream, SerialRuns.Segments, SerialRuns.Orderly;
  }

  lemma {:induction false} AdvanceInv(p: Plan, s: State, e: SerialRuns.Event)
    requires Inv(p, s) && p.config.Some? && s.outcome != Some(true) && !e.Chunk?
    ensures Ok(p, s.machine) && Inv(p, Advance(p, s, e)) && Keeps(s, Advance(p, s, e))
    ensures Advance(p, s, e).outcome == s.outcome
  {
    TracedOk(p, s);
    MachineStep(p, s.machine, s.trace, e);
    if !s.failed { EventStream(p, s.trace, s.tail, s.io.fed, e); }
    hide Traced, Ok, SerialRuns.Step, Shots, Scanned;
  }

  lemma {:induction false} StoppedInv(p: Plan, s: State, e: SerialRuns.Event)
    requires Inv(p, s) && s.outcome != Some(true) && !e.Chunk?
    ensures Ok(p, s.machine) && Inv(p, Fail(Stopped(p, s, e))) && Keeps(s, Fail(Stopped(p, s, e)))
    ensures Fail(Stopped(p, s, e)).outcome == Some(false)
  {
    TracedOk(p, s);
    hide Inv, Advance, Ok, Fail;
    if p.config.Some? {
      AdvanceInv(p, s, e);
      FailInv(p, Advance(p, s, e));
      hide Keeps;
      KeepsOn(s, Advance(p, s, e), Fail(Advance(p, s, e)));
    } else {
      FailInv(p, s);
    }
  }

  // ----- serial data -----

  /** Handing a chunk to the machine. */
  lemma {:induction false} HandMachine(p: Plan, s: State, chunk: Data)
    requires Inv(p, s) && p.config.Some? && s.outcome.None?
    ensures Ok(p, s.machine)
    ensures var r := Advance(p, Hand(s, chunk), SerialRuns.Chunk(chunk));
            Inv(p, r) && Keeps(s, r) && r.outcome.None? && r.io.eof == s.io.eof && r.io.fed == s.io.fed + chunk
  {
    var e := SerialRuns.Chunk(chunk);
    TracedOk(p, s);
    MachineStep(p, s.machine, s.trace, e);
    if !s.failed { EventStream(p, s.trace, s.tail, s.io.fed, e); }
    hide Traced, Ok, SerialRuns.Step, Shots, Scanned;
  }

  lemma {:induction false} JudgeMachineInv(p: Plan, s: State)
    requires Inv(p, s) && s.outcome.None? && p.config.Some?
    ensures Inv(p, JudgeMachine(s)) && Keeps(s, JudgeMachine(s))
    ensures JudgeMachine(s).io == s.io
  {
    if s.machine.outcome == Serial.Fail {
      FailInv(p, s);
    } else {
      ShotsGuest(p, s.goals, s.goals.(guest := true), s.heard, s.failed, s.failed);
      hide Traced, Shots, Scanned, Fail;
      if s.machine.outcome == Serial.Pass {
        assert JudgeMachine(s) == s.(goals := s.goals.(guest := true));
      } else {
        assert JudgeMachine(s) == s;
      }
    }
  }

  /** A chunk that passes the forbidden scan keeps the whole stream clean. */
  lemma {:induction false} ScanStep(p: Plan, trace: seq<SerialRuns.Event>, tail: Data, fed: Data, chunk: Data)
    requires ValidPlan(p) && p.config.None? && Scanned(p, trace, tail, fed)
    requires !Serial.ContainsAny(p.forbidden, tail + chunk)
    ensures Scanned(p, trace, SerialScanners.NextTail(p.forbidden, tail, chunk), fed + chunk)
  {
    hide Serial.ContainsAny, Suffix, SerialScanners.NextTail, Serial.Overlap;
    SerialRuns.ForbiddenInWindow(p.forbidden, fed, chunk);
    SerialScanners.NextTailIsSuffix(p.forbidden, fed, chunk);
  }

  /** The state before the patterns are consulted. */
  lemma {:induction false} CleanInv(p: Plan, s: State, chunk: Data)
    requires Inv(p, s) && p.config.None? && s.outcome.None? && !Serial.ContainsAny(p.forbidden, s.tail + chunk)
    ensures var t := Hand(s, chunk).(tail := SerialScanners.NextTail(p.forbidden, s.tail, chunk));
            Inv(p, t) && Keeps(s, t)
  {
    ScanStep(p, s.trace, s.tail, s.io.fed, chunk);
    hide Shots, Scanned, Serial.ContainsAny, SerialScanners.NextTail;
  }

  lemma {:induction false} DirtyInv(p: Plan, s: State, chunk: Data)
    requires Inv(p, s) && s.outcome.None?
    ensures Inv(p, Fail(Hand(s, chunk))) && Keeps(s, Fail(Hand(s, chunk)))
    ensures Fail(Hand(s, chunk)).io == Hand(s, chunk).io
  {
    ShotsGuest(p, s.goals, s.goals, s.heard, s.failed, true);
    hide Traced, Shots, Scanned;
  }

  lemma {:induction false} MatchedInv(p: Plan, s: State)
    requires Inv(p, s) && s.outcome.None? && p.config.None?
    ensures var r := s.(goals := s.goals.(guest := true, matched := true)); Inv(p, r) && Keeps(s, r)
  {
    ShotsGuest(p, s.goals, s.goals.(guest := true, matched := true), s.heard, s.failed, s.failed);
    hide Traced, Shots, Scanned;
  }

  lemma {:induction false} JudgePatternInv(p: Plan, s: State, chunk: Data, hint: Hint)
    requires Inv(p, s) && s.outcome.None? && p.config.None?
    ensures var r := JudgePattern(p, Hand(s, chunk), chunk, hint);
            Inv(p, r) && Keeps(s, r) && r.io == Hand(s, chunk).io
  {
    var h := Hand(s, chunk);
    var t := h.(tail := SerialScanners.NextTail(p.forbidden, s.tail, chunk));
    hide Inv, Keeps, SerialScanners.NextTail, Serial.ContainsAny;
    if Serial.ContainsAny(p.forbidden, s.tail + chunk) {
      DirtyInv(p, s, chunk);
    } else {
      CleanInv(p, s, chunk);
      if hint.failure {
        FailInv(p, t);
        KeepsOn(s, t, Fail(t));
      } else if hint.success {
        MatchedInv(p, t);
        KeepsOn(s, t, t.(goals := t.goals.(guest := true, matched := true)));
      }
    }
  }

  lemma {:induction false} RequestInv(p: Plan, s: State)
    requires Inv(p, s) && s.outcome != Some(true)
    ensures Inv(p, RequestShot(s)) && Keeps(s, RequestShot(s)) && RequestShot(s).io == s.io
  {
    if s.goals.guest && !s.goals.shot && s.goals.request.None? { ShotsRequest(p, s.goals, s.heard, s.failed); }
    hide Traced, Shots, Scanned;
  }

  lemma {:induction false} ProcessInv(p: Plan, s: State, chunk: Data, final: bool, hint: Hint)
    requires Inv(p, s) && s.outcome.None?
    ensures Ok(p, s.machine)
    ensures var r := ProcessSerial(p, s, chunk, final, hint);
            Inv(p, r) && Keeps(s, r) && r.io.eof == s.io.eof && r.io.fed == s.io.fed + chunk
  {
    TracedOk(p, s);
    hide Inv, Ok, JudgePattern, JudgeMachine, RequestShot, Fail, Advance;
    if chunk == [] && !final {
      assert s.io.fed + [] == s.io.fed;
    } else if p.config.None? {
      var j := JudgePattern(p, Hand(s, chunk), chunk, hint);
      JudgePatternInv(p, s, chunk, hint);
      RequestInv(p, j);
      hide Keeps;
      KeepsOn(s, j, RequestShot(j));
    } else if hint.failure {
      DirtyInv(p, s, chunk);
    } else {
      var a := Advance(p, Hand(s, chunk), SerialRuns.Chunk(chunk));
      HandMachine(p, s, chunk);
      JudgeMachineInv(p, a);
      RequestInv(p, JudgeMachine(a));
      hide Hand, Keeps;
      KeepsOn(s, a, JudgeMachine(a));
      KeepsOn(s, JudgeMachine(a), RequestShot(JudgeMachine(a)));
    }
  }

  /** The bytes of a list of reads. */
  function BytesOf(turns: seq<Turn>): Data
  {
    if turns == [] then []
    else if turns[0].Expired? || turns[0].chunk == [] then []
    else turns[0].chunk + BytesOf(turns[1..])
  }

  lemma {:induction false} CountInv(p: Plan, s: State, chunk: Data)
    requires Inv(p, s) && s.outcome.None?
    ensures Inv(p, Count(s, chunk)) && Keeps(s, Count(s, chunk))
    ensures Count(s, chunk).outcome.None? && Count(s, chunk).io.fed == s.io.fed
    ensures Count(s, chunk).io.eof == (s.io.eof || chunk == [])
  {
    hide Traced, Shots, Scanned;
  }

  /** One chunk off the pipe. */
  function TakeChunk(p: Plan, s: State, chunk: Data, hint: Hint): (r: State)
    requires Ok(p, s.machine)
    ensures Ok(p, r.machine)
  {
    hide Ok, ProcessSerial, Fail, Count;
    var t := Count(s, chunk);
    if chunk != [] && t.io.logged > MAX_SERIAL_LOG_BYTES then Fail(t) else ProcessSerial(p, t, chunk, chunk == [], hint)
  }

  lemma {:induction false} TakeInv(p: Plan, s: State, chunk: Data, hint: Hint)
    requires Inv(p, s) && s.outcome.None? && !s.io.eof
    ensures Ok(p, s.machine)
    ensures var r := TakeChunk(p, s, chunk, hint);
            && Inv(p, r) && Keeps(s, r)
            && (r.outcome.None? ==> r.io.eof == (chunk == []) && r.io.fed == s.io.fed + chunk)
  {
    TracedOk(p, s);
    hide Inv, Ok, ProcessSerial, Fail, Count, Keeps;
    var t := Count(s, chunk);
    CountInv(p, s, chunk);
    if chunk != [] && t.io.logged > MAX_SERIAL_LOG_BYTES {
      FailInv(p, t);
      KeepsOn(s, t, Fail(t));
    } else {
      ProcessInv(p, t, chunk, chunk == [], hint);
      KeepsOn(s, t, ProcessSerial(p, t, chunk, chunk == [], hint));
    }
  }

  lemma {:induction false} DrainUnfolds(p: Plan, s: State, turns: seq<Turn>)
    requires Ok(p, s.machine) && turns != [] && turns[0].Got? && !s.io.eof && s.outcome.None?
    ensures var r := TakeChunk(p, s, turns[0].chunk, turns[0].hint);
            && DrainSerial(p, s, turns) == DrainSerial(p, r, turns[1..])
            && (r.outcome.Some? ==> DrainSerial(p, s, turns) == r)
  {
    var r := TakeChunk(p, s, turns[0].chunk, turns[0].hint);
    hide Ok, ProcessSerial, Count, Stopped;
    if r.outcome.Some? { DrainStops(p, r, turns[1..]); }
  }

  lemma {:induction false} DrainExpires(p: Plan, s: State, turns: seq<Turn>)
    requires Ok(p, s.machine) && turns != [] && turns[0].Expired? && !s.io.eof && s.outcome.None?
    ensures DrainSerial(p, s, turns) == Fail(Stopped(p, s, SerialRuns.Deadline))
  {
    hide Ok, ProcessSerial, Stopped, Fail;
  }

  lemma {:induction false} DrainStops(p: Plan, s: State, turns: seq<Turn>)
    requires Ok(p, s.machine) && (s.io.eof || turns == [] || s.outcome.Some?)
    ensures DrainSerial(p, s, turns) == s
  {
  }

  /** Draining feeds every byte it reads, unless there is a verdict. */
  lemma {:induction false} DrainInv(p: Plan, s: State, turns: seq<Turn>)
    requires Inv(p, s) && s.outcome != Some(true)
    ensures Ok(p, s.machine)
    ensures var r := DrainSerial(p, s, turns);
            Inv(p, r) && Keeps(s, r) && (r.outcome.None? && !s.io.eof ==> r.io.fed == s.io.fed + BytesOf(turns))
    decreases |turns|
  {
    TracedOk(p, s);
    hide Inv, Ok, TakeChunk, Stopped, Fail;
    if s.io.eof || turns == [] || s.outcome.Some? {
      DrainStops(p, s, turns);
      assert turns == [] ==> s.io.fed + [] == s.io.fed;
    } else if turns[0].Expired? {
      StoppedInv(p, s, SerialRuns.Deadline);
      hide ProcessSerial;
    } else {
      var chunk, rest := turns[0].chunk, turns[1..];
      var r := TakeChunk(p, s, chunk, turns[0].hint);
      DrainUnfolds(p, s, turns);
      TakeInv(p, s, chunk, turns[0].hint);
      hide Keeps, DrainSerial;
      if r.outcome.None? {
        DrainInv(p, r, rest);
        KeepsOn(s, r, DrainSerial(p, r, rest));
        if chunk == [] {
          DrainStops(p, r, rest);
        } else {
          BytesAssoc(s.io.fed, chunk, BytesOf(rest));
        }
      }
    }
  }

  lemma {:induction false} BytesAssoc(a: Data, b: Data, c: Data)
    ensures a + b + c == a + (b + c)
  {
  }

  // ----- QMP -----

  lemma {:induction false} EventInv(p: Plan, s: State, m: Message)
    requires Inv(p, s) && s.outcome != Some(true) && m.Event?
    ensures Ok(p, s.machine)
    ensures var r := HandleEvent(p, s, m);
            Inv(p, r) && Keeps(s, r) && (p.config.Some? && r.machine.outcome != Serial.Fail ==> r.outcome == s.outcome)
            && (p.config.None? ==> r == s)
  {
    TracedOk(p, s);
    hide Inv, Ok, Advance, Fail;
    if p.config.Some? {
      var e := SerialRuns.Qmp(m.name, m.guest, m.reason);
      AdvanceInv(p, s, e);
      FailInv(p, Advance(p, s, e));
      hide Keeps;
      KeepsOn(s, Advance(p, s, e), Fail(Advance(p, s, e)));
    }
  }

  lemma {:induction false} ReplyInv(p: Plan, s: State, m: Message)
    requires Inv(p, s) && s.outcome != Some(true) && m.Reply?
    ensures Inv(p, HandleReply(p, s, m)) && Keeps(s, HandleReply(p, s, m))
  {
    ShotsReply(p, s, m);
    hide Traced, Shots, Scanned, ImageOk;
  }

  lemma {:induction false} MessageInv(p: Plan, s: State, m: Message)
    requires Inv(p, s) && s.outcome != Some(true)
    ensures Ok(p, s.machine) && Inv(p, HandleMessage(p, s, m)) && Keeps(s, HandleMessage(p, s, m))
  {
    TracedOk(p, s);
    hide Inv, Ok, HandleEvent, HandleReply;
    if m.Event? { EventInv(p, s, m); } else { ReplyInv(p, s, m); }
  }

  lemma {:induction false} MessagesInv(p: Plan, s: State, ms: seq<Message>)
    requires Inv(p, s) && s.outcome != Some(true)
    ensures Ok(p, s.machine) && Inv(p, HandleMessages(p, s, ms)) && Keeps(s, HandleMessages(p, s, ms))
    decreases |ms|
  {
    TracedOk(p, s);
    hide Inv, Ok, HandleMessage;
    if ms != [] {
      var t := HandleMessage(p, s, ms[0]);
      MessageInv(p, s, ms[0]);
      MessagesInv(p, t, ms[1..]);
      hide Keeps;
      KeepsOn(s, t, HandleMessages(p, t, ms[1..]));
    }
  }

  /** A queued event can only fail a guest that is not done. */
  lemma {:induction false} PendingInv(p: Plan, s: State, ms: seq<Message>)
    requires Inv(p, s) && s.outcome.None? && !s.io.exitHandled
    ensures Ok(p, s.machine)
    ensures var r := HandlePending(p, s, ms); Inv(p, r) && Keeps(s, r) && (r.failed ==> !r.goals.guest)
    decreases |ms|
  {
    TracedOk(p, s);
    NotFailed(p, s);
    hide Inv, Ok, HandleEvent;
    if ms != [] {
      if ms[0].Reply? {
        PendingInv(p, s, ms[1..]);
      } else {
        EventInv(p, s, ms[0]);
        var r := HandleEvent(p, s, ms[0]);
        if p.config.Some? && r.machine.outcome == Serial.Fail {
          GuestNotDone(p, r);
        } else {
          PendingInv(p, r, ms[1..]);
        }
      }
    }
  }

  lemma {:induction false} NotFailed(p: Plan, s: State)
    requires Inv(p, s) && s.outcome.None?
    ensures !s.failed
  {
    hide Traced, Shots, Scanned;
  }

  lemma {:induction false} GuestNotDone(p: Plan, s: State)
    requires Inv(p, s) && !s.io.exitHandled && p.config.Some? && s.machine.outcome == Serial.Fail
    ensures !s.goals.guest
  {
    hide Traced, Shots, Scanned;
  }

  lemma {:induction false} CloseInv(p: Plan, s: State)
    requires Inv(p, s) && s.outcome != Some(true)
    ensures Inv(p, CloseQmp(s)) && Keeps(s, CloseQmp(s))
  {
    hide Traced, Shots, Scanned;
  }

  lemma {:induction false} InputInv(p: Plan, s: State, input: Input)
    requires Inv(p, s) && s.outcome.None?
    ensures Ok(p, s.machine) && Inv(p, HandleInput(p, s, input)) && Keeps(s, HandleInput(p, s, input))
  {
    TracedOk(p, s);
    hide Inv, Ok, HandleMessages, CloseQmp;
    if input.Received? { MessagesInv(p, s, input.messages); }
    CloseInv(p, s);
  }

  lemma {:induction false} KeyInv(p: Plan, s: State, key: Key)
    requires Inv(p, s) && s.outcome != Some(true)
    ensures Ok(p, s.machine) && Inv(p, HandleKey(p, s, key)) && Keeps(s, HandleKey(p, s, key))
  {
    TracedOk(p, s);
    hide Inv, Ok, DrainSerial, HandleInput;
    DrainInv(p, s, key.turns);
    var d := DrainSerial(p, s, key.turns);
    if key.QmpKey? && d.outcome.None? {
      InputInv(p, d, key.input);
      hide Keeps;
      KeepsOn(s, d, HandleInput(p, d, key.input));
    }
  }

  lemma {:induction false} KeysInv(p: Plan, s: State, keys: seq<Key>)
    requires Inv(p, s) && s.outcome != Some(true)
    ensures Ok(p, s.machine) && Inv(p, HandleKeys(p, s, keys)) && Keeps(s, HandleKeys(p, s, keys))
    decreases |keys|
  {
    TracedOk(p, s);
    hide Inv, Ok, HandleKey, HearsKeys, HearsOnly;
    if keys != [] {
      var t := HandleKey(p, s, keys[0]);
      KeyInv(p, s, keys[0]);
      KeysInv(p, t, keys[1..]);
      hide Keeps;
      KeepsOn(s, t, HandleKeys(p, t, keys[1..]));
    }
  }

  // ----- one iteration -----

  lemma {:induction false} PollInv(p: Plan, s: State, poll: Option<bool>)
    requires Inv(p, s) && s.outcome != Some(true) && (s.failed ==> !s.goals.guest)
    ensures var c := PollCompanion(s, poll);
            && Inv(p, c) && c.io == s.io && c.outcome != Some(true) && (s.failed ==> c.failed)
            && (c.failed ==> !Complete(c))
  {
    if !s.goals.companion && poll == Some(false) {
      FailInv(p, s);
      hide Inv;
    } else {
      ShotsGuest(p, s.goals, s.goals.(companion := true), s.heard, s.failed, s.failed);
      hide Traced, Shots, Scanned, Fail;
      assert PollCompanion(s, poll) == s || PollCompanion(s, poll) == s.(goals := s.goals.(companion := true));
    }
  }

  lemma {:induction false} PassInv(p: Plan, s: State)
    requires Inv(p, s) && s.outcome.None? && Complete(s)
    ensures Inv(p, Pass(s)) && !Pass(s).failed
  {
    hide Traced, Shots, Scanned;
  }

  lemma {:induction false} AcceptInv(p: Plan, s: State, code: int)
    requires Inv(p, s) && s.outcome != Some(true) && s.io.exitHandled
    ensures var t := AcceptExit(p, s, code); Inv(p, t) && t.outcome == s.outcome && t.failed == s.failed
  {
    ShotsGuest(p, s.goals, s.goals.(guest := true, exitAccepted := true), s.heard, s.failed, s.failed);
    hide Traced, Shots, Scanned;
    var t := AcceptExit(p, s, code);
    assert t == s || t == s.(goals := s.goals.(guest := true, exitAccepted := true));
  }

  lemma {:induction false} ExitInv(p: Plan, s: State, code: int)
    requires Inv(p, s) && s.outcome != Some(true) && s.io.exitHandled
    ensures Ok(p, s.machine) && Inv(p, FinishExit(p, s, code)) && (s.failed ==> FinishExit(p, s, code).failed)
  {
    TracedOk(p, s);
    var t := AcceptExit(p, s, code);
    AcceptInv(p, s, code);
    hide Inv, Ok, Stopped, AcceptExit, Fail;
    if t.outcome.None? {
      NotFailed(p, t);
      if t.goals.guest && t.goals.shot {
        if t.goals.companion { PassInv(p, t); }
      } else {
        StoppedInv(p, t, SerialRuns.Exited);
      }
    }
  }

  lemma {:induction false} LoseInv(p: Plan, s: State, lost: bool)
    requires Inv(p, s)
    ensures Inv(p, LoseQmp(s, lost)) && (s.failed ==> LoseQmp(s, lost).failed)
  {
    hide Inv, Fail;
    if s.outcome.None? { FailInv(p, s); }
  }

  lemma {:induction false} MarkInv(p: Plan, s: State)
    requires Inv(p, s) && s.io.pending == []
    ensures Inv(p, s.(io := s.io.(exitHandled := true)))
  {
    hide Traced, Shots, Scanned;
  }

  lemma {:induction false} HandleExitInv(p: Plan, s: State, r: Round)
    requires Inv(p, s) && s.outcome != Some(true) && s.io.pending == []
    ensures Ok(p, s.machine) && Inv(p, HandleExit(p, s, r)) && (s.failed ==> HandleExit(p, s, r).failed)
  {
    TracedOk(p, s);
    hide Inv, Ok, DrainSerial, FinishExit, LoseQmp;
    if r.exit.None? || s.io.exitHandled {
      LoseInv(p, s, r.lost);
    } else {
      DrainInv(p, s, r.exitTurns);
      var d := DrainSerial(p, s, r.exitTurns);
      MarkInv(p, d);
      if d.io.eof {
        var e := d.(io := d.io.(exitHandled := true));
        hide Keeps;
        ExitInv(p, e, r.exit.value);
        LoseInv(p, FinishExit(p, e, r.exit.value), r.lost);
      }
    }
  }

  lemma {:induction false} NoVerdict(p: Plan, s: State)
    requires Inv(p, s) && !s.failed && s.outcome != Some(true)
    ensures s.outcome.None?
  {
    hide Traced, Shots, Scanned;
    match s.outcome {
      case None =>
      case Some(b) => if b {}
    }
  }

  lemma {:induction false} AfterEventsInv(p: Plan, s: State, r: Round)
    requires Inv(p, s) && s.outcome != Some(true) && s.io.pending == [] && (s.failed ==> !s.goals.guest)
    ensures Ok(p, s.machine) && Inv(p, AfterEvents(p, s, r)) && (s.failed ==> AfterEvents(p, s, r).failed)
  {
    TracedOk(p, s);
    PollInv(p, s, r.poll);
    var c := PollCompanion(s, r.poll);
    hide Inv, Ok, PollCompanion, HandleExit, Pass;
    if Complete(c) {
      NoVerdict(p, c);
      PassInv(p, c);
    } else {
      HandleExitInv(p, c, r);
    }
  }

  lemma {:induction false} TakePendingInv(p: Plan, s: State)
    requires Inv(p, s) && s.io.pending != []
    ensures Inv(p, s.(io := s.io.(pending := []))) && !s.io.exitHandled
  {
    hide Traced, Shots, Scanned;
  }

  lemma {:induction false} AfterKeysInv(p: Plan, s: State, r: Round)
    requires Inv(p, s) && s.outcome.None?
    ensures Ok(p, s.machine) && Inv(p, AfterKeys(p, s, r))
  {
    TracedOk(p, s);
    NotFailed(p, s);
    hide Inv, Ok, AfterEvents, DrainSerial, HandlePending;
    if s.io.pending == [] {
      AfterEventsInv(p, s, r);
    } else {
      DrainInv(p, s, r.pendingTurns);
      var d := DrainSerial(p, s, r.pendingTurns);
      if d.outcome.None? {
        var e := d.(io := d.io.(pending := []));
        TakePendingInv(p, d);
        PendingInv(p, e, d.io.pending);
        AfterEventsInv(p, HandlePending(p, e, d.io.pending), r);
      }
    }
  }

  lemma {:induction false} StepInv(p: Plan, s: State, r: Round)
    requires Inv(p, s) && s.outcome.None?
    ensures Ok(p, s.machine) && Inv(p, Step(p, s, r))
  {
    TracedOk(p, s);
    hide Inv, Ok, HandleKeys, AfterKeys, Stopped, Fail, SaidIn, HearsKeys;
    if r.expired {
      StoppedInv(p, s, SerialRuns.Deadline);
    } else {
      KeysInv(p, s, r.keys);
      var a := HandleKeys(p, s, r.keys);
      if a.outcome.None? { AfterKeysInv(p, a, r); }
    }
  }

  lemma {:induction false} RunInv(p: Plan, s: State, rounds: seq<Round>)
    requires Inv(p, s)
    ensures Ok(p, s.machine) && Inv(p, Run(p, s, rounds))
    decreases |rounds|
  {
    TracedOk(p, s);
    hide Inv, Ok, Step, SaidIn;
    if rounds != [] && s.outcome.None? {
      StepInv(p, s, rounds[0]);
      RunInv(p, Step(p, s, rounds[0]), rounds[1..]);
    }
  }

  // ----- the main results -----

  lemma {:induction false} NothingForbidden(p: Plan)
    requires ValidPlan(p)
    ensures Scanned(p, [], [], [])
  {
    if p.config.None? {
      SerialRuns.EmptyStreamIsClean(p.forbidden);
      SerialRuns.SuffixOfNothing(Serial.Overlap(p.forbidden));
      hide Serial.ContainsAny, Suffix;
    }
  }

  lemma {:induction false} StartInv(p: Plan, pending: seq<Message>)
    requires ValidPlan(p)
    ensures Inv(p, Start(p, pending))
  {
    if p.config.Some? { SerialRuns.InitialIsValid(p.config.value); }
    NothingForbidden(p);
    hide Serial.ValidState, Scanned, ImageOk;
  }

  /** The replies of a passing run: there is a genuine one exactly when none came early. */
  lemma {:induction false} ShotIsGenuine(p: Plan, g: Goals, heard: seq<Heard>)
    requires Shots(p, g, heard, false) && g.shot && p.shotWanted
    ensures (exists x :: x in heard && Genuine(p, x)) <==> !exists x :: x in heard && Early(x)
  {
    hide ImageOk;
    var x :| x in heard && Answers(p, x);
    if !exists y :: y in heard && Early(y) {
      assert x.request.Some? && Asked(x.request, x.guest);
      assert Genuine(p, x);
    }
  }

  /** A passing run recorded no failure, and its guest completed: by its assertions, by its success
      pattern, or by an accepted exit status.  The assertions held of the very bytes handed on; in
      pattern mode those bytes hold no forbidden marker. */
  lemma {:induction false} PassIsEarned(p: Plan, pending: seq<Message>, rounds: seq<Round>)
    requires ValidPlan(p)
    ensures Ok(p, Serial.INITIAL)
    ensures var s := Run(p, Start(p, pending), rounds);
            s.outcome == Some(true) ==>
              && !s.failed
              && (|| (exists r :: r in rounds && AcceptedExit(p, r))
                  || (if p.config.Some? then SerialRuns.AcceptedBy(p.config.value, s.trace) else s.goals.matched))
              && (if p.config.Some? then SerialRuns.Stream(s.trace) == s.io.fed
                  else !Serial.ContainsAny(p.forbidden, s.io.fed))
              && (p.companionWanted ==> exists r :: r in rounds && r.poll == Some(true))
  {
    var start := Start(p, pending);
    StartInv(p, pending);
    TracedOk(p, start);
    RunInv(p, start, rounds);
    var s := Run(p, start, rounds);
    hide Run, SerialRuns.AcceptedBy, SerialRuns.Run, AcceptedExit, Ok, Shots, Serial.ContainsAny, SerialRuns.Stream;
    if s.outcome == Some(true) && p.config.Some? { SerialRuns.RunIsSound(p.config.value, s.trace); }
  }

  /** If a screendump is wanted, a passing run has the good answer to a request that was made after
      the guest was done, if and only if no reply without id was handled before a request.  The
      replies meant here all arrived in the run. */
  lemma {:induction false} ScreendumpIsEarned(p: Plan, pending: seq<Message>, rounds: seq<Round>)
    requires ValidPlan(p) && p.shotWanted
    ensures Ok(p, Serial.INITIAL)
    ensures var s := Run(p, Start(p, pending), rounds);
            s.outcome == Some(true) ==>
              && ((exists x :: x in s.heard && Genuine(p, x)) <==> !exists x :: x in s.heard && Early(x))
              && (forall x :: x in s.heard ==> Said(rounds, x.reply))
  {
    var start := Start(p, pending);
    StartInv(p, pending);
    TracedOk(p, start);
    RunInv(p, start, rounds);
    var s := Run(p, start, rounds);
    hide Run, Ok, Traced, Scanned, Genuine, Early, Shots, Said;
    if s.outcome == Some(true) { ShotIsGenuine(p, s.goals, s.heard); }
  }

  /** In particular, where every reply carries an id the screendump is always genuine. */
  lemma {:induction false} IdsMakeItGenuine(p: Plan, pending: seq<Message>, rounds: seq<Round>)
    requires ValidPlan(p) && p.shotWanted && forall m: Message :: Said(rounds, m) && m.Reply? ==> m.id.Some?
    ensures Ok(p, Serial.INITIAL)
    ensures var s := Run(p, Start(p, pending), rounds);
            s.outcome == Some(true) ==> exists x :: x in s.heard && Genuine(p, x)
  {
    hide Run, Ok, Genuine, Said;
    ScreendumpIsEarned(p, pending, rounds);
  }

  /** A recorded failure is final. */
  lemma {:induction false} FailureIsFinal(p: Plan, pending: seq<Message>, rounds: seq<Round>, more: seq<Round>)
    requires ValidPlan(p)
    ensures Ok(p, Serial.INITIAL)
    ensures var s := Run(p, Start(p, pending), rounds);
            s.failed ==> s.outcome == Some(false) && Run(p, s, more) == s
  {
    var start := Start(p, pending);
    StartInv(p, pending);
    TracedOk(p, start);
    RunInv(p, start, rounds);
    hide Ok, Step, Traced, Shots, Scanned, SaidIn;
  }

  /** When the selector reports QMP, every serial byte then in the pipe has been handed on before any
      message is handled, unless there is a verdict and no message is handled at all. */
  lemma {:induction false} SerialBeforeQmp(p: Plan, s: State, turns: seq<Turn>, input: Input, pipe: Data)
    requires Inv(p, s) && s.outcome != Some(true) && !s.io.eof && pipe <= BytesOf(turns)
    ensures Ok(p, s.machine)
    ensures var d := DrainSerial(p, s, turns);
            if d.outcome.Some? then HandleKey(p, s, QmpKey(turns, input)) == d
            else s.io.fed + pipe <= d.io.fed && HandleKey(p, s, QmpKey(turns, input)) == HandleInput(p, d, input)
  {
    TracedOk(p, s);
    DrainInv(p, s, turns);
    hide Inv, Ok, DrainSerial, HandleInput, BytesOf, HearsOnly;
  }

  // ----- the early reply -----

  /** A reply without id, and an image that happens to be in the screendump file. */
  function EarlyRound(image: Data): Round
  {
    Round(false, [QmpKey([], Received([Reply(None, false, Some(image))]))], [], Some(true), None, [], false)
  }

  /** The process exits with an accepted status and its output ends. */
  function ExitRound(code: int): Round
  {
    Round(false, [], [], Some(true), Some(code), [Got([], Hint(false, false))], false)
  }

  /** The state after the early reply. */
  function Unasked(p: Plan, image: Data): State
  {
    State(Serial.INITIAL, [], Goals(false, None, true, true, false, false), Io(false, 0, [], false, false, []), None,
          [], [Heard(None, false, Reply(None, false, Some(image)))], false)
  }

  lemma {:induction false} EarlyStep(p: Plan, image: Data)
    requires ValidPlan(p) && Ok(p, Serial.INITIAL) && p.shotWanted && ImageOk(p, Some(image))
    ensures Step(p, Start(p, []), EarlyRound(image)) == Unasked(p, image)
  {
    hide Ok, ImageOk, Advance;
    var s, m := Start(p, []), Reply(None, false, Some(image));
    var key := EarlyRound(image).keys[0];
    assert DrainSerial(p, s, []) == s;
    var t := HandleReply(p, s, m);
    assert t == s.(heard := [Heard(None, false, m)], goals := s.goals.(shot := true));
    assert HandleMessages(p, s, [m]) == t by { assert [m][1..] == []; assert HandleMessages(p, t, []) == t; }
    assert HandleKey(p, s, key) == t;
    assert HandleKeys(p, s, [key]) == t by { assert [key][1..] == []; assert HandleKeys(p, t, []) == t; }
    assert AfterKeys(p, t, EarlyRound(image)) == Unasked(p, image);
  }

  lemma {:induction false} QuietEof(p: Plan, s: State)
    requires ValidPlan(p) && Ok(p, s.machine) && s.machine == Serial.INITIAL && s.tail == [] && !s.goals.guest
    ensures var r := ProcessSerial(p, s, [], true, Hint(false, false));
            r.goals == s.goals && r.outcome == s.outcome && r.io == s.io && r.failed == s.failed && r.heard == s.heard
  {
    assert s.io.fed + [] == s.io.fed;
    if p.config.None? {
      SerialRuns.EmptyStreamIsClean(p.forbidden);
      hide Serial.ContainsAny, SerialScanners.NextTail, Ok, Advance, JudgeMachine;
      assert Hand(s, []) == s && s.tail + [] == [];
    } else {
      hide Ok, Advance, JudgePattern;
      assert Hand(s, []) == s;
      NothingFed(p, s);
    }
  }

  lemma {:induction false} NothingFed(p: Plan, s: State)
    requires Ok(p, s.machine) && p.config.Some? && s.machine == Serial.INITIAL
    ensures var r := Advance(p, s, SerialRuns.Chunk([]));
            r.machine == s.machine && r.goals == s.goals && r.outcome == s.outcome && r.io == s.io
            && r.failed == s.failed && r.heard == s.heard
  {
    hide Serial.ContainsAny, Serial.MatchMarkers, Ok;
  }

  lemma {:induction false} ExitStep(p: Plan, s: State, code: int)
    requires ValidPlan(p) && Ok(p, s.machine) && s.machine == Serial.INITIAL && s.tail == [] && code in p.accepted
    requires s.goals == Goals(false, None, true, true, false, false) && s.outcome.None?
    requires s.io == Io(false, 0, [], false, false, [])
    ensures var r := Step(p, s, ExitRound(code));
            r.outcome == Some(true) && r.goals.request.None? && r.heard == s.heard
  {
    var t, turns := Count(s, []), ExitRound(code).exitTurns;
    QuietEof(p, t);
    hide Ok, ProcessSerial;
    var d := ProcessSerial(p, t, [], true, Hint(false, false));
    assert turns[1..] == [];
    assert DrainSerial(p, d, []) == d;
    assert DrainSerial(p, s, turns) == d;
    hide DrainSerial;
    assert HandleKeys(p, s, []) == s;
    assert HandleExit(p, s, ExitRound(code)).outcome == Some(true);
  }

  /** The quirk is real: under every plan that wants a screendump and accepts some exit status, a reply
      without id that arrives first makes the run pass although no screendump was ever requested. */
  lemma {:induction false} EarlyReplyPasses(p: Plan, code: int, image: Data) returns (rounds: seq<Round>)
    requires ValidPlan(p) && p.shotWanted && code in p.accepted && ImageOk(p, Some(image))
    ensures Ok(p, Serial.INITIAL)
    ensures var s := Run(p, Start(p, []), rounds);
            s.outcome == Some(true) && s.goals.request.None? && !exists x :: x in s.heard && Genuine(p, x)
  {
    var start, late := Start(p, []), Unasked(p, image);
    StartInv(p, []);
    TracedOk(p, start);
    StartsOpen(p);
    EarlyStep(p, image);
    ExitStep(p, late, code);
    hide Ok, Step, SaidIn, Inv, ImageOk, Run, Start, EarlyRound, ExitRound;
    rounds := [EarlyRound(image), ExitRound(code)];
    TwoRounds(p, start, EarlyRound(image), ExitRound(code));
  }

  lemma {:induction false} StartsOpen(p: Plan)
    ensures Start(p, []).outcome.None?
  {
  }

  lemma {:induction false} TwoRounds(p: Plan, s: State, a: Round, b: Round)
    requires Ok(p, s.machine) && s.outcome.None? && Step(p, s, a).outcome.None?
    ensures Run(p, s, [a, b]) == Step(p, Step(p, s, a), b)
  {
    hide Ok, Step, SaidIn;
    var t := Step(p, s, a);
    var u := Step(p, t, b);
    assert [a, b][1..] == [b] && [b][1..] == [];
    assert Run(p, u, []) == u;
    assert Run(p, t, [b]) == u;
  }

  /** An instance: the default threshold, exit status 0, and a picture of two pixels. */
  lemma {:induction false} EarlyReplyExample() returns (p: Plan, rounds: seq<Round>)
    ensures Ok(p, Serial.INITIAL) && p.shotWanted && p.minDistinct == 2
    ensures var s := Run(p, Start(p, []), rounds);
            s.outcome == Some(true) && s.goals.request.None? && !exists x :: x in s.heard && Genuine(p, x)
  {
    p := Plan(None, [], {0}, 2, true, false);
    var image := PpmFormat.TwoPixels();
    assert ImageOk(p, Some(image)) by { hide Ppm.Validate; }
    hide Run, Ok, Genuine, ImageOk;
    rounds := EarlyReplyPasses(p, 0, image);
  }
}
