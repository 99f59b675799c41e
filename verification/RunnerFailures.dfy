/** What ends a run, observation by observation. */
module RunnerFailures {
  import opened Bytes
  import opened Ppm
  import opened PpmFormat
  import opened Runner
  import Serial
  import SerialRuns
  import SerialScanners

  /** The deadline fails every run that is still going. */
  lemma {:induction false} ExpiredFails(p: Plan, s: State, r: Round)
    requires Inv(p, s) && s.outcome.None? && r.expired
    ensures Ok(p, s.machine) && Step(p, s, r).outcome == Some(false)
  {
    TracedOk(p, s);
    hide Inv, Ok, Stopped, HandleKeys, AfterKeys;
  }

  /** What would make a chunk fail the run: 256 MiB of log, a failure pattern, or the markers. */
  ghost predicate Spoils(p: Plan, s: State, chunk: Data, hint: Hint)
    requires ValidPlan(p)
  {
    || s.io.logged + |chunk| > 268_435_456 || hint.failure
    || (p.config.None? && Serial.ContainsAny(p.forbidden, s.io.fed + chunk))
    || (p.config.Some? &&
        SerialRuns.Run(p.config.value, s.trace + [SerialRuns.Chunk(chunk)]).outcome == Serial.Fail)
  }

  /** What shows, in a chunk, that the guest is done. */
  ghost predicate Shows(p: Plan, s: State, chunk: Data, hint: Hint)
    requires ValidPlan(p)
  {
    if p.config.None? then hint.success
    else SerialRuns.Run(p.config.value, s.trace + [SerialRuns.Chunk(chunk)]).outcome == Serial.Pass
  }

  lemma {:induction false} ScanIsWhole(p: Plan, s: State, chunk: Data)
    requires Inv(p, s) && s.outcome.None? && p.config.None?
    ensures ValidPlan(p)
    ensures Serial.ContainsAny(p.forbidden, s.tail + chunk) <==> Serial.ContainsAny(p.forbidden, s.io.fed + chunk)
  {
    NotFailed(p, s);
    hide Serial.ContainsAny, Shots, Evidence, Flags, Verdicts;
    SerialRuns.ForbiddenInWindow(p.forbidden, s.io.fed, chunk);
  }

  lemma {:induction false} MachineNow(p: Plan, s: State, chunk: Data)
    requires Inv(p, s) && p.config.Some?
    ensures ValidPlan(p) && Ok(p, s.machine)
    ensures SerialRuns.Step(p.config.value, s.machine, SerialRuns.Chunk(chunk)) ==
            SerialRuns.Run(p.config.value, s.trace + [SerialRuns.Chunk(chunk)])
  {
    hide Shots, Evidence, Flags, Verdicts, Scanned, SerialRuns.Step, SerialRuns.Run, Serial.ValidState;
    SerialRuns.RunOneMore(p.config.value, s.trace, SerialRuns.Chunk(chunk));
  }

  /** A chunk fails the run exactly when something spoils it, and else completes the guest exactly
      when it shows that. */
  lemma {:induction false} ChunkVerdict(p: Plan, s: State, chunk: Data, hint: Hint)
    requires Inv(p, s) && s.outcome.None? && chunk != []
    ensures ValidPlan(p) && Ok(p, s.machine)
    ensures var r := TakeChunk(p, s, chunk, hint);
            && r.outcome == (if Spoils(p, s, chunk, hint) then Some(false) else None)
            && (!Spoils(p, s, chunk, hint) ==> r.goals.guest == (s.goals.guest || Shows(p, s, chunk, hint)))
  {
    TracedOk(p, s);
    if p.config.None? {
      ScanIsWhole(p, s, chunk);
      hide Inv, ValidPlan, Ok, Serial.ContainsAny;
      PatternChunk(p, s, chunk, hint);
    } else {
      MachineNow(p, s, chunk);
      hide Inv, ValidPlan, Ok, SerialRuns.Step, SerialRuns.Run;
      MachineChunk(p, s, chunk, hint);
    }
    hide TakeChunk;
  }

  lemma {:induction false} PatternChunk(p: Plan, s: State, chunk: Data, hint: Hint)
    requires Ok(p, s.machine) && s.outcome.None? && chunk != [] && p.config.None?
    ensures var r := TakeChunk(p, s, chunk, hint);
            var bad := s.io.logged + |chunk| > 268_435_456 || hint.failure
                       || Serial.ContainsAny(p.forbidden, s.tail + chunk);
            && r.outcome == (if bad then Some(false) else None)
            && (!bad ==> r.goals.guest == (s.goals.guest || hint.success))
  {
    hide Serial.ContainsAny, Ok, Advance, JudgeMachine, SerialScanners.NextTail;
  }

  lemma {:induction false} MachineChunk(p: Plan, s: State, chunk: Data, hint: Hint)
    requires ValidPlan(p) && Ok(p, s.machine) && s.outcome.None? && chunk != [] && p.config.Some?
    ensures var r := TakeChunk(p, s, chunk, hint);
            var next := SerialRuns.Step(p.config.value, s.machine, SerialRuns.Chunk(chunk));
            var bad := s.io.logged + |chunk| > 268_435_456 || hint.failure || next.outcome == Serial.Fail;
            && r.outcome == (if bad then Some(false) else None)
            && (!bad ==> r.goals.guest == (s.goals.guest || next.outcome == Serial.Pass))
  {
    hide Ok, JudgePattern, SerialRuns.Step, ValidPlan;
  }

  /** While there is a request, the reply with its id completes the screendump if it brings a good image
      and fails the run if not; any other reply changes nothing. */
  lemma {:induction false} ReplyVerdict(p: Plan, s: State, m: Message)
    requires m.Reply? && s.outcome.None?
    ensures var r := HandleReply(p, s, m); var good := !m.error && m.image.Some? && ImageOk(p, m.image);
            && r.io == s.io && r.goals.guest == s.goals.guest && r.goals.request == s.goals.request
            && r.outcome == (if m.id == s.goals.request && !good then Some(false) else None)
            && r.goals.shot == (s.goals.shot || (m.id == s.goals.request && good))
  {
    hide Validate;
  }

  /** An event fails the run if and only if it fails the machine. */
  lemma {:induction false} EventVerdict(p: Plan, s: State, m: Message)
    requires Inv(p, s) && s.outcome.None? && m.Event?
    ensures ValidPlan(p) && Ok(p, s.machine)
    ensures var r := HandleEvent(p, s, m);
            && r.goals == s.goals && r.io == s.io
            && (r.outcome == Some(false) <==>
                && p.config.Some?
                && SerialRuns.Run(p.config.value, s.trace + [SerialRuns.Qmp(m.name, m.guest, m.reason)]).outcome
                   == Serial.Fail)
            && (r.outcome == Some(false) || r.outcome.None?)
  {
    TracedOk(p, s);
    if p.config.Some? {
      assert s.machine == SerialRuns.Run(p.config.value, s.trace);
      SerialRuns.RunOneMore(p.config.value, s.trace, SerialRuns.Qmp(m.name, m.guest, m.reason));
    }
    hide Inv, SerialRuns.Step, SerialRuns.Run, ValidPlan, Serial.ValidState;
  }

  /** What the end of an iteration makes of the companion's status and the process's. */
  ghost function Ending(p: Plan, s: State, r: Round): Option<bool>
    requires Ok(p, s.machine)
  {
    var companion := s.goals.companion || r.poll == Some(true);
    var d := DrainSerial(p, PollCompanion(s, r.poll), r.exitTurns);
    if !s.goals.companion && r.poll == Some(false) then Some(false)
    else if s.goals.guest && s.goals.shot && companion then Some(true)
    else if r.exit.None? || s.io.exitHandled then
      if r.lost && s.io.qmpClosed && !(s.goals.guest && s.goals.shot) then Some(false) else None
    else if d.outcome.Some? || !d.io.eof then d.outcome
    else if !(d.goals.guest || r.exit.value in p.accepted) || !d.goals.shot then Some(false)
    else if companion then Some(true) else None
  }

  lemma {:induction false} DrainedCompanion(p: Plan, s: State, turns: seq<Turn>)
    requires Ok(p, s.machine)
    ensures DrainSerial(p, s, turns).goals.companion == s.goals.companion
  {
    hide DrainSerial, Ok;
  }

  lemma {:induction false} LostEnds(p: Plan, s: State, r: Round)
    requires Ok(p, s.machine) && (r.exit.None? || s.io.exitHandled)
    ensures HandleExit(p, s, r).outcome ==
            if s.outcome.None? && r.lost && s.io.qmpClosed && !(s.goals.guest && s.goals.shot) then Some(false)
            else s.outcome
  {
    hide Ok, DrainSerial, FinishExit;
  }

  lemma {:induction false} FinishEnds(p: Plan, s: State, code: int)
    requires Ok(p, s.machine)
    ensures var t := FinishExit(p, s, code);
            t.outcome == if s.outcome.Some? then s.outcome
                         else if !(s.goals.guest || code in p.accepted) || !s.goals.shot then Some(false)
                         else if s.goals.companion then Some(true) else None
    ensures FinishExit(p, s, code).outcome.None? ==>
              FinishExit(p, s, code).goals.guest && FinishExit(p, s, code).goals.shot
  {
    hide Ok, Stopped;
  }

  lemma {:induction false} ExitEnds(p: Plan, s: State, r: Round)
    requires Ok(p, s.machine) && r.exit.Some? && !s.io.exitHandled
    ensures var d := DrainSerial(p, s, r.exitTurns);
            HandleExit(p, s, r).outcome ==
            if d.outcome.Some? || !d.io.eof then d.outcome
            else if !(d.goals.guest || r.exit.value in p.accepted) || !d.goals.shot then Some(false)
            else if d.goals.companion then Some(true) else None
  {
    var d := DrainSerial(p, s, r.exitTurns);
    FinishEnds(p, d.(io := d.io.(exitHandled := true)), r.exit.value);
    hide Ok, DrainSerial, FinishExit;
  }

  lemma {:induction false} Polling(s: State, poll: Option<bool>)
    requires s.outcome.None?
    ensures var c := PollCompanion(s, poll);
            && c.io == s.io && c.goals.guest == s.goals.guest && c.goals.shot == s.goals.shot
            && c.goals.companion == (s.goals.companion || poll == Some(true))
            && c.outcome == if !s.goals.companion && poll == Some(false) then Some(false) else None
  {
  }

  /** An iteration in which the events bring no verdict ends as the companion and the process say. */
  lemma {:induction false} RoundEnds(p: Plan, s: State, r: Round)
    requires Ok(p, s.machine) && s.outcome.None?
    ensures AfterEvents(p, s, r).outcome == Ending(p, s, r)
  {
    var c := PollCompanion(s, r.poll);
    Polling(s, r.poll);
    assert Complete(c) <==> c.goals.guest && c.goals.shot && c.goals.companion;
    DrainedCompanion(p, c, r.exitTurns);
    if c.outcome.Some? { DrainStops(p, c, r.exitTurns); }
    if r.exit.None? || s.io.exitHandled { LostEnds(p, c, r); } else { ExitEnds(p, c, r); }
    hide Ok, DrainSerial, HandleExit, PollCompanion, Complete;
  }

  /** The screendump is good exactly if it is a PPM image of at most 64 MiB and 16 Mi pixels with
      enough colours. */
  lemma {:induction false} GoodImage(p: Plan, image: Data)
    ensures ImageOk(p, Some(image)) <==>
            && p.minDistinct > 0 && |image| <= 67_108_864
            && exists r :: (IsP3(image, r) || IsP6(image, r)) && r.width * r.height <= 16_777_216
                           && |ColoursOf(r)| >= p.minDistinct
  {
    hide IsP3, IsP6, Validate, Colours;
    if ImageOk(p, Some(image)) {
      var r := OnlyImages(image, p.minDistinct, 67_108_864, 16_777_216);
      RasterIs(image, r);
    }
    if r :| (IsP3(image, r) || IsP6(image, r)) && r.width * r.height <= 16_777_216
            && |ColoursOf(r)| >= p.minDistinct {
      RasterIs(image, r);
      if p.minDistinct > 0 && |image| <= 67_108_864 {
        if IsP3(image, r) {
          P3IsJudged(image, r, p.minDistinct, 67_108_864, 16_777_216);
        } else {
          P6IsJudged(image, r, p.minDistinct, 67_108_864, 16_777_216);
        }
      }
    }
  }

  ghost function ColoursOf(r: Raster): set<Pixel>
  {
    if ValidRaster(r) then Colours(r.samples, r.width * r.height) else {}
  }

  lemma {:induction false} RasterIs(image: Data, r: Raster)
    requires IsP3(image, r) || IsP6(image, r)
    ensures ValidRaster(r) && image != []
  {
  }
}
