/** `SerialAssertionMachine`: the step functions and the class whose methods compute them. */
module Serial {
  import opened Bytes
  import opened Search

  datatype Transition = Complete | Reboot
  datatype Phase = Phase(markers: seq<Data>, then_: Transition)
  datatype Outcome = Running | Pass | Fail

  /** The constructor's arguments. */
  datatype Config = Config(phases: seq<Phase>, forbidden: seq<Data>)

  predicate ValidPhase(phase: Phase, last: bool)
  {
    && phase.markers != [] && (forall i :: 0 <= i < |phase.markers| ==> phase.markers[i] != [])
    && phase.then_ == (if last then Complete else Reboot)
  }

  predicate ValidConfig(c: Config)
  {
    && c.phases != []
    && (forall i :: 0 <= i < |c.phases| ==> ValidPhase(c.phases[i], i == |c.phases| - 1))
    && (forall i :: 0 <= i < |c.forbidden| ==> c.forbidden[i] != [])
  }

  /** A well-formed plan: phases, each with markers, all but the last ending in a reboot; no marker is
      empty. */
  lemma {:induction false} ConfigIs(c: Config)
    ensures ValidConfig(c) <==>
            && |c.phases| >= 1 && [] !in c.forbidden && c.phases[|c.phases| - 1].then_ == Complete
            && (forall i :: 0 <= i < |c.phases| - 1 ==> c.phases[i].then_ == Reboot)
            && forall i :: 0 <= i < |c.phases| ==> |c.phases[i].markers| >= 1 && [] !in c.phases[i].markers
  {
    if |c.phases| >= 1 {
      var last := |c.phases| - 1;
      assert ValidConfig(c) ==> ValidPhase(c.phases[last], last == |c.phases| - 1);
    }
  }

  /** `max((len(marker) - 1 for marker in markers), default=0)` */
  function Overlap(ms: seq<Data>): (n: nat)
    ensures forall i :: 0 <= i < |ms| ==> |ms[i]| - 1 <= n
    ensures n == 0 || exists i :: 0 <= i < |ms| && |ms[i]| - 1 == n
  {
    if ms == [] then 0
    else
      var k := |ms| - 1;
      Max(Overlap(ms[..k]), |ms[k]| - 1)
  }

  /** The machine's fields. */
  datatype State = State(tail: Data, buffer: Data, phase: nat, marker: nat, waiting: bool, outcome: Outcome)

  const INITIAL := State([], [], 0, 0, false, Running)

  function Retained(s: State): nat { |s.tail| + |s.buffer| }

  ghost predicate ValidState(c: Config, s: State)
  {
    && ValidConfig(c) && s.phase < |c.phases|
    && (s.outcome == Running && !s.waiting ==> s.marker < |c.phases[s.phase].markers|)
    && (s.waiting ==> s.phase < |c.phases| - 1)
  }

  predicate ContainsAny(ms: seq<Data>, s: Data) { exists i :: 0 <= i < |ms| && Contains(s, ms[i]) }

  /** How much of the stream an occurrence of `m` can reach back into. */
  function Reach(m: Data): nat { if m == [] then 0 else |m| - 1 }

  /** The marker loop of `feed`, on the buffer that already holds the new chunk. */
  function MatchMarkers(markers: seq<Data>, then_: Transition, s: State): State
    requires s.marker < |markers|
    decreases |markers| - s.marker
  {
    var m := markers[s.marker];
    var i := Find(s.buffer, m);
    if i == -1 then s.(buffer := Suffix(s.buffer, Reach(m)))
    else
      var rest := s.buffer[i + |m|..];
      if s.marker + 1 < |markers| then MatchMarkers(markers, then_, s.(buffer := rest, marker := s.marker + 1))
      else if then_ == Complete then s.(buffer := [], marker := s.marker + 1, outcome := Pass)
      else s.(buffer := [], marker := s.marker + 1, waiting := true)
  }

  function Feed(c: Config, s: State, data: Data): State
    requires ValidState(c, s)
  {
    if s.outcome != Running || data == [] then s
    else
      var window := s.tail + data;
      if ContainsAny(c.forbidden, window) then s.(outcome := Fail)
      else
        var t := s.(tail := Suffix(window, Overlap(c.forbidden)));
        if s.waiting then t
        else MatchMarkers(c.phases[s.phase].markers, c.phases[s.phase].then_, t.(buffer := s.buffer + data))
  }

  function HandleReset(c: Config, s: State, guest: Option<bool>, reason: Option<string>): State
    requires ValidState(c, s)
  {
    if s.outcome != Running then s
    else if guest != Some(true) && reason != Some("guest-reset") then s.(outcome := Fail)
    else if !s.waiting then s.(outcome := Fail)
    else s.(phase := s.phase + 1, marker := 0, buffer := [], waiting := false)
  }

  /** `process_exited` and `timed_out` fail a machine that is still running. */
  function Stop(s: State): State { if s.outcome == Running then s.(outcome := Fail) else s }

  lemma {:induction false} MatchMarkersKeeps(markers: seq<Data>, then_: Transition, s: State)
    requires s.marker < |markers| && s.outcome == Running && !s.waiting
    ensures var r := MatchMarkers(markers, then_, s);
            && r.phase == s.phase && r.tail == s.tail
            && (r.outcome == Running && !r.waiting ==> r.marker < |markers| && |r.buffer| <= Overlap(markers))
            && (r.waiting ==> r.outcome == Running && then_ == Reboot && r.buffer == [])
            && (r.outcome != Running ==> r.outcome == Pass && then_ == Complete && r.buffer == [] && !r.waiting)
            && (r.waiting || r.outcome == Pass ==> r.marker == |markers|)
    decreases |markers| - s.marker
  {
    hide Find, Contains;
    var m := markers[s.marker];
    var i := Find(s.buffer, m);
    if i != -1 && s.marker + 1 < |markers| {
      MatchMarkersKeeps(markers, then_, s.(buffer := s.buffer[i + |m|..], marker := s.marker + 1));
    }
  }

  /** One round of the marker loop, and whether it goes on. */
  function MatchOne(markers: seq<Data>, then_: Transition, s: State): (State, bool)
    requires s.marker < |markers|
  {
    var m := markers[s.marker];
    var i := Find(s.buffer, m);
    if i < 0 then (s.(buffer := Suffix(s.buffer, Reach(m))), false)
    else
      var t := s.(buffer := s.buffer[i + |m|..], marker := s.marker + 1);
      if t.marker < |markers| then (t, true)
      else (if then_ == Complete then t.(buffer := [], outcome := Pass) else t.(buffer := [], waiting := true), false)
  }

  lemma {:induction false} MatchUnfolds(markers: seq<Data>, then_: Transition, s: State)
    requires s.marker < |markers|
    ensures var (t, more) := MatchOne(markers, then_, s);
            && t.phase == s.phase
            && (more ==> s.marker < t.marker < |markers| && t.outcome == s.outcome && t.waiting == s.waiting)
            && MatchMarkers(markers, then_, s) == if more then MatchMarkers(markers, then_, t) else t
  {
    hide Find, Suffix, Reach, OccursAt, Contains;
  }

  /** Validity does not depend on what is buffered. */
  lemma {:induction false} BuffersAreFree(c: Config, s: State, t: State)
    requires ValidState(c, s) && t == s.(tail := t.tail, buffer := t.buffer)
    ensures ValidState(c, t) && t.phase < |c.phases|
  {
    hide ValidConfig;
  }

  /** The branches of `feed`. */
  lemma {:induction false} FeedCases(c: Config, s: State, data: Data)
    requires ValidState(c, s)
    ensures s.outcome != Running || data == [] ==> Feed(c, s, data) == s
    ensures s.outcome == Running && data != [] ==>
              var t := s.(tail := Suffix(s.tail + data, Overlap(c.forbidden)));
              Feed(c, s, data) ==
              if ContainsAny(c.forbidden, s.tail + data) then s.(outcome := Fail)
              else if s.waiting then t
              else MatchMarkers(c.phases[s.phase].markers, c.phases[s.phase].then_, t.(buffer := s.buffer + data))
  {
    hide MatchMarkers, ContainsAny, Suffix, Overlap, ValidConfig;
  }

  lemma {:induction false} FeedKeepsValid(c: Config, s: State, data: Data)
    requires ValidState(c, s)
    ensures ValidState(c, Feed(c, s, data))
  {
    hide ContainsAny, MatchMarkers;
    if s.outcome == Running && data != [] && !s.waiting {
      var phase := c.phases[s.phase];
      assert ValidPhase(phase, s.phase == |c.phases| - 1);
      MatchMarkersKeeps(phase.markers, phase.then_,
                        s.(tail := Suffix(s.tail + data, Overlap(c.forbidden)), buffer := s.buffer + data));
    }
  }

  class SerialAssertionMachine {
    const config: Config
    const forbiddenOverlap: nat
    var forbiddenTail: Data
    var markerBuffer: Data
    var phaseIndex: nat
    var markerIndex: nat
    var waitingForReboot: bool
    var outcome: Outcome

    ghost function Now(): State
      reads this
    {
      State(forbiddenTail, markerBuffer, phaseIndex, markerIndex, waitingForReboot, outcome)
    }

    ghost predicate Valid()
      reads this
    {
      ValidState(config, Now()) && forbiddenOverlap == Overlap(config.forbidden)
    }

    constructor (c: Config)
      requires ValidConfig(c)
      ensures Valid() && config == c && Now() == INITIAL
    {
      config := c;
      forbiddenOverlap := Overlap(c.forbidden);
      forbiddenTail, markerBuffer := [], [];
      phaseIndex, markerIndex := 0, 0;
      waitingForReboot, outcome := false, Running;
    }

    /** Construction raises on an ill-formed plan. */
    static method Create(c: Config) returns (machine: SerialAssertionMachine?)
      ensures machine == null <==> !ValidConfig(c)
      ensures machine != null ==> fresh(machine) && machine.Valid() && machine.config == c && machine.Now() == INITIAL
    {
      if !ValidConfig(c) { return null; }
      machine := new SerialAssertionMachine(c);
    }

    method FindForbidden(window: Data) returns (found: bool)
      ensures found == ContainsAny(config.forbidden, window)
    {
      found := false;
      for i := 0 to |config.forbidden|
        invariant found == ContainsAny(config.forbidden[..i], window)
      {
        ContainsOneMore(config.forbidden[..i], config.forbidden[i], window);
        assert config.forbidden[..i + 1] == config.forbidden[..i] + [config.forbidden[i]];
        var position := Find(window, config.forbidden[i]);
        if position >= 0 { found := true; }
      }
      assert config.forbidden[..|config.forbidden|] == config.forbidden;
    }

    /** One round of the marker loop; `more` tells whether it goes on. */
    method ScanOne(markers: seq<Data>, then_: Transition) returns (more: bool)
      requires markerIndex < |markers|
      modifies this
      ensures (Now(), more) == MatchOne(markers, then_, old(Now()))
    {
      hide Find, Suffix, Reach, OccursAt, Contains;
      var marker := markers[markerIndex];
      var position := Find(markerBuffer, marker);
      if position < 0 {
        markerBuffer := Suffix(markerBuffer, Reach(marker));
        return false;
      }
      markerBuffer := markerBuffer[position + |marker|..];
      markerIndex := markerIndex + 1;
      if markerIndex < |markers| { return true; }
      if then_ == Complete {
        outcome := Pass;
      } else {
        waitingForReboot := true;
      }
      markerBuffer := [];
      return false;
    }

    method ScanMarkers()
      requires Valid() && outcome == Running && !waitingForReboot
      modifies this
      ensures Now() ==
              MatchMarkers(config.phases[old(phaseIndex)].markers, config.phases[old(phaseIndex)].then_, old(Now()))
    {
      var phase := config.phases[phaseIndex];
      hide ValidState, MatchMarkers, MatchOne;
      var more := true;
      while more
        invariant phaseIndex == old(phaseIndex)
        invariant more ==> outcome == Running && !waitingForReboot && markerIndex < |phase.markers|
        invariant MatchMarkers(phase.markers, phase.then_, old(Now())) ==
                  if more then MatchMarkers(phase.markers, phase.then_, Now()) else Now()
        decreases more, |phase.markers| - markerIndex
      {
        MatchUnfolds(phase.markers, phase.then_, Now());
        more := ScanOne(phase.markers, phase.then_);
      }
    }

    method FeedChunk(data: Data)
      requires Valid()
      modifies this
      ensures Valid() && Now() == Feed(config, old(Now()), data)
    {
      hide MatchMarkers, ContainsAny, Feed, Suffix, Overlap, ValidState;
      ghost var before := Now();
      FeedKeepsValid(config, before, data);
      FeedCases(config, before, data);
      if outcome != Running || data == [] { return; }
      var window := forbiddenTail + data;
      var hit := FindForbidden(window);
      if hit {
        outcome := Fail;
        return;
      }
      forbiddenTail := Suffix(window, forbiddenOverlap);
      if waitingForReboot { return; }
      markerBuffer := markerBuffer + data;
      BuffersAreFree(config, before, Now());
      ScanMarkers();
    }

    method HandleResetEvent(guest: Option<bool>, reason: Option<string>)
      requires Valid()
      modifies this
      ensures Valid() && Now() == HandleReset(config, old(Now()), guest, reason)
    {
      if outcome != Running { return; }
      if guest != Some(true) && reason != Some("guest-reset") {
        outcome := Fail;
        return;
      }
      if !waitingForReboot {
        outcome := Fail;
        return;
      }
      phaseIndex := phaseIndex + 1;
      markerIndex := 0;
      markerBuffer := [];
      waitingForReboot := false;
      assert ValidPhase(config.phases[phaseIndex], phaseIndex == |config.phases| - 1);
    }

    method ProcessExited()
      requires Valid()
      modifies this
      ensures Valid() && Now() == Stop(old(Now()))
    {
      if outcome == Running { outcome := Fail; }
    }

    method TimedOut()
      requires Valid()
      modifies this
      ensures Valid() && Now() == Stop(old(Now()))
    {
      if outcome == Running { outcome := Fail; }
    }
  }

  lemma {:induction false} ContainsOneMore(ms: seq<Data>, m: Data, s: Data)
    ensures ContainsAny(ms + [m], s) <==> ContainsAny(ms, s) || Contains(s, m)
  {
    hide Contains;
    var all := ms + [m];
    if Contains(s, m) { assert all[|ms|] == m; }
    if ContainsAny(ms, s) {
      var i :| 0 <= i < |ms| && Contains(s, ms[i]);
      assert all[i] == ms[i];
    }
  }
}
