/**
 The mode manager: validated mode requests, operator takeover, the published mode and the log of
 transition records.
 */
module ModeManager {
  import opened Messages

  datatype State = State(
    requestedMode: Mode, activeMode: Mode, activeSince: Time, safetyState: Safety, safetySeen: bool)

  datatype Verdict =
    | ShutdownIsTerminal | ModeUnchanged | TakeoverRequiresActiveMode | TakeoverAccepted
    | SafetyUnseen | SafetyBlocksAutonomy | MaintenanceRequiresIntermediate
    | AiPolicyRequiresActiveMode | ModeAccepted
  {
    predicate Accepted() {
      this == ModeUnchanged || this == TakeoverAccepted || this == ModeAccepted
    }
  }

  /** A transition record; `requested` is the raw mode code of the request. */
  datatype Record = Record(previous: Mode, requested: int, active: Mode, accepted: bool, takeover: bool)

  datatype Event = SetMode(code: int) | TakeoverRequest | SafetyState(safety: Safety) | Timer

  const TELEOP_CODE := 3

  /** The modes a request may name, by their message codes. */
  function ModeOf(code: int): Option<Mode> {
    match code
    case 1 => Some(Maintenance)
    case 2 => Some(Inactive)
    case 3 => Some(Teleop)
    case 4 => Some(Autonomy)
    case 5 => Some(AiPolicy)
    case 6 => Some(ModeFault)
    case 7 => Some(Shutdown)
    case _ => None
  }

  function Initial(mode: Mode, now: Time): State {
    State(mode, mode, now, SafetyUnknown, false)
  }

  function EvaluateTransition(
    activeMode: Mode, requested: Mode, safetySeen: bool, safety: Safety, takeover: bool): Verdict
  {
    if activeMode == Shutdown && requested != Shutdown then ShutdownIsTerminal
    else if requested == activeMode then ModeUnchanged
    else if takeover then
      if !IsActive(activeMode) then TakeoverRequiresActiveMode else TakeoverAccepted
    else if IsActive(requested) && !safetySeen then SafetyUnseen
    else if IsAutonomous(requested) && safety in {SafetyUnknown, SafetyFault, Estop, Mrm} then SafetyBlocksAutonomy
    else if activeMode == Maintenance && IsAutonomous(requested) then MaintenanceRequiresIntermediate
    else if requested == AiPolicy && activeMode != Teleop && activeMode != Autonomy then AiPolicyRequiresActiveMode
    else ModeAccepted
  }

  predicate Accepts(s: State, requested: Mode, takeover: bool) {
    EvaluateTransition(s.activeMode, requested, s.safetySeen, s.safetyState, takeover).Accepted()
  }

  function Applied(s: State, mode: Mode, now: Time): State {
    s.(requestedMode := mode, activeMode := mode, activeSince := now)
  }

  function OnSetMode(s: State, code: int, now: Time): State {
    match ModeOf(code)
    case None => s
    case Some(mode) => if Accepts(s, mode, false) then Applied(s, mode, now) else s.(requestedMode := mode)
  }

  predicate SetModeAccepted(s: State, code: int) {
    ModeOf(code).Some? && Accepts(s, ModeOf(code).value, false)
  }

  function OnTakeover(s: State, now: Time): State {
    if Accepts(s, Teleop, true) then Applied(s, Teleop, now) else s
  }

  function OnSafety(s: State, safety: Safety): State {
    s.(safetyState := safety, safetySeen := true)
  }

  function Step(s: State, e: Event, now: Time): State {
    match e
    case SetMode(code) => OnSetMode(s, code, now)
    case TakeoverRequest => OnTakeover(s, now)
    case SafetyState(safety) => OnSafety(s, safety)
    case Timer => s
  }

  function SetModeRecord(s: State, code: int, now: Time): Record {
    Record(s.activeMode, code, OnSetMode(s, code, now).activeMode, SetModeAccepted(s, code), false)
  }

  function TakeoverRecord(s: State, now: Time): Record {
    Record(s.activeMode, TELEOP_CODE, OnTakeover(s, now).activeMode, Accepts(s, Teleop, true), true)
  }

  /** The transition records one event publishes. */
  function Records(s: State, e: Event, now: Time): seq<Record> {
    match e
    case SetMode(code) => [SetModeRecord(s, code, now)]
    case TakeoverRequest => [TakeoverRecord(s, now)]
    case _ => []
  }

  // ---------------------------------------------------------------- properties of one transition

  /** Which plain requests are accepted: the mode in force always, and exactly these changes. */
  lemma RequestLegality(s: State, mode: Mode)
    ensures Accepts(s, mode, false) <==>
            || mode == s.activeMode
            || (&& s.activeMode != Shutdown
                && (mode in {Teleop, Autonomy, AiPolicy} ==> s.safetySeen)
                && (mode in {Autonomy, AiPolicy} ==> s.safetyState in {Ok, Warn} && s.activeMode != Maintenance)
                && (mode == AiPolicy ==> s.activeMode in {Teleop, Autonomy}))
  {
    assert mode in {Teleop, Autonomy, AiPolicy} <==> IsActive(mode);
    assert mode in {Autonomy, AiPolicy} <==> IsAutonomous(mode);
    assert s.safetyState in {Ok, Warn} <==> IsClear(s.safetyState);
  }

  /** The message codes of the modes, and no others. */
  lemma ModeCodes(code: int)
    ensures ModeOf(code).Some? <==> 1 <= code <= 7
    ensures ModeOf(TELEOP_CODE) == Some(Teleop)
    ensures forall a, b | ModeOf(a).Some? && ModeOf(a) == ModeOf(b) :: a == b
    ensures ModeOf(code) == Some(Maintenance) <==> code == 1
    ensures ModeOf(code) == Some(Inactive) <==> code == 2
    ensures ModeOf(code) == Some(Teleop) <==> code == 3
    ensures ModeOf(code) == Some(Autonomy) <==> code == 4
    ensures ModeOf(code) == Some(AiPolicy) <==> code == 5
    ensures ModeOf(code) == Some(ModeFault) <==> code == 6
    ensures ModeOf(code) == Some(Shutdown) <==> code == 7
  {}

  /** A takeover goes through from exactly the active modes, whatever safety says. */
  lemma TakeoverLegality(s: State)
    ensures Accepts(s, Teleop, true) <==> IsActive(s.activeMode)
  {}

  /** An autonomous mode is entered only by a request, with safety seen and viewed as clear. */
  lemma AutonomyEntry(s: State, e: Event, now: Time)
    requires var m := Step(s, e, now).activeMode; m != s.activeMode && IsAutonomous(m)
    ensures e.SetMode? && ModeOf(e.code) == Some(Step(s, e, now).activeMode) && SetModeAccepted(s, e.code)
    ensures s.safetySeen && IsClear(s.safetyState)
    ensures Step(s, e, now).activeMode == AiPolicy ==> s.activeMode in {Teleop, Autonomy}
  {}

  // ---------------------------------------------------------------- properties of runs

  datatype Timed = Timed(event: Event, now: Time)

  function Run(s: State, es: seq<Timed>): State {
    if es == [] then s
    else var i := |es| - 1; Step(Run(s, es[..i]), es[i].event, es[i].now)
  }

  /** All transition records of a run, in order. */
  function Log(s: State, es: seq<Timed>): seq<Record> {
    if es == [] then []
    else var i := |es| - 1; Log(s, es[..i]) + Records(Run(s, es[..i]), es[i].event, es[i].now)
  }

  /** Replaying a log: only accepted records move the mode. */
  function Replay(mode: Mode, log: seq<Record>): Mode {
    if log == [] then mode
    else
      var i := |log| - 1;
      if log[i].accepted && ModeOf(log[i].requested).Some?
      then ModeOf(log[i].requested).value else Replay(mode, log[..i])
  }

  /** `r` tells the truth about a request met in mode `before`. */
  ghost predicate Follows(before: Mode, r: Record) {
    r.previous == before
    && (r.accepted ==> ModeOf(r.requested) == Some(r.active))
    && (!r.accepted ==> r.active == before)
  }

  /** The mode a log ends in. */
  ghost function LastMode(mode: Mode, log: seq<Record>): Mode {
    if log == [] then mode else log[|log| - 1].active
  }

  /** Each record's previous mode is the active mode of the record before it. */
  ghost predicate Chained(mode: Mode, log: seq<Record>) {
    log == [] ||
    var i := |log| - 1; Chained(mode, log[..i]) && Follows(LastMode(mode, log[..i]), log[i])
  }

  /** Started outside the active modes, the manager is in one only after seeing a safety state. */
  lemma {:induction false} ActiveNeedsSafety(mode: Mode, start: Time, es: seq<Timed>)
    requires !IsActive(mode)
    ensures var s := Run(Initial(mode, start), es); IsActive(s.activeMode) ==> s.safetySeen
  {
    if es == [] {
    } else {
      ActiveNeedsSafety(mode, start, es[..|es| - 1]);
    }
  }

  lemma {:induction false} ShutdownAbsorbs(s: State, es: seq<Timed>)
    requires s.activeMode == Shutdown
    ensures Run(s, es).activeMode == Shutdown
  {
    if es == [] {
    } else {
      ShutdownAbsorbs(s, es[..|es| - 1]);
    }
  }

  /** One event publishes at most one record; it tells what the event did to the mode. */
  lemma RecordTellsStep(s: State, e: Event, now: Time)
    ensures var added, mode := Records(s, e, now), Step(s, e, now).activeMode;
      && (added == [] ==> mode == s.activeMode)
      && (added != [] ==> added == [added[0]] && Follows(s.activeMode, added[0]) && added[0].active == mode)
      && (added != [] <==> e.SetMode? || e.TakeoverRequest?)
      && (e.SetMode? ==> added[0].requested == e.code && !added[0].takeover)
      && (e.TakeoverRequest? ==> added[0].requested == TELEOP_CODE && added[0].takeover)
  {}

  lemma LogExtends(mode: Mode, log: seq<Record>, r: Record)
    requires Chained(mode, log) && Replay(mode, log) == LastMode(mode, log)
    requires Follows(LastMode(mode, log), r)
    ensures Chained(mode, log + [r]) && Replay(mode, log + [r]) == LastMode(mode, log + [r]) == r.active
  {}

  /** The log chains from the initial mode, ends in the mode in force, and replays to it. */
  lemma {:induction false} LogReproducesMode(mode: Mode, start: Time, es: seq<Timed>)
    ensures Chained(mode, Log(Initial(mode, start), es))
    ensures LastMode(mode, Log(Initial(mode, start), es)) == Run(Initial(mode, start), es).activeMode
    ensures Replay(mode, Log(Initial(mode, start), es)) == Run(Initial(mode, start), es).activeMode
  {
    if es == [] {
    } else {
      var last, before := es[|es| - 1], es[..|es| - 1];
      LogReproducesMode(mode, start, before);
      var s, log := Run(Initial(mode, start), before), Log(Initial(mode, start), before);
      var added := Records(s, last.event, last.now);
      assert Log(Initial(mode, start), es) == log + added;
      RecordTellsStep(s, last.event, last.now);
      if added == [] {
        assert log + added == log;
      } else {
        LogExtends(mode, log, added[0]);
      }
    }
  }

  /** The mode of the newest request that names one, or of the newest accepted takeover. */
  function LastRequested(mode: Mode, log: seq<Record>): Mode {
    if log == [] then mode
    else
      var i := |log| - 1;
      if ModeOf(log[i].requested).Some? && (log[i].accepted || !log[i].takeover)
      then ModeOf(log[i].requested).value else LastRequested(mode, log[..i])
  }

  /** When the newest accepted request came, counted over the events that publish records. */
  function LastAccepted(s: State, es: seq<Timed>): Time {
    if es == [] then s.activeSince
    else
      var i := |es| - 1;
      var added := Records(Run(s, es[..i]), es[i].event, es[i].now);
      if added != [] && added[0].accepted then es[i].now else LastAccepted(s, es[..i])
  }

  lemma LastRequestedOneMore(mode: Mode, log: seq<Record>, r: Record)
    ensures LastRequested(mode, log + [r])
            == if ModeOf(r.requested).Some? && (r.accepted || !r.takeover) then ModeOf(r.requested).value
               else LastRequested(mode, log)
  {
    assert (log + [r])[..|log|] == log;
  }

  /** The other published fields tell the newest mode asked for, and when the newest request was accepted. */
  lemma {:induction false} FieldsTellRequests(mode: Mode, start: Time, es: seq<Timed>)
    ensures var s := Run(Initial(mode, start), es);
      && s.requestedMode == LastRequested(mode, Log(Initial(mode, start), es))
      && s.activeSince == LastAccepted(Initial(mode, start), es)
  {
    if es == [] {
    } else {
      var last, before := es[|es| - 1], es[..|es| - 1];
      var s, log := Run(Initial(mode, start), before), Log(Initial(mode, start), before);
      var added := Records(s, last.event, last.now);
      FieldsTellRequests(mode, start, before);
      RecordTellsStep(s, last.event, last.now);
      if added == [] {
        assert log + added == log;
      } else {
        LastRequestedOneMore(mode, log, added[0]);
      }
    }
  }

  // ---------------------------------------------------------------- the node

  /** The published mode state. */
  datatype ModeMsg = ModeMsg(requestedMode: Mode, activeMode: Mode, activeSince: Time)

  function Publication(s: State): ModeMsg {
    ModeMsg(s.requestedMode, s.activeMode, s.activeSince)
  }

  class ModeManagerNode {
    var requestedMode: Mode
    var activeMode: Mode
    var activeSince: Time
    var safetyState: Safety
    var safetySeen: bool

    ghost function View(): State
      reads this
    {
      State(requestedMode, activeMode, activeSince, safetyState, safetySeen)
    }

    constructor (initialMode: Mode, now: Time)
      ensures View() == Initial(initialMode, now)
    {
      requestedMode, activeMode, activeSince := initialMode, initialMode, now;
      safetyState, safetySeen := SafetyUnknown, false;
    }

    method ApplyMode(mode: Mode, now: Time)
      modifies this
      ensures View() == Applied(old(View()), mode, now)
    {
      requestedMode := mode;
      activeMode := mode;
      activeSince := now;
    }

    method HandleSetMode(code: int, now: Time) returns (record: Record, published: Option<ModeMsg>)
      modifies this
      ensures View() == OnSetMode(old(View()), code, now)
      ensures record == SetModeRecord(old(View()), code, now)
      ensures published == if SetModeAccepted(old(View()), code) then Some(Publication(View())) else None
    {
      var mode := ModeOf(code);
      if mode.None? {
        return Record(activeMode, code, activeMode, false, false), None;
      }
      var verdict := EvaluateTransition(activeMode, mode.value, safetySeen, safetyState, false);
      var previous := activeMode;
      if !verdict.Accepted() {
        requestedMode := mode.value;
        return Record(previous, code, activeMode, false, false), None;
      }
      ApplyMode(mode.value, now);
      record := Record(previous, code, activeMode, true, false);
      published := Some(ModeMsg(requestedMode, activeMode, activeSince));
    }

    method HandleTakeover(now: Time) returns (record: Record, published: ModeMsg)
      modifies this
      ensures View() == OnTakeover(old(View()), now)
      ensures record == TakeoverRecord(old(View()), now)
      ensures published == Publication(View())
    {
      var previous := activeMode;
      var verdict := EvaluateTransition(activeMode, Teleop, safetySeen, safetyState, true);
      if verdict.Accepted() { ApplyMode(Teleop, now); }
      record := Record(previous, TELEOP_CODE, activeMode, verdict.Accepted(), true);
      published := ModeMsg(requestedMode, activeMode, activeSince);
    }

    method OnSafetyState(safety: Safety)
      modifies this
      ensures View() == OnSafety(old(View()), safety)
    {
      safetyState := safety;
      safetySeen := true;
    }

    method Tick() returns (published: ModeMsg)
      ensures published == Publication(View())
    {
      published := ModeMsg(requestedMode, activeMode, activeSince);
    }
  }
}
