/** The Nav2 bridge: navigation velocities become autonomy candidates while everything allows it. */
module Nav2Bridge {
  import opened Messages

  datatype Config = Config(enabled: bool, commandTimeout: Duration)

  datatype BridgeState = Idle | Active | Blocked | Stale | Disabled

  datatype Reason =
    | WaitingForCommand | Forwarding | BridgeDisabled | CommandStale
    | ModeNotAutonomy | SafetyBlocks | LocomotionNotReady

  datatype State = State(
    activeMode: Mode, safetyState: Safety, loco: Loco, lastInputAt: Option<Time>, lastOutputAt: Option<Time>,
    latest: Option<Twist>, state: BridgeState, reason: Reason, outputEnabled: bool)

  const INITIAL := State(Inactive, SafetyUnknown, LocoUnknown, None, None, None, Idle, WaitingForCommand, false)

  /** The verdict on the fields as they stand. */
  function Verdict(cfg: Config, s: State, now: Time): (BridgeState, Reason) {
    if !cfg.enabled then (Disabled, BridgeDisabled)
    else if s.latest.None? || s.lastInputAt.None? then (Idle, WaitingForCommand)
    else if now - s.lastInputAt.value > cfg.commandTimeout then (Stale, CommandStale)
    else if s.activeMode != Autonomy then (Blocked, ModeNotAutonomy)
    else if !IsClear(s.safetyState) then (Blocked, SafetyBlocks)
    else if s.loco in {LocoUnknown, LocoFault, Recovering} then (Blocked, LocomotionNotReady)
    else (Active, Forwarding)
  }

  function Update(cfg: Config, s: State, now: Time): State {
    var (state, reason) := Verdict(cfg, s, now);
    s.(state := state, reason := reason, outputEnabled := state == Active)
  }

  /** The bridge after an input, and the candidate it published, if any. */
  function OnCommand(cfg: Config, s: State, msg: Twist, now: Time): (State, Option<Twist>) {
    var s' := Update(cfg, s.(latest := Some(msg), lastInputAt := Some(now)), now);
    if s'.outputEnabled then (s'.(lastOutputAt := Some(now)), Some(msg)) else (s', None)
  }

  datatype Event =
    Input(msg: Twist) | ModeState(mode: Mode) | SafetyState(safety: Safety) | LocoState(loco: Loco) | Timer

  datatype Timed = Timed(event: Event, now: Time)

  function Step(cfg: Config, s: State, t: Timed): (State, Option<Twist>) {
    match t.event
    case Input(msg) => OnCommand(cfg, s, msg, t.now)
    case ModeState(mode) => (s.(activeMode := mode), None)
    case SafetyState(safety) => (s.(safetyState := safety), None)
    case LocoState(loco) => (s.(loco := loco), None)
    case Timer => (Update(cfg, s, t.now), None)
  }

  function Run(cfg: Config, es: seq<Timed>): State {
    if es == [] then INITIAL else Step(cfg, Run(cfg, es[..|es| - 1]), es[|es| - 1]).0
  }

  /** The newest state each subscription delivered. */
  function LastMode(es: seq<Timed>): Mode {
    if es == [] then Inactive
    else var e := es[|es| - 1].event; if e.ModeState? then e.mode else LastMode(es[..|es| - 1])
  }

  function LastSafety(es: seq<Timed>): Safety {
    if es == [] then SafetyUnknown
    else var e := es[|es| - 1].event; if e.SafetyState? then e.safety else LastSafety(es[..|es| - 1])
  }

  function LastLoco(es: seq<Timed>): Loco {
    if es == [] then LocoUnknown
    else var e := es[|es| - 1].event; if e.LocoState? then e.loco else LastLoco(es[..|es| - 1])
  }

  /** The newest input, with its time. */
  function LastInput(es: seq<Timed>): Option<(Twist, Time)> {
    if es == [] then None
    else var t := es[|es| - 1]; if t.event.Input? then Some((t.event.msg, t.now)) else LastInput(es[..|es| - 1])
  }

  /** When the newest input was met under views that let it pass. */
  function LastForwarded(cfg: Config, es: seq<Timed>): Option<Time> {
    if es == [] then None
    else
      var before, t := es[..|es| - 1], es[|es| - 1];
      if t.event.Input? && cfg.enabled && cfg.commandTimeout >= 0 && LastMode(before) == Autonomy
         && LastSafety(before) in {Ok, Warn} && LastLoco(before) !in {LocoUnknown, LocoFault, Recovering}
      then Some(t.now) else LastForwarded(cfg, before)
  }

  lemma {:induction false} ViewsAreNewest(cfg: Config, es: seq<Timed>)
    ensures var s := Run(cfg, es);
      && s.activeMode == LastMode(es) && s.safetyState == LastSafety(es) && s.loco == LastLoco(es)
      && s.latest == (if LastInput(es).Some? then Some(LastInput(es).value.0) else None)
      && s.lastInputAt == (if LastInput(es).Some? then Some(LastInput(es).value.1) else None)
      && s.lastOutputAt == LastForwarded(cfg, es)
      && (s.outputEnabled <==> s.state == Active)
  {
    if es == [] {
    } else {
      ViewsAreNewest(cfg, es[..|es| - 1]);
    }
  }

  /**
   In any run the next event publishes a candidate exactly when it is an input met with the newest mode
   AUTONOMY, the newest safety clear and locomotion ready; the candidate is that very input.
   */
  lemma ForwardsExactly(cfg: Config, es: seq<Timed>, t: Timed)
    requires cfg.commandTimeout >= 0
    ensures Step(cfg, Run(cfg, es), t).1
            == if t.event.Input? && cfg.enabled && LastMode(es) == Autonomy && IsClear(LastSafety(es))
                  && LastLoco(es) !in {LocoUnknown, LocoFault, Recovering}
               then Some(t.event.msg) else None
  {
    ViewsAreNewest(cfg, es);
  }

  /**
   In any run a timer callback reports ACTIVE exactly while the newest input is within its timeout and the
   newest views let it pass; otherwise state and reason name the first obstacle.
   */
  lemma {:induction false} TimerNamesObstacle(cfg: Config, es: seq<Timed>, now: Time)
    ensures var s, input := Step(cfg, Run(cfg, es), Timed(Timer, now)).0, LastInput(es);
      && s.outputEnabled == (s.state == Active)
      && (s.state, s.reason)
         == if !cfg.enabled then (Disabled, BridgeDisabled)
            else if input.None? then (Idle, WaitingForCommand)
            else if now > input.value.1 + cfg.commandTimeout then (Stale, CommandStale)
            else if LastMode(es) != Autonomy then (Blocked, ModeNotAutonomy)
            else if LastSafety(es) !in {Ok, Warn} then (Blocked, SafetyBlocks)
            else if LastLoco(es) in {LocoUnknown, LocoFault, Recovering} then (Blocked, LocomotionNotReady)
            else (Active, Forwarding)
  {
    ViewsAreNewest(cfg, es);
  }

  class Nav2BridgeNode {
    const cfg: Config
    var activeMode: Mode
    var safetyState: Safety
    var loco: Loco
    var lastInputAt: Option<Time>
    var lastOutputAt: Option<Time>
    var latest: Option<Twist>
    var state: BridgeState
    var reason: Reason
    var outputEnabled: bool

    ghost function View(): State
      reads this
    {
      State(activeMode, safetyState, loco, lastInputAt, lastOutputAt, latest, state, reason, outputEnabled)
    }

    constructor (cfg: Config)
      ensures this.cfg == cfg && View() == INITIAL
    {
      this.cfg := cfg;
      activeMode, safetyState, loco := Inactive, SafetyUnknown, LocoUnknown;
      lastInputAt, lastOutputAt, latest := None, None, None;
      state, reason, outputEnabled := Idle, WaitingForCommand, false;
    }

    method OnModeState(mode: Mode, now: Time)
      modifies this
      ensures View() == Step(cfg, old(View()), Timed(ModeState(mode), now)).0
    {
      activeMode := mode;
    }

    method OnSafetyState(safety: Safety, now: Time)
      modifies this
      ensures View() == Step(cfg, old(View()), Timed(SafetyState(safety), now)).0
    {
      safetyState := safety;
    }

    method OnLocomotionState(newest: Loco, now: Time)
      modifies this
      ensures View() == Step(cfg, old(View()), Timed(LocoState(newest), now)).0
    {
      loco := newest;
    }

    method UpdateBridgeState(now: Time)
      modifies this
      ensures View() == Update(cfg, old(View()), now)
    {
      outputEnabled := false;
      if !cfg.enabled {
        state, reason := Disabled, BridgeDisabled;
        return;
      }
      if latest.None? || lastInputAt.None? {
        state, reason := Idle, WaitingForCommand;
        return;
      }
      if now - lastInputAt.value > cfg.commandTimeout {
        state, reason := Stale, CommandStale;
        return;
      }
      if activeMode != Autonomy {
        state, reason := Blocked, ModeNotAutonomy;
        return;
      }
      if safetyState !in {Ok, Warn} {
        state, reason := Blocked, SafetyBlocks;
        return;
      }
      if loco in {LocoUnknown, LocoFault, Recovering} {
        state, reason := Blocked, LocomotionNotReady;
        return;
      }
      state, reason, outputEnabled := Active, Forwarding, true;
    }

    method HandleCommand(msg: Twist, now: Time) returns (published: Option<Twist>)
      modifies this
      ensures (View(), published) == OnCommand(cfg, old(View()), msg, now)
    {
      published := None;
      latest := Some(msg);
      lastInputAt := Some(now);
      UpdateBridgeState(now);
      if outputEnabled {
        published := Some(msg);
        lastOutputAt := Some(now);
      }
    }

    method Tick(now: Time) returns (published: State)
      modifies this
      ensures View() == Update(cfg, old(View()), now) && published == View()
    {
      UpdateBridgeState(now);
      published := State(
        activeMode, safetyState, loco, lastInputAt, lastOutputAt, latest, state, reason, outputEnabled);
    }
  }
}
