/** The hardware adapter template: the last gate between approved commands and the actuators. */
module HardwareGate {
  import opened Messages

  datatype Config = Config(approvedTimeout: Duration, arbitrationTimeout: Duration)

  /** `arbitration` is the output_enabled flag of the last arbitration state. */
  datatype State = State(
    safetyState: Safety, mrmState: MrmState, activeMode: Mode,
    lastApproved: Option<Twist>, lastApprovedAt: Option<Time>,
    arbitration: Option<bool>, lastArbitrationAt: Option<Time>)

  datatype Reason =
    | SafetyBlocks | SafetyNotReady | MrmBlocks | ModeBlocks | WaitingForArbitration
    | ArbitrationStale | ArbiterDisabled | WaitingForApproved | ApprovedStale | GateOpen

  /** What the actuators are told: an approved command, or to stop. */
  datatype Action = Apply(command: Twist) | StopHardware(reason: Reason)

  const INITIAL := State(SafetyUnknown, MrmNone, Inactive, None, None, None, None)

  function ShouldRelease(cfg: Config, s: State, now: Time): Reason {
    if s.safetyState in {SafetyFault, Estop, Mrm} then SafetyBlocks
    else if !IsClear(s.safetyState) then SafetyNotReady
    else if s.mrmState != MrmNone then MrmBlocks
    else if !IsActive(s.activeMode) then ModeBlocks
    else if s.lastArbitrationAt.None? then WaitingForArbitration
    else if now - s.lastArbitrationAt.value > cfg.arbitrationTimeout then ArbitrationStale
    else if s.arbitration != Some(true) then ArbiterDisabled
    else if s.lastApprovedAt.None? then WaitingForApproved
    else if now - s.lastApprovedAt.value > cfg.approvedTimeout then ApprovedStale
    else GateOpen
  }

  function TickAction(cfg: Config, s: State, now: Time): Action {
    var reason := ShouldRelease(cfg, s, now);
    if reason == GateOpen && s.lastApproved.Some? then Apply(s.lastApproved.value) else StopHardware(reason)
  }

  function OnSafety(s: State, safety: Safety): State { s.(safetyState := safety) }

  function OnMrm(s: State, mrm: MrmState): State { s.(mrmState := mrm) }

  function OnMode(s: State, mode: Mode): State { s.(activeMode := mode) }

  function OnApproved(s: State, command: Twist, now: Time): State {
    s.(lastApproved := Some(command), lastApprovedAt := Some(now))
  }

  function OnArbitration(s: State, enabled: bool, now: Time): State {
    s.(arbitration := Some(enabled), lastArbitrationAt := Some(now))
  }

  /** The gate is open exactly under this conjunction, and then it applies the stored command. */
  lemma GateOpensIff(cfg: Config, s: State, now: Time)
    requires s.lastApproved.Some? <==> s.lastApprovedAt.Some?
    ensures TickAction(cfg, s, now).Apply? <==>
            && IsClear(s.safetyState) && s.mrmState == MrmNone && IsActive(s.activeMode)
            && s.arbitration == Some(true)
            && s.lastArbitrationAt.Some? && now - s.lastArbitrationAt.value <= cfg.arbitrationTimeout
            && s.lastApprovedAt.Some? && now - s.lastApprovedAt.value <= cfg.approvedTimeout
    ensures TickAction(cfg, s, now).Apply? ==> s.lastApproved == Some(TickAction(cfg, s, now).command)
  {}

  /** The reason names the first rule that is not met, from safety down to the age of the command. */
  lemma ReasonNamesRule(cfg: Config, s: State, now: Time)
    requires s.arbitration.Some? <==> s.lastArbitrationAt.Some?
    ensures var r := ShouldRelease(cfg, s, now);
      && (r == SafetyBlocks <==> s.safetyState in {SafetyFault, Estop, Mrm})
      && (r == SafetyNotReady <==> s.safetyState == SafetyUnknown)
      && (r == MrmBlocks <==> s.safetyState in {Ok, Warn} && s.mrmState != MrmNone)
      && (r == ModeBlocks <==>
            s.safetyState in {Ok, Warn} && s.mrmState == MrmNone && s.activeMode !in {Teleop, Autonomy, AiPolicy})
      && (r !in {SafetyBlocks, SafetyNotReady, MrmBlocks, ModeBlocks} ==>
            && (r == WaitingForArbitration <==> s.arbitration.None?)
            && (r == ArbitrationStale <==>
                  s.lastArbitrationAt.Some? && now - s.lastArbitrationAt.value > cfg.arbitrationTimeout)
            && (r == ArbiterDisabled ==> s.arbitration.Some? && !s.arbitration.value)
            && (r in {WaitingForApproved, ApprovedStale, GateOpen} ==> s.arbitration == Some(true))
            && (r == WaitingForApproved ==> s.lastApprovedAt.None?)
            && (r == ApprovedStale ==>
                  s.lastApprovedAt.Some? && now - s.lastApprovedAt.value > cfg.approvedTimeout))
  {}

  class HardwareAdapterNode {
    const cfg: Config
    var safetyState: Safety
    var mrmState: MrmState
    var activeMode: Mode
    var lastApproved: Option<Twist>
    var lastApprovedAt: Option<Time>
    var arbitration: Option<bool>
    var lastArbitrationAt: Option<Time>

    ghost function View(): State
      reads this
    {
      State(safetyState, mrmState, activeMode, lastApproved, lastApprovedAt, arbitration, lastArbitrationAt)
    }

    constructor (cfg: Config)
      ensures this.cfg == cfg && View() == INITIAL
    {
      this.cfg := cfg;
      safetyState, mrmState, activeMode := SafetyUnknown, MrmNone, Inactive;
      lastApproved, lastApprovedAt := None, None;
      arbitration, lastArbitrationAt := None, None;
    }

    method OnSafetyState(safety: Safety)
      modifies this
      ensures View() == OnSafety(old(View()), safety)
    {
      safetyState := safety;
    }

    method OnMrmState(mrm: MrmState)
      modifies this
      ensures View() == OnMrm(old(View()), mrm)
    {
      mrmState := mrm;
    }

    method OnModeState(mode: Mode)
      modifies this
      ensures View() == OnMode(old(View()), mode)
    {
      activeMode := mode;
    }

    method OnApprovedCommand(command: Twist, now: Time)
      modifies this
      ensures View() == OnApproved(old(View()), command, now)
    {
      lastApproved := Some(command);
      lastApprovedAt := Some(now);
    }

    method OnArbitrationState(enabled: bool, now: Time)
      modifies this
      ensures View() == OnArbitration(old(View()), enabled, now)
    {
      arbitration := Some(enabled);
      lastArbitrationAt := Some(now);
    }

    method Tick(now: Time) returns (action: Action)
      ensures action == TickAction(cfg, View(), now)
    {
      var view := State(
        safetyState, mrmState, activeMode, lastApproved, lastApprovedAt, arbitration, lastArbitrationAt);
      var reason := ShouldRelease(cfg, view, now);
      if reason != GateOpen || lastApproved.None? { return StopHardware(reason); }
      action := Apply(lastApproved.value);
    }
  }
}
