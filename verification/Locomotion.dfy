/**
 The mock locomotion adapter: approved velocities become a locomotion state; stops settle after a
 delay that repeated stop reasons do not restart.
 */
module Locomotion {
  import opened Messages

  datatype Config = Config(commandTimeout: Duration, settleTime: Duration, epsilon: real)

  datatype Constraint =
    | WaitingForMode | WaitingForSafety | ModeInactive | ModeBlocks | SafetyBlocks
    | WaitingForCommand | CommandTimeout | ApprovedStop | RuntimeBlocks

  datatype State = State(
    activeMode: Mode, safetyState: Safety, lastCommandAt: Option<Time>, stopStartedAt: Option<Time>,
    state: Loco, linear: real, angular: real, constraints: seq<Constraint>)

  const INITIAL := State(Inactive, SafetyUnknown, None, None, LocoInactive, 0.0, 0.0,
                         [WaitingForMode, WaitingForSafety])

  function Abs(x: real): real { if x < 0.0 then -x else x }

  /** The mode in which the adapter is switched off altogether. */
  predicate Parked(m: Mode) {
    m == Inactive || m == Maintenance
  }

  predicate OutputBlocked(s: State) {
    !IsActive(s.activeMode) || !IsClear(s.safetyState)
  }

  function Settle(cfg: Config, s: State, now: Time): State {
    if s.state == Stopping && s.stopStartedAt.Some? && now - s.stopStartedAt.value >= cfg.settleTime
    then s.(state := Standing, constraints := if OutputBlocked(s) then s.constraints else [])
    else s
  }

  function BeginStop(cfg: Config, s: State, reason: Constraint, now: Time): State {
    if Parked(s.activeMode) then s.(state := LocoInactive, constraints := [ModeInactive], stopStartedAt := None)
    else
      var keep := s.state in {Stopping, Standing} && s.stopStartedAt.Some?;
      Settle(cfg, s.(state := Stopping, constraints := [reason],
                     stopStartedAt := if keep then s.stopStartedAt else Some(now)), now)
  }

  function Halt(s: State): State {
    s.(linear := 0.0, angular := 0.0)
  }

  predicate IsStopCommand(cfg: Config, cmd: Twist) {
    Abs(cmd.lx) <= cfg.epsilon && Abs(cmd.az) <= cfg.epsilon
  }

  function OnApproved(cfg: Config, s0: State, cmd: Twist, now: Time): State {
    var s := s0.(lastCommandAt := Some(now));
    if IsStopCommand(cfg, cmd) then BeginStop(cfg, Halt(s), ApprovedStop, now)
    else if OutputBlocked(s) then BeginStop(cfg, Halt(s), RuntimeBlocks, now)
    else s.(stopStartedAt := None, linear := cmd.lx, angular := cmd.az,
            state := if Abs(cmd.lx) > cfg.epsilon then Walking else Turning, constraints := [])
  }

  function OnMode(s: State, mode: Mode): State { s.(activeMode := mode) }

  function OnSafety(s: State, safety: Safety): State { s.(safetyState := safety) }

  function Tick(cfg: Config, s: State, now: Time): State {
    if Parked(s.activeMode) then
      Halt(s).(state := LocoInactive, constraints := [ModeInactive], stopStartedAt := None)
    else if s.activeMode in {ModeFault, Shutdown} then BeginStop(cfg, Halt(s), ModeBlocks, now)
    else if !IsClear(s.safetyState) then BeginStop(cfg, Halt(s), SafetyBlocks, now)
    else if s.lastCommandAt.None? then s.(state := Standing, constraints := [WaitingForCommand])
    else if now - s.lastCommandAt.value > cfg.commandTimeout then BeginStop(cfg, Halt(s), CommandTimeout, now)
    else Settle(cfg, s, now)
  }

  datatype Event = Approved(cmd: Twist) | ModeState(mode: Mode) | SafetyState(safety: Safety) | Timer

  function Step(cfg: Config, s: State, e: Event, now: Time): State {
    match e
    case Approved(cmd) => OnApproved(cfg, s, cmd, now)
    case ModeState(mode) => OnMode(s, mode)
    case SafetyState(safety) => OnSafety(s, safety)
    case Timer => Tick(cfg, s, now)
  }

  // ---------------------------------------------------------------- what every step keeps

  /** The stored velocity and the state classify each other, and a stop in progress has a start. */
  ghost predicate Consistent(cfg: Config, s: State) {
    && s.state in {LocoInactive, Standing, Walking, Turning, Stopping}
    && (s.state == Walking <==> Abs(s.linear) > cfg.epsilon)
    && (s.state == Turning <==> Abs(s.linear) <= cfg.epsilon && Abs(s.angular) > cfg.epsilon)
    && (s.state !in {Walking, Turning} ==> s.linear == 0.0 && s.angular == 0.0)
    && (s.state == Stopping ==> s.stopStartedAt.Some?)
    && (s.lastCommandAt.None? ==> s.linear == 0.0 && s.angular == 0.0)
  }

  lemma InitiallyConsistent(cfg: Config)
    requires cfg.epsilon >= 0.0
    ensures Consistent(cfg, INITIAL)
  {}

  lemma StepKeepsConsistent(cfg: Config, s: State, e: Event, now: Time)
    requires cfg.epsilon >= 0.0
    requires Consistent(cfg, s)
    ensures Consistent(cfg, Step(cfg, s, e, now))
  {}

  /** The robot stands still and no motion state is shown. */
  predicate AtRest(s: State) {
    s.linear == 0.0 && s.angular == 0.0 && s.state in {Stopping, Standing, LocoInactive}
  }

  /** While output is blocked, no callback starts motion, whatever command arrives. */
  lemma BlockedStaysAtRest(cfg: Config, s: State, e: Event, now: Time)
    requires AtRest(s) && OutputBlocked(s)
    ensures AtRest(Step(cfg, s, e, now))
  {}

  /** Safety, or a mode that is known and not an active one, demands a halt. */
  predicate MustHalt(s: State) {
    || s.safetyState !in {Ok, Warn}
    || s.activeMode in {Inactive, Maintenance, ModeFault, Shutdown}
  }

  /** One timer callback under such a demand brings the robot to rest; in two modes it switches the robot off. */
  lemma TickHalts(cfg: Config, s: State, now: Time)
    requires MustHalt(s)
    ensures AtRest(Tick(cfg, s, now))
    ensures s.activeMode in {Inactive, Maintenance} ==>
              Tick(cfg, s, now).state == LocoInactive && Tick(cfg, s, now).stopStartedAt.None?
  {}

  predicate TimedOut(cfg: Config, s: State, now: Time) {
    s.lastCommandAt.Some? && now - s.lastCommandAt.value > cfg.commandTimeout
  }

  /** A moving robot is brought to rest by exactly these timer callbacks; by any other it is left as it is. */
  lemma TickHaltsExactly(cfg: Config, s: State, now: Time)
    requires cfg.epsilon >= 0.0 && Consistent(cfg, s)
    ensures AtRest(Tick(cfg, s, now)) <==> AtRest(s) || MustHalt(s) || TimedOut(cfg, s, now)
    ensures !AtRest(Tick(cfg, s, now)) ==> Tick(cfg, s, now) == s
  {}

  predicate Small(cfg: Config, x: real) {
    -cfg.epsilon <= x <= cfg.epsilon
  }

  /** The command asks for motion, and the views of mode and safety allow it. */
  predicate Moves(cfg: Config, s: State, cmd: Twist) {
    && !(Small(cfg, cmd.lx) && Small(cfg, cmd.az))
    && s.activeMode in {Teleop, Autonomy, AiPolicy} && s.safetyState in {Ok, Warn}
  }

  /**
   An approved command that moves the robot does so at its own velocities; every other one brings it to rest,
   or switches it off in a parking mode. Either way its time is noted.
   */
  lemma CommandIsObeyed(cfg: Config, s: State, cmd: Twist, now: Time)
    ensures var l := OnApproved(cfg, s, cmd, now);
      && l.lastCommandAt == Some(now) && l.activeMode == s.activeMode && l.safetyState == s.safetyState
      && if Moves(cfg, s, cmd) then
           && l.linear == cmd.lx && l.angular == cmd.az && l.constraints == [] && l.stopStartedAt.None?
           && l.state == (if Small(cfg, cmd.lx) then Turning else Walking)
         else
           && AtRest(l) && (l.state == LocoInactive <==> s.activeMode in {Inactive, Maintenance})
  {}

  /** The callback gives a reason to stop, in a mode that does not switch the robot off. */
  predicate Stops(cfg: Config, s: State, e: Event, now: Time) {
    && s.activeMode !in {Inactive, Maintenance}
    && match e
       case Approved(cmd) => !Moves(cfg, s, cmd)
       case Timer => MustHalt(s) || TimedOut(cfg, s, now)
       case _ => false
  }

  /** When the stop began that a reason to stop at `now` continues, or begins. */
  function StopStart(s: State, now: Time): Time {
    if s.state in {Stopping, Standing} && s.stopStartedAt.Some? then s.stopStartedAt.value else now
  }

  /** A reason to stop begins a stop there and then, unless one is under way or settled; it settles in its time. */
  lemma StopBeginsOnce(cfg: Config, s: State, e: Event, now: Time)
    requires Stops(cfg, s, e, now)
    ensures var l := Step(cfg, s, e, now);
      && AtRest(l) && l.stopStartedAt == Some(StopStart(s, now))
      && l.state == if now >= StopStart(s, now) + cfg.settleTime then Standing else Stopping
  {}

  /** The constraint listed after a timer callback names the first obstacle: mode, safety, then the command. */
  lemma ConstraintNamesObstacle(cfg: Config, s: State, now: Time)
    ensures var c := Tick(cfg, s, now).constraints;
      && (s.activeMode in {Inactive, Maintenance} ==> c == [ModeInactive])
      && (s.activeMode in {ModeFault, Shutdown} ==> c == [ModeBlocks])
      && (!MustHalt(s) && s.lastCommandAt.None? ==> c == [WaitingForCommand] && Tick(cfg, s, now).state == Standing)
      && (s.activeMode !in {Inactive, Maintenance, ModeFault, Shutdown} && s.safetyState !in {Ok, Warn} ==>
            c == [SafetyBlocks])
      && (IsActive(s.activeMode) && s.safetyState in {Ok, Warn} && TimedOut(cfg, s, now) ==>
            c == if Tick(cfg, s, now).state == Standing then [] else [CommandTimeout])
  {}

  /**
   After every timer callback a robot that may not move says why -- except in one case, which needs a
   mode the mode manager never publishes: MODE_UNKNOWN with clear safety, a fresh command and nothing
   listed before.
   */
  lemma BlockedTickExplains(cfg: Config, s: State, now: Time)
    requires Consistent(cfg, s)
    ensures (OutputBlocked(Tick(cfg, s, now)) ==> Tick(cfg, s, now).constraints != [])
            <==> !(s.activeMode == ModeUnknown && IsClear(s.safetyState) && s.constraints == []
                   && s.lastCommandAt.Some? && now - s.lastCommandAt.value <= cfg.commandTimeout)
  {}

  // ---------------------------------------------------------------- settling

  datatype Timed = Timed(event: Event, now: Time)

  function Run(cfg: Config, s: State, es: seq<Timed>): State {
    if es == [] then s
    else var i := |es| - 1; Step(cfg, Run(cfg, s, es[..i]), es[i].event, es[i].now)
  }

  /** The event may set the robot in motion in this state. */
  predicate StartsMotion(cfg: Config, s: State, e: Event) {
    e.Approved? && !IsStopCommand(cfg, e.cmd) && !OutputBlocked(s)
  }

  /** No event of the run parks the adapter or starts motion. */
  ghost predicate Undisturbed(cfg: Config, s: State, es: seq<Timed>) {
    es == [] ||
    var i := |es| - 1;
    && Undisturbed(cfg, s, es[..i])
    && !StartsMotion(cfg, Run(cfg, s, es[..i]), es[i].event)
    && (es[i].event.ModeState? ==> !Parked(es[i].event.mode))
  }

  predicate Clocked(es: seq<Timed>) {
    forall i, j | 0 <= i < j < |es| :: es[i].now <= es[j].now
  }

  /** Nothing in an undisturbed run moves the start of a stop. */
  lemma {:induction false} StopStartIsKept(cfg: Config, s: State, es: seq<Timed>)
    requires s.state == Stopping && s.stopStartedAt.Some? && !Parked(s.activeMode)
    requires Undisturbed(cfg, s, es)
    ensures var s' := Run(cfg, s, es);
      s'.state in {Stopping, Standing} && s'.stopStartedAt == s.stopStartedAt && !Parked(s'.activeMode)
  {
    if es == [] {
    } else {
      StopStartIsKept(cfg, s, es[..|es| - 1]);
    }
  }

  /** A robot that has been commanded stands only once the stop has had its time. */
  lemma {:induction false} StandsOnlyWhenDue(cfg: Config, s: State, es: seq<Timed>)
    requires s.state == Stopping && s.stopStartedAt.Some? && !Parked(s.activeMode)
    requires Undisturbed(cfg, s, es) && Clocked(es)
    requires s.lastCommandAt.Some?
    ensures Run(cfg, s, es).lastCommandAt.Some?
    ensures Run(cfg, s, es).state == Standing ==>
              es != [] && es[|es| - 1].now >= s.stopStartedAt.value + cfg.settleTime
  {
    if es == [] {
    } else {
      StandsOnlyWhenDue(cfg, s, es[..|es| - 1]);
      StopStartIsKept(cfg, s, es[..|es| - 1]);
    }
  }

  /** One settle-checking callback, seen from a stop under way or already settled. */
  lemma SettleStep(cfg: Config, s: State, e: Event, now: Time)
    requires s.state in {Stopping, Standing} && s.stopStartedAt.Some? && !Parked(s.activeMode)
    requires e.Timer? || e.Approved?
    requires !StartsMotion(cfg, s, e)
    ensures now >= s.stopStartedAt.value + cfg.settleTime ==> Step(cfg, s, e, now).state == Standing
    ensures now < s.stopStartedAt.value + cfg.settleTime && s.state == Stopping && s.lastCommandAt.Some? ==>
              Step(cfg, s, e, now).state == Stopping
  {}

  lemma ClockedPrefix(es: seq<Timed>, last: Timed)
    requires Clocked(es + [last])
    ensures Clocked(es) && (es != [] ==> es[|es| - 1].now <= last.now)
  {
    var all := es + [last];
    assert forall i | 0 <= i < |es| :: all[i] == es[i];
    assert es != [] ==> all[|es| - 1].now <= all[|es|].now;
  }

  /**
   However often stop reasons repeat, a timer callback or command at or after `settleTime` from the
   start of the stop stands the robot; once the robot has been commanded, an earlier one does not.
   */
  lemma {:induction false} SettlesOnTime(cfg: Config, s: State, es: seq<Timed>, e: Event, now: Time)
    requires s.state == Stopping && s.stopStartedAt.Some? && !Parked(s.activeMode)
    requires Undisturbed(cfg, s, es + [Timed(e, now)]) && Clocked(es + [Timed(e, now)])
    requires e.Timer? || e.Approved?
    ensures now >= s.stopStartedAt.value + cfg.settleTime ==> Step(cfg, Run(cfg, s, es), e, now).state == Standing
    ensures s.lastCommandAt.Some? && now < s.stopStartedAt.value + cfg.settleTime ==>
              Step(cfg, Run(cfg, s, es), e, now).state == Stopping
  {
    assert (es + [Timed(e, now)])[..|es|] == es;
    ClockedPrefix(es, Timed(e, now));
    StopStartIsKept(cfg, s, es);
    SettleStep(cfg, Run(cfg, s, es), e, now);
    if s.lastCommandAt.Some? { StandsOnlyWhenDue(cfg, s, es); }
  }

  // ---------------------------------------------------------------- the node

  class LocomotionNode {
    const cfg: Config
    var activeMode: Mode
    var safetyState: Safety
    var lastCommandAt: Option<Time>
    var stopStartedAt: Option<Time>
    var state: Loco
    var linear: real
    var angular: real
    var constraints: seq<Constraint>

    ghost function View(): State
      reads this
    {
      State(activeMode, safetyState, lastCommandAt, stopStartedAt, state, linear, angular, constraints)
    }

    constructor (cfg: Config)
      ensures this.cfg == cfg && View() == INITIAL
    {
      this.cfg := cfg;
      activeMode, safetyState := Inactive, SafetyUnknown;
      lastCommandAt, stopStartedAt := None, None;
      state, linear, angular := LocoInactive, 0.0, 0.0;
      constraints := [WaitingForMode, WaitingForSafety];
    }

    method OnModeState(mode: Mode)
      modifies this
      ensures View() == OnMode(old(View()), mode)
    {
      activeMode := mode;
    }

    method OnSafetyState(safety: Safety)
      modifies this
      ensures View() == OnSafety(old(View()), safety)
    {
      safetyState := safety;
    }

    predicate IsOutputBlocked()
      reads this
      ensures IsOutputBlocked() == OutputBlocked(View())
    {
      activeMode !in {Teleop, Autonomy, AiPolicy} || safetyState !in {Ok, Warn}
    }

    method SettleStopIfReady(now: Time)
      modifies this
      ensures View() == Settle(cfg, old(View()), now)
    {
      if state != Stopping { return; }
      if stopStartedAt.None? { return; }
      if now - stopStartedAt.value >= cfg.settleTime {
        state := Standing;
        if !IsOutputBlocked() { constraints := []; }
      }
    }

    method StartStop(reason: Constraint, now: Time)
      modifies this
      ensures View() == BeginStop(cfg, old(View()), reason, now)
    {
      if activeMode in {Inactive, Maintenance} {
        state := LocoInactive;
        constraints := [ModeInactive];
        stopStartedAt := None;
        return;
      }
      if state !in {Stopping, Standing} {
        stopStartedAt := Some(now);
      } else if stopStartedAt.None? {
        stopStartedAt := Some(now);
      }
      state := Stopping;
      constraints := [reason];
      SettleStopIfReady(now);
    }

    method OnApprovedCommand(cmd: Twist, now: Time)
      modifies this
      ensures View() == OnApproved(cfg, old(View()), cmd, now)
    {
      lastCommandAt := Some(now);
      if Abs(cmd.lx) <= cfg.epsilon && Abs(cmd.az) <= cfg.epsilon {
        linear, angular := 0.0, 0.0;
        StartStop(ApprovedStop, now);
        return;
      }
      if IsOutputBlocked() {
        linear, angular := 0.0, 0.0;
        StartStop(RuntimeBlocks, now);
        return;
      }
      stopStartedAt := None;
      linear, angular := cmd.lx, cmd.az;
      if Abs(cmd.lx) > cfg.epsilon { state := Walking; } else { state := Turning; }
      constraints := [];
    }

    method OnTimer(now: Time) returns (published: Loco, publishedConstraints: seq<Constraint>)
      modifies this
      ensures View() == Tick(cfg, old(View()), now)
      ensures published == View().state && publishedConstraints == View().constraints
    {
      UpdateStateForRuntime(now);
      published, publishedConstraints := state, constraints;
    }

    method UpdateStateForRuntime(now: Time)
      modifies this
      ensures View() == Tick(cfg, old(View()), now)
      ensures MustHalt(old(View())) ==> AtRest(View())
    {
      if activeMode in {Inactive, Maintenance} {
        linear, angular := 0.0, 0.0;
        state := LocoInactive;
        constraints := [ModeInactive];
        stopStartedAt := None;
        return;
      }
      if activeMode in {ModeFault, Shutdown} {
        linear, angular := 0.0, 0.0;
        StartStop(ModeBlocks, now);
        return;
      }
      if safetyState in {SafetyUnknown, SafetyFault, Estop, Mrm} {
        linear, angular := 0.0, 0.0;
        StartStop(SafetyBlocks, now);
        return;
      }
      if lastCommandAt.None? {
        state := Standing;
        constraints := [WaitingForCommand];
        return;
      }
      if now - lastCommandAt.value > cfg.commandTimeout {
        linear, angular := 0.0, 0.0;
        StartStop(CommandTimeout, now);
        return;
      }
      SettleStopIfReady(now);
    }
  }
}
