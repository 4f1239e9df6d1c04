/**
 The command arbiter: candidate velocities are gated by safety, mode, priority and freshness.
 Pure step functions first, then the node that computes them in place.
 */
module CommandArbiter {
  import opened Messages

  datatype CandidateSource = FromTeleop | FromAutonomy | FromAiPolicy

  datatype ActiveSource = NoSource | SafetySource | CandidateFrom(source: CandidateSource)

  datatype Reason =
    WaitingForSafety | SafetyBlocks | SafetyNotReady | ModeBlocks | NoFreshCommand | Approved

  datatype Candidate = Candidate(source: CandidateSource, requiredMode: Mode, msg: Twist, receivedAt: Time)

  datatype Config = Config(
    timeout: Duration, maxLinear: real, maxAngular: real, publishStopOnBlock: bool)

  datatype State = State(
    activeMode: Mode, safetyState: Safety, lastSafety: Option<Safety>,
    candidates: map<CandidateSource, Candidate>)

  datatype ArbitrationState = ArbitrationState(
    activeSource: ActiveSource, activeMode: Mode, safetyState: Safety, outputEnabled: bool,
    stopPublished: bool, lastCommandTime: Option<Time>, reason: Reason)

  datatype Output = Output(approved: Option<Twist>, state: ArbitrationState)

  const SOURCE_PRIORITY: seq<CandidateSource> := [FromTeleop, FromAutonomy, FromAiPolicy]

  const INITIAL := State(Inactive, SafetyUnknown, None, map[])

  /** The mode each subscription demands of its candidates. */
  function RequiredMode(source: CandidateSource): Mode {
    match source
    case FromTeleop => Teleop
    case FromAutonomy => Autonomy
    case FromAiPolicy => AiPolicy
  }

  /** Why nothing may be approved whatever the candidates are, if so. */
  function GateReason(mode: Mode, safetySeen: bool, safety: Safety): Option<Reason> {
    if !safetySeen then Some(WaitingForSafety)
    else if safety in {SafetyFault, Estop, Mrm} then Some(SafetyBlocks)
    else if !IsClear(safety) then Some(SafetyNotReady)
    else if mode in {Inactive, Maintenance, ModeFault, Shutdown} then Some(ModeBlocks)
    else None
  }

  predicate Eligible(
    source: CandidateSource, mode: Mode, candidates: map<CandidateSource, Candidate>,
    now: Time, timeout: Duration)
  {
    source in candidates
    && candidates[source].requiredMode == mode
    && now - candidates[source].receivedAt <= timeout
  }

  /** The candidate of the first eligible source, in the given priority order. */
  function FirstEligible(
    order: seq<CandidateSource>, mode: Mode, candidates: map<CandidateSource, Candidate>,
    now: Time, timeout: Duration): Option<Candidate>
  {
    if order == [] then None
    else if Eligible(order[0], mode, candidates, now, timeout) then Some(candidates[order[0]])
    else FirstEligible(order[1..], mode, candidates, now, timeout)
  }

  function Select(cfg: Config, s: State, now: Time): (Option<Candidate>, Reason) {
    var gate := GateReason(s.activeMode, s.lastSafety.Some?, s.safetyState);
    if gate.Some? then (None, gate.value)
    else
      var first := FirstEligible(SOURCE_PRIORITY, s.activeMode, s.candidates, now, cfg.timeout);
      (first, if first.Some? then Approved else NoFreshCommand)
  }

  predicate ShouldPublishStop(reason: Reason, publishStopOnBlock: bool) {
    publishStopOnBlock && reason in {SafetyBlocks, SafetyNotReady, ModeBlocks, NoFreshCommand}
  }

  function ClampVelocity(msg: Twist, maxLinear: real, maxAngular: real): Twist {
    Twist(Clamp(msg.lx, -maxLinear, maxLinear), Clamp(msg.ly, -maxLinear, maxLinear), 0.0,
          0.0, 0.0, Clamp(msg.az, -maxAngular, maxAngular))
  }

  function OnMode(s: State, mode: Mode): State {
    s.(activeMode := mode)
  }

  function OnSafety(s: State, safety: Safety): State {
    s.(safetyState := safety, lastSafety := Some(safety))
  }

  function OnCandidate(s: State, source: CandidateSource, msg: Twist, now: Time): State {
    s.(candidates := s.candidates[source := Candidate(source, RequiredMode(source), msg, now)])
  }

  /** What one timer callback publishes; the callback changes no field. */
  function TickOutput(cfg: Config, s: State, now: Time): Output {
    var (candidate, reason) := Select(cfg, s, now);
    if candidate.Some? then
      Output(Some(ClampVelocity(candidate.value.msg, cfg.maxLinear, cfg.maxAngular)),
             ArbitrationState(CandidateFrom(candidate.value.source), s.activeMode, s.safetyState,
                              true, false, Some(candidate.value.receivedAt), Approved))
    else if ShouldPublishStop(reason, cfg.publishStopOnBlock) then
      Output(Some(ZERO),
             ArbitrationState(SafetySource, s.activeMode, s.safetyState, false, true, None, reason))
    else
      Output(None,
             ArbitrationState(NoSource, s.activeMode, s.safetyState, false, false, None, reason))
  }

  // ---------------------------------------------------------------- properties

  /** Every stored candidate sits under its own source and carries that source's mode. */
  ghost predicate WellKeyed(candidates: map<CandidateSource, Candidate>) {
    forall src | src in candidates ::
      candidates[src].source == src && candidates[src].requiredMode == RequiredMode(src)
  }

  /** The candidate a direct lookup by mode finds, with no priority order involved. */
  ghost function ByMode(
    mode: Mode, candidates: map<CandidateSource, Candidate>, now: Time, timeout: Duration)
    : Option<Candidate>
  {
    if exists src :: RequiredMode(src) == mode && Eligible(src, mode, candidates, now, timeout) then
      var src :| RequiredMode(src) == mode && Eligible(src, mode, candidates, now, timeout);
      Some(candidates[src])
    else None
  }

  lemma {:induction false} FirstEligibleFinds(
    order: seq<CandidateSource>, mode: Mode, candidates: map<CandidateSource, Candidate>,
    now: Time, timeout: Duration)
    ensures match FirstEligible(order, mode, candidates, now, timeout)
            case Some(c) => exists src :: src in order && Eligible(src, mode, candidates, now, timeout)
                                          && c == candidates[src]
            case None => forall src | src in order :: !Eligible(src, mode, candidates, now, timeout)
  {
    if order == [] {
    } else {
      FirstEligibleFinds(order[1..], mode, candidates, now, timeout);
      assert order == [order[0]] + order[1..];
    }
  }

  /** Priority never decides anything: any order that lists all sources equals lookup by mode. */
  lemma PriorityIsLookup(
    order: seq<CandidateSource>, mode: Mode, candidates: map<CandidateSource, Candidate>,
    now: Time, timeout: Duration)
    requires WellKeyed(candidates)
    requires forall src: CandidateSource :: src in order
    ensures FirstEligible(order, mode, candidates, now, timeout)
            == ByMode(mode, candidates, now, timeout)
  {
    FirstEligibleFinds(order, mode, candidates, now, timeout);
    forall a, b | RequiredMode(a) == RequiredMode(b) ensures a == b {}
  }

  ghost predicate WithinLimits(cfg: Config, t: Twist) {
    -cfg.maxLinear <= t.lx <= cfg.maxLinear && -cfg.maxLinear <= t.ly <= cfg.maxLinear
    && -cfg.maxAngular <= t.az <= cfg.maxAngular
    && t.lz == 0.0 && t.ax == 0.0 && t.ay == 0.0
  }

  /** Clamping lands within the limits and leaves alone exactly what is already there. */
  lemma ClampVelocityIsProjection(cfg: Config, msg: Twist)
    requires cfg.maxLinear >= 0.0 && cfg.maxAngular >= 0.0
    ensures WithinLimits(cfg, ClampVelocity(msg, cfg.maxLinear, cfg.maxAngular))
    ensures ClampVelocity(msg, cfg.maxLinear, cfg.maxAngular) == msg <==> WithinLimits(cfg, msg)
  {}

  /** Axis by axis, `out` is `msg` held within the limits; the axes not used are zero. */
  predicate LimitedTo(cfg: Config, msg: Twist, out: Twist) {
    && Limited(msg.lx, cfg.maxLinear, out.lx) && Limited(msg.ly, cfg.maxLinear, out.ly)
    && Limited(msg.az, cfg.maxAngular, out.az)
    && out.lz == 0.0 && out.ax == 0.0 && out.ay == 0.0
  }

  /** Clamping does exactly this, for every command and all limits. */
  lemma ClampVelocityLimits(cfg: Config, msg: Twist, out: Twist)
    ensures out == ClampVelocity(msg, cfg.maxLinear, cfg.maxAngular) <==> LimitedTo(cfg, msg, out)
  {
    ClampLimits(msg.lx, cfg.maxLinear, out.lx);
    ClampLimits(msg.ly, cfg.maxLinear, out.ly);
    ClampLimits(msg.az, cfg.maxAngular, out.az);
  }

  lemma LimitedIsWithin(cfg: Config, msg: Twist, out: Twist)
    requires cfg.maxLinear >= 0.0 && cfg.maxAngular >= 0.0 && LimitedTo(cfg, msg, out)
    ensures WithinLimits(cfg, out)
  {}

  /** Teleoperation, autonomy and the AI policy each drive in their own mode. */
  predicate Drives(src: CandidateSource, mode: Mode) {
    || (src == FromTeleop && mode == Teleop)
    || (src == FromAutonomy && mode == Autonomy)
    || (src == FromAiPolicy && mode == AiPolicy)
  }

  lemma DrivesInRequiredMode(src: CandidateSource, mode: Mode)
    ensures Drives(src, mode) <==> RequiredMode(src) == mode
  {}

  /** `src` has a candidate received recently enough, and its mode is the one in force. */
  ghost predicate FreshFor(cfg: Config, s: State, src: CandidateSource, now: Time) {
    Drives(src, s.activeMode) && src in s.candidates
    && now - s.candidates[src].receivedAt <= cfg.timeout
  }

  /** Output is enabled exactly when safety is clear and the source of the mode in force is fresh. */
  lemma OutputEnabledIff(cfg: Config, s: State, now: Time)
    requires WellKeyed(s.candidates)
    ensures TickOutput(cfg, s, now).state.outputEnabled <==>
            s.lastSafety.Some? && IsClear(s.safetyState) && exists src :: FreshFor(cfg, s, src, now)
  {
    FirstEligibleFinds(SOURCE_PRIORITY, s.activeMode, s.candidates, now, cfg.timeout);
    forall src | FreshFor(cfg, s, src, now)
      ensures src in SOURCE_PRIORITY && Eligible(src, s.activeMode, s.candidates, now, cfg.timeout)
    {
      match src
      case FromTeleop => assert SOURCE_PRIORITY[0] == src;
      case FromAutonomy => assert SOURCE_PRIORITY[1] == src;
      case FromAiPolicy => assert SOURCE_PRIORITY[2] == src;
    }
    forall src | src in SOURCE_PRIORITY && Eligible(src, s.activeMode, s.candidates, now, cfg.timeout)
      ensures FreshFor(cfg, s, src, now)
    {}
  }

  /** An enabled output is the clamped command of the one fresh source of the mode in force. */
  lemma EnabledOutput(cfg: Config, s: State, src: CandidateSource, now: Time)
    requires WellKeyed(s.candidates)
    requires TickOutput(cfg, s, now).state.outputEnabled
    requires Drives(src, s.activeMode)
    ensures FreshFor(cfg, s, src, now)
    ensures var out := TickOutput(cfg, s, now);
      && out.approved.Some? && LimitedTo(cfg, s.candidates[src].msg, out.approved.value)
      && out.state == ArbitrationState(CandidateFrom(src), s.activeMode, s.safetyState, true, false,
                                       Some(s.candidates[src].receivedAt), Approved)
  {
    FirstEligibleFinds(SOURCE_PRIORITY, s.activeMode, s.candidates, now, cfg.timeout);
    ClampVelocityLimits(cfg, s.candidates[src].msg, TickOutput(cfg, s, now).approved.value);
  }

  /** A disabled output is a stop or silence; which one depends on the configuration alone. */
  lemma DisabledOutput(cfg: Config, s: State, now: Time)
    requires !TickOutput(cfg, s, now).state.outputEnabled
    ensures TickOutput(cfg, s, now).approved
            == if s.lastSafety.Some? && cfg.publishStopOnBlock then Some(ZERO) else None
    ensures var state := TickOutput(cfg, s, now).state;
      && state.activeMode == s.activeMode && state.safetyState == s.safetyState && state.lastCommandTime.None?
      && state.stopPublished == (s.lastSafety.Some? && cfg.publishStopOnBlock)
      && state.activeSource == (if state.stopPublished then SafetySource else NoSource)
  {}

  /** The published reason names the first obstacle: safety unseen, safety, mode, and then the candidates. */
  lemma ReasonNamesObstacle(cfg: Config, s: State, now: Time)
    ensures var state := TickOutput(cfg, s, now).state;
      && (state.reason == Approved <==> state.outputEnabled)
      && (state.reason == WaitingForSafety <==> s.lastSafety.None?)
      && (state.reason == SafetyBlocks <==> s.lastSafety.Some? && s.safetyState in {SafetyFault, Estop, Mrm})
      && (state.reason == SafetyNotReady <==> s.lastSafety.Some? && s.safetyState == SafetyUnknown)
      && (state.reason == ModeBlocks <==>
            && s.lastSafety.Some? && s.safetyState in {Ok, Warn}
            && s.activeMode in {Inactive, Maintenance, ModeFault, Shutdown})
  {}

  // ---------------------------------------------------------------- the node

  class CommandArbiterNode {
    const cfg: Config
    var activeMode: Mode
    var safetyState: Safety
    var lastSafety: Option<Safety>
    var candidates: map<CandidateSource, Candidate>

    ghost function View(): State
      reads this
    {
      State(activeMode, safetyState, lastSafety, candidates)
    }

    constructor (cfg: Config)
      ensures this.cfg == cfg && View() == INITIAL
    {
      this.cfg := cfg;
      activeMode := Inactive;
      safetyState := SafetyUnknown;
      lastSafety := None;
      candidates := map[];
    }

    method OnModeState(mode: Mode)
      modifies this
      ensures View() == OnMode(old(View()), mode)
    {
      activeMode := mode;
    }

    method OnSafetyState(safety: Safety)
      modifies this
      ensures View() == OnSafety(old(View()), safety)
    {
      lastSafety := Some(safety);
      safetyState := safety;
    }

    method StoreCandidate(source: CandidateSource, requiredMode: Mode, msg: Twist, now: Time)
      modifies this
      ensures View() == old(View()).(candidates :=
                old(candidates)[source := Candidate(source, requiredMode, msg, now)])
    {
      candidates := candidates[source := Candidate(source, requiredMode, msg, now)];
    }

    method OnTeleopCommand(msg: Twist, now: Time)
      modifies this
      ensures View() == OnCandidate(old(View()), FromTeleop, msg, now)
    {
      StoreCandidate(FromTeleop, Teleop, msg, now);
    }

    method OnAutonomyCommand(msg: Twist, now: Time)
      modifies this
      ensures View() == OnCandidate(old(View()), FromAutonomy, msg, now)
    {
      StoreCandidate(FromAutonomy, Autonomy, msg, now);
    }

    method OnPolicyCommand(msg: Twist, now: Time)
      modifies this
      ensures View() == OnCandidate(old(View()), FromAiPolicy, msg, now)
    {
      StoreCandidate(FromAiPolicy, AiPolicy, msg, now);
    }

    method SelectCandidate(now: Time) returns (candidate: Option<Candidate>, reason: Reason)
      ensures (candidate, reason) == Select(cfg, View(), now)
    {
      if lastSafety.None? { return None, WaitingForSafety; }
      if safetyState in {SafetyFault, Estop, Mrm} { return None, SafetyBlocks; }
      if safetyState !in {Ok, Warn} { return None, SafetyNotReady; }
      if activeMode in {Inactive, Maintenance, ModeFault, Shutdown} { return None, ModeBlocks; }
      for i := 0 to |SOURCE_PRIORITY|
        invariant FirstEligible(SOURCE_PRIORITY, activeMode, candidates, now, cfg.timeout)
                  == FirstEligible(SOURCE_PRIORITY[i..], activeMode, candidates, now, cfg.timeout)
      {
        var source := SOURCE_PRIORITY[i];
        if source !in candidates { continue; }
        if candidates[source].requiredMode != activeMode { continue; }
        if now - candidates[source].receivedAt <= cfg.timeout {
          return Some(candidates[source]), Approved;
        }
      }
      return None, NoFreshCommand;
    }

    method Tick(now: Time) returns (approved: Option<Twist>, state: ArbitrationState)
      ensures Output(approved, state) == TickOutput(cfg, View(), now)
      ensures state.outputEnabled ==>
                approved.Some? && exists src :: src in candidates && LimitedTo(cfg, candidates[src].msg, approved.value)
    {
      var candidate, reason := SelectCandidate(now);
      if candidate.None? {
        if ShouldPublishStop(reason, cfg.publishStopOnBlock) {
          approved := Some(ZERO);
          state := ArbitrationState(SafetySource, activeMode, safetyState, false, true, None, reason);
        } else {
          approved := None;
          state := ArbitrationState(NoSource, activeMode, safetyState, false, false, None, reason);
        }
        return;
      }
      FirstEligibleFinds(SOURCE_PRIORITY, activeMode, candidates, now, cfg.timeout);
      approved := Some(ClampVelocity(candidate.value.msg, cfg.maxLinear, cfg.maxAngular));
      ClampVelocityLimits(cfg, candidate.value.msg, approved.value);
      state := ArbitrationState(CandidateFrom(candidate.value.source), activeMode, safetyState,
                                true, false, Some(candidate.value.receivedAt), Approved);
    }
  }
}
