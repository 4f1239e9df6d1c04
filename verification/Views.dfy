/** Every field a node keeps of what it hears holds the newest such thing -- in every run. */
module Views {
  import opened Messages
  import opened Runtime
  import opened BoundedStop
  import opened Deliveries
  import SafetyManager

  /** A view shows the newest message heard, or its start-up value before one. */
  predicate Shows(newest: Option<Receipt>, initial: Payload, view: Payload) {
    view == if newest.Some? then newest.value.msg.value else initial
  }

  function TimeOf(newest: Option<Receipt>): Option<Time> {
    if newest.Some? then Some(newest.value.at) else None
  }

  // ---------------------------------------------------------------- modes

  lemma ModeViewStep(c: Config, s: State, e: Event)
    ensures var s', n := Apply(c, s, e), s.net;
      && s'.safety.activeMode == (if e == Deliver(ModeToSafety) && n.modeToSafety != [] then n.modeToSafety[0].value
                                  else s.safety.activeMode)
      && s'.arbiter.activeMode == (if e == Deliver(ModeToArbiter) && n.modeToArbiter != [] then n.modeToArbiter[0].value
                                   else s.arbiter.activeMode)
      && s'.loco.activeMode == (if e == Deliver(ModeToLoco) && n.modeToLoco != [] then n.modeToLoco[0].value
                                else s.loco.activeMode)
      && s'.gate.activeMode == (if e == Deliver(ModeToGate) && n.modeToGate != [] then n.modeToGate[0].value
                                else s.gate.activeMode)
  {}

  /** Safety manager, arbiter, adapter and gate view the newest mode they heard of. */
  lemma {:induction false} ModeViewsAreNewest(w: World, h: History)
    ensures var s := At(w, h);
      && Shows(Newest(w, h, ModeToSafety), ModeIs(Inactive), ModeIs(s.safety.activeMode))
      && Shows(Newest(w, h, ModeToArbiter), ModeIs(Inactive), ModeIs(s.arbiter.activeMode))
      && Shows(Newest(w, h, ModeToLoco), ModeIs(Inactive), ModeIs(s.loco.activeMode))
      && Shows(Newest(w, h, ModeToGate), ModeIs(Inactive), ModeIs(s.gate.activeMode))
  {
    match h
    case Start =>
    case Then(before, e) =>
      ModeViewsAreNewest(w, before);
      ModeViewStep(w.cfg, At(w, before), e);
  }

  // ---------------------------------------------------------------- safety and MRM

  lemma DeciderViewStep(c: Config, s: State, e: Event)
    ensures var s', n := Apply(c, s, e), s.net;
      && (if e == Deliver(SafetyToMode) && n.safetyToMode != []
          then s'.mode.safetySeen && s'.mode.safetyState == n.safetyToMode[0].value
          else s'.mode.safetySeen == s.mode.safetySeen && s'.mode.safetyState == s.mode.safetyState)
      && (if e == Deliver(SafetyToArbiter) && n.safetyToArbiter != []
          then s'.arbiter.lastSafety.Some? && s'.arbiter.safetyState == n.safetyToArbiter[0].value
          else s'.arbiter.lastSafety == s.arbiter.lastSafety && s'.arbiter.safetyState == s.arbiter.safetyState)
  {}

  /** Mode manager and arbiter view the newest safety state they heard of, and know whether there was one. */
  lemma {:induction false} DeciderViewsAreNewest(w: World, h: History)
    ensures var s := At(w, h);
      && Shows(Newest(w, h, SafetyToMode), SafetyIs(SafetyUnknown), SafetyIs(s.mode.safetyState))
      && Shows(Newest(w, h, SafetyToArbiter), SafetyIs(SafetyUnknown), SafetyIs(s.arbiter.safetyState))
      && s.mode.safetySeen == Newest(w, h, SafetyToMode).Some?
      && s.arbiter.lastSafety.Some? == Newest(w, h, SafetyToArbiter).Some?
  {
    match h
    case Start =>
    case Then(before, e) =>
      DeciderViewsAreNewest(w, before);
      DeciderViewStep(w.cfg, At(w, before), e);
  }

  lemma ActuatorViewStep(c: Config, s: State, e: Event)
    ensures var s', n := Apply(c, s, e), s.net;
      && s'.loco.safetyState == (if e == Deliver(SafetyToLoco) && n.safetyToLoco != [] then n.safetyToLoco[0].value
                                 else s.loco.safetyState)
      && s'.gate.safetyState == (if e == Deliver(SafetyToGate) && n.safetyToGate != [] then n.safetyToGate[0].value
                                 else s.gate.safetyState)
  {}

  /** Adapter and gate view the newest safety state they heard of. */
  lemma {:induction false} ActuatorViewsAreNewest(w: World, h: History)
    ensures var s := At(w, h);
      && Shows(Newest(w, h, SafetyToLoco), SafetyIs(SafetyUnknown), SafetyIs(s.loco.safetyState))
      && Shows(Newest(w, h, SafetyToGate), SafetyIs(SafetyUnknown), SafetyIs(s.gate.safetyState))
  {
    match h
    case Start =>
    case Then(before, e) =>
      ActuatorViewsAreNewest(w, before);
      ActuatorViewStep(w.cfg, At(w, before), e);
  }

  lemma MrmViewStep(c: Config, s: State, e: Event)
    ensures Apply(c, s, e).gate.mrmState
            == if e == Deliver(MrmToGate) && s.net.mrmToGate != [] then s.net.mrmToGate[0].value else s.gate.mrmState
  {}

  /** The gate views the newest MRM state it heard of. */
  lemma {:induction false} MrmViewIsNewest(w: World, h: History)
    ensures Shows(Newest(w, h, MrmToGate), MrmIs(MrmNone), MrmIs(At(w, h).gate.mrmState))
  {
    match h
    case Start =>
    case Then(before, e) =>
      MrmViewIsNewest(w, before);
      MrmViewStep(w.cfg, At(w, before), e);
  }

  // ---------------------------------------------------------------- commands and flags

  lemma GateViewStep(c: Config, s: State, e: Event)
    ensures var g, g', n := s.gate, Apply(c, s, e).gate, s.net;
      && (if e == Deliver(ApprovedToGate) && n.approvedToGate != []
          then g'.lastApproved == Some(n.approvedToGate[0].value) && g'.lastApprovedAt == Some(s.now)
          else g'.lastApproved == g.lastApproved && g'.lastApprovedAt == g.lastApprovedAt)
      && (if e == Deliver(OutputToGate) && n.outputToGate != []
          then g'.arbitration == Some(n.outputToGate[0].value) && g'.lastArbitrationAt == Some(s.now)
          else g'.arbitration == g.arbitration && g'.lastArbitrationAt == g.lastArbitrationAt)
  {}

  /** The gate holds the newest command it heard, with its time. */
  lemma {:induction false} GateCommandIsNewest(w: World, h: History)
    ensures var g, command := At(w, h).gate, Newest(w, h, ApprovedToGate);
      && g.lastApprovedAt == TimeOf(command) && g.lastApproved.Some? == command.Some?
      && (command.Some? ==> command.value.msg.value == Command(g.lastApproved.value))
  {
    match h
    case Start =>
    case Then(before, e) =>
      GateCommandIsNewest(w, before);
      GateViewStep(w.cfg, At(w, before), e);
  }

  /** The gate holds the newest output flag it heard of, with its time. */
  lemma {:induction false} GateFlagIsNewest(w: World, h: History)
    ensures var g, flag := At(w, h).gate, Newest(w, h, OutputToGate);
      && g.lastArbitrationAt == TimeOf(flag) && g.arbitration.Some? == flag.Some?
      && (flag.Some? ==> flag.value.msg.value == Enabled(g.arbitration.value))
  {
    match h
    case Start =>
    case Then(before, e) =>
      GateFlagIsNewest(w, before);
      GateViewStep(w.cfg, At(w, before), e);
  }

  lemma CommandTimeStep(c: Config, s: State, e: Event)
    ensures Apply(c, s, e).loco.lastCommandAt
            == if e == Deliver(ApprovedToLoco) && s.net.approvedToLoco != [] then Some(s.now) else s.loco.lastCommandAt
    ensures Apply(c, s, e).safety.approvedAt
            == if e == Deliver(ApprovedToSafety) && s.net.approvedToSafety != [] then Some(s.now)
               else s.safety.approvedAt
  {}

  lemma BeatStep(c: Config, s: State, e: Event)
    ensures Apply(c, s, e).safety.teleopAt == if e.TeleopHeartbeat? then Some(s.now) else s.safety.teleopAt
    ensures Apply(c, s, e).safety.hardwareAt == if e.HardwareHeartbeat? then Some(s.now) else s.safety.hardwareAt
  {}

  /** When the operator, or the hardware, showed a sign of life last. */
  function TeleopBeat(w: World, h: History): Option<Time> {
    match h
    case Start => None
    case Then(before, e) => if e.TeleopHeartbeat? then Some(At(w, before).now) else TeleopBeat(w, before)
  }

  function HardwareBeat(w: World, h: History): Option<Time> {
    match h
    case Start => None
    case Then(before, e) => if e.HardwareHeartbeat? then Some(At(w, before).now) else HardwareBeat(w, before)
  }

  /** The heartbeat times the watchdogs go by are those of the newest heartbeat of each kind. */
  lemma {:induction false} BeatsAreNewest(w: World, h: History)
    ensures At(w, h).safety.teleopAt == TeleopBeat(w, h) && At(w, h).safety.hardwareAt == HardwareBeat(w, h)
  {
    match h
    case Start =>
    case Then(before, e) =>
      BeatsAreNewest(w, before);
      BeatStep(w.cfg, At(w, before), e);
  }

  /** The command time the watchdog goes by is that of the newest command the safety manager heard. */
  lemma {:induction false} WatchdogTimeIsNewest(w: World, h: History)
    ensures At(w, h).safety.approvedAt == TimeOf(Newest(w, h, ApprovedToSafety))
  {
    match h
    case Start =>
    case Then(before, e) =>
      WatchdogTimeIsNewest(w, before);
      CommandTimeStep(w.cfg, At(w, before), e);
  }

  /** The command time the adapter goes by is that of the newest command it heard. */
  lemma {:induction false} AdapterTimeIsNewest(w: World, h: History)
    ensures At(w, h).loco.lastCommandAt == TimeOf(Newest(w, h, ApprovedToLoco))
  {
    match h
    case Start =>
    case Then(before, e) =>
      AdapterTimeIsNewest(w, before);
      CommandTimeStep(w.cfg, At(w, before), e);
  }

  /** The level the safety manager published last. */
  function LastLevel(w: World, h: History): Safety {
    match h
    case Start => SafetyUnknown
    case Then(before, e) =>
      if PublishesSafety(At(w, before), e) then PublishedLevel(w.cfg, At(w, before), e) else LastLevel(w, before)
  }

  lemma LevelStep(c: Config, s: State, e: Event)
    ensures Apply(c, s, e).safety.currentSafety
            == if PublishesSafety(s, e) then PublishedLevel(c, s, e) else s.safety.currentSafety
  {}

  /** The level a service answers with is the one published last. */
  lemma {:induction false} CurrentLevelIsLast(w: World, h: History)
    ensures At(w, h).safety.currentSafety == LastLevel(w, h)
  {
    match h
    case Start =>
    case Then(before, e) =>
      CurrentLevelIsLast(w, before);
      LevelStep(w.cfg, At(w, before), e);
  }

  // ---------------------------------------------------------------- the published level

  /** What the operator has set last. */
  function EstopSet(w: World, h: History): bool {
    match h
    case Start => w.par.estop
    case Then(before, e) => if e.SetEstop? then e.engaged else EstopSet(w, before)
  }

  function MrmSet(w: World, h: History): (bool, string) {
    match h
    case Start => (w.par.mrmActive, w.par.mrmReason)
    case Then(before, e) => if e.SetMrmParameter? then (e.active, e.text) else MrmSet(w, before)
  }

  lemma ParametersStep(c: Config, s: State, e: Event)
    ensures Apply(c, s, e).par == match e
            case SetEstop(engaged) => s.par.(estop := engaged)
            case SetMrmParameter(active, text) => s.par.(mrmActive := active, mrmReason := text)
            case _ => s.par
  {}

  lemma {:induction false} ParametersAreNewest(w: World, h: History)
    ensures At(w, h).par == SafetyManager.Parameters(EstopSet(w, h), MrmSet(w, h).0, MrmSet(w, h).1)
  {
    match h
    case Start =>
    case Then(before, e) =>
      ParametersAreNewest(w, before);
      ParametersStep(w.cfg, At(w, before), e);
  }

  /** The reason of the newest trigger without an accepted clear since, or its stand-in. */
  function LatchReason(w: World, h: History): string {
    match h
    case Start => ""
    case Then(before, e) =>
      if e.TriggerMrm? then (if e.reason == "" then "manual_mrm_trigger" else e.reason)
      else if e.ClearMrm? && !EstopSet(w, before) then ""
      else LatchReason(w, before)
  }

  lemma ReasonStep(c: Config, s: State, e: Event)
    ensures Apply(c, s, e).safety.serviceMrmReason == match e
            case TriggerMrm(reason) => if reason == "" then "manual_mrm_trigger" else reason
            case ClearMrm => if s.par.estop then s.safety.serviceMrmReason else ""
            case _ => s.safety.serviceMrmReason
  {}

  /** The service's MRM reason is that of the newest trigger that stands. */
  lemma {:induction false} ReasonIsNewest(w: World, h: History)
    ensures At(w, h).safety.serviceMrmReason == LatchReason(w, h)
  {
    match h
    case Start =>
    case Then(before, e) =>
      ReasonIsNewest(w, before);
      ParametersAreNewest(w, before);
      ReasonStep(w.cfg, At(w, before), e);
  }

  /** The mode the safety manager heard of last. */
  ghost predicate SafetyHeardMode(w: World, h: History, m: Mode) {
    Shows(Newest(w, h, ModeToSafety), ModeIs(Inactive), ModeIs(m))
  }

  /** More than `timeout` has passed since `last`, or nothing has come yet. */
  predicate Overdue(last: Option<Time>, now: Time, timeout: Duration) {
    last.None? || now > last.value + timeout
  }

  /** The events of the run give rise to a finding of the given severity. */
  ghost predicate FoundIn(w: World, h: History, m: Mode, mrm: bool) {
    var c, now, command := w.cfg.safety, At(w, h).now, TimeOf(Newest(w, h, ApprovedToSafety));
    || (m == Teleop && c.requireTeleop && c.teleopTriggersMrm == mrm
        && Overdue(TeleopBeat(w, h), now, c.teleopTimeout))
    || (m in {Teleop, Autonomy, AiPolicy} && c.requireHardware && c.hardwareTriggersMrm == mrm
        && Overdue(HardwareBeat(w, h), now, c.hardwareTimeout))
    || (m in {Teleop, Autonomy, AiPolicy} && c.monitorApproved && c.approvedTriggersMrm == mrm
        && command.Some? && Overdue(command, now, c.approvedTimeout))
  }

  /** Some trigger has had no accepted clear since. */
  ghost predicate TriggerStands(w: World, h: History) {
    exists q :: Triggered(q) && NotCleared(w, q, h)
  }

  lemma {:induction false} FoundIsFinding(w: World, h: History, m: Mode, mrm: bool)
    requires SafetyHeardMode(w, h, m)
    ensures FoundIn(w, h, m, mrm) <==> SafetyManager.SomeFinding(w.cfg.safety, At(w, h).safety, At(w, h).now, mrm)
  {
    ModeViewsAreNewest(w, h);
    BeatsAreNewest(w, h);
    WatchdogTimeIsNewest(w, h);
  }

  /**
   The level published at the end of a run, told from the events of the run alone: what was set, triggered,
   cleared and heard, and when.
   */
  lemma {:induction false} LevelTellsRun(w: World, h: History, m: Mode)
    requires SafetyHeardMode(w, h, m)
    ensures var s := At(w, h);
      var demand := MrmSet(w, h).0 || TriggerStands(w, h) || FoundIn(w, h, m, true);
      && SafetyManager.SafetyOutput(w.cfg.safety, s.par, s.safety, s.now).state
         == (if EstopSet(w, h) then Estop else if demand then Mrm else if FoundIn(w, h, m, false) then Warn else Ok)
      && SafetyManager.MrmOutput(w.cfg.safety, s.par, s.safety, s.now).state
         == (if EstopSet(w, h) then MrmFault else if demand then MrmStop else MrmNone)
  {
    var s := At(w, h);
    FoundIsFinding(w, h, m, true);
    FoundIsFinding(w, h, m, false);
    ParametersAreNewest(w, h);
    LatchedIff(w, h);
    SafetyManager.PublishedLevel(w.cfg.safety, s.par, s.safety, s.now);
    SafetyManager.PublicationsCohere(w.cfg.safety, s.par, s.safety, s.now);
  }
}
