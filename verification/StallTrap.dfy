/**
 The configurations in which an MRM raised by the approved-command watchdog can be impossible to end: exactly
 the stall-prone ones.
 */
module StallTrap {
  import opened Messages
  import opened Runtime
  import opened FeedbackLoop
  import opened StartUp
  import opened Silence
  import WatchdogBound
  import SafetyManager

  /** The MRM demand is up, whether or not the E-stop hides it. */
  ghost predicate Demanded(w: World, h: History) {
    SafetyManager.SafetyOutput(w.cfg.safety, At(w, h).par, At(w, h).safety, At(w, h).now).mrmActive
  }

  /** The safety manager views an active mode, and while it does, nothing whatever ends the MRM. */
  ghost predicate Trapped(w: World, h: History) {
    && IsActive(At(w, h).safety.activeMode)
    && forall h' | StaysActive(w, h, h') :: Demanded(w, h')
  }

  lemma {:induction false} StallTraps(w: World, h: History)
    requires StallProne(w.cfg) && Stalled(w.cfg, At(w, h)) && IsActive(At(w, h).safety.activeMode)
    ensures Trapped(w, h)
  {
    forall h' | StaysActive(w, h, h') ensures Demanded(w, h') { StallIsAbsorbing(w, h, h'); }
  }

  // ---------------------------------------------------------------- every other configuration recovers

  /** Nothing reaches the watchdog from an arbiter that has seen no safety state. */
  ghost predicate HeardAfterSeen(s: State) {
    s.safety.approvedAt.Some? || s.net.approvedToSafety != [] ==> s.arbiter.lastSafety.Some?
  }

  lemma HeardAfterSeenStep(c: Config, s: State, e: Event)
    requires HeardAfterSeen(s)
    ensures HeardAfterSeen(Apply(c, s, e))
  {
    LoopStep(c, s, e);
  }

  lemma {:induction false} AlwaysHeardAfterSeen(w: World, h: History)
    ensures HeardAfterSeen(At(w, h))
  {
    match h
    case Start =>
    case Then(before, e) =>
      AlwaysHeardAfterSeen(w, before);
      HeardAfterSeenStep(w.cfg, At(w, before), e);
  }

  /** The operator takes back every demand. */
  const TAKE_BACK: seq<Event> := [SetEstop(false), SetMrmParameter(false, ""), ClearMrm]

  /** Operator and hardware show signs of life, and the arbiter publishes. */
  const SHOW_LIFE: seq<Event> := [TeleopHeartbeat, HardwareHeartbeat, ArbiterTimer]

  lemma TakenBack(c: Config, s: State)
    ensures var s' := Apply(c, Apply(c, Apply(c, s, SetEstop(false)), SetMrmParameter(false, "")), ClearMrm);
      && s'.par == SafetyManager.Parameters(false, false, "") && s'.now == s.now
      && s'.safety == SafetyManager.Unlatched(s.safety).(currentSafety := s'.safety.currentSafety)
      && s'.arbiter == s.arbiter && s'.net.approvedToSafety == s.net.approvedToSafety
  {}

  lemma LifeShown(c: Config, s: State)
    ensures var s' := Apply(c, Apply(c, Apply(c, s, TeleopHeartbeat), HardwareHeartbeat), ArbiterTimer);
      && s'.par == s.par && s'.now == s.now
      && s'.safety == s.safety.(teleopAt := Some(s.now), hardwareAt := Some(s.now))
      && (c.arbiter.publishStopOnBlock && s.arbiter.lastSafety.Some? ==> s'.net.approvedToSafety != [])
  {
    var s2 := Apply(c, Apply(c, s, TeleopHeartbeat), HardwareHeartbeat);
    assert s2.arbiter == s.arbiter;
    if c.arbiter.publishStopOnBlock { SeeingArbiterPublishes(c, s2); }
  }

  /** What a demand that outlives the recovery would need. */
  lemma NoDemandLeft(c: SafetyManager.Config, s: SafetyManager.State, now: Time)
    requires c.teleopTimeout >= 0 && c.hardwareTimeout >= 0 && c.approvedTimeout >= 0
    requires !s.serviceMrmActive && s.teleopAt == s.hardwareAt == Some(now)
    requires c.monitorApproved && c.approvedTriggersMrm ==> s.approvedAt in {None, Some(now)}
    ensures !SafetyManager.SafetyOutput(c, SafetyManager.Parameters(false, false, ""), s, now).mrmActive
  {
    SafetyManager.PublishedLevel(c, SafetyManager.Parameters(false, false, ""), s, now);
  }

  lemma {:induction false} ThreeMoreActive(w: World, p: History, h: History, es: seq<Event>)
    requires |es| == 3 && StaysActive(w, p, h)
    requires forall e | e in es :: e != Deliver(ModeToSafety)
    ensures StaysActive(w, p, Continue(h, es))
  {
    assert es[0] in es && es[1] in es && es[2] in es;
    OneMoreActive(w, p, h, es[0]);
    OneMoreActive(w, p, Then(h, es[0]), es[1]);
    OneMoreActive(w, p, Then(Then(h, es[0]), es[1]), es[2]);
  }

  lemma {:induction false} OneMoreActive(w: World, p: History, h: History, e: Event)
    requires StaysActive(w, p, h) && e != Deliver(ModeToSafety)
    ensures StaysActive(w, p, Then(h, e))
  {}

  /** Stops reach the watchdog, or it raises no MRM, or nothing ever reaches it. */
  predicate Recovers(c: Config) {
    !StallProne(c) || !CanPublish(c)
  }

  predicate ValidTimeouts(c: SafetyManager.Config) {
    c.teleopTimeout >= 0 && c.hardwareTimeout >= 0 && c.approvedTimeout >= 0
  }

  /** No demand but the approved-command watchdog's is left. */
  ghost predicate OnlyWatchdogLeft(s: State) {
    && s.par == SafetyManager.Parameters(false, false, "") && !s.safety.serviceMrmActive
    && s.safety.teleopAt == s.safety.hardwareAt == Some(s.now)
  }

  lemma {:induction false} DemandsCleared(w: World, h: History) returns (h': History)
    requires IsActive(At(w, h).safety.activeMode)
    ensures StaysActive(w, h, h') && (Punctual(w, h) ==> Punctual(w, h'))
    ensures At(w, h').par == SafetyManager.Parameters(false, false, "") && !At(w, h').safety.serviceMrmActive
  {
    h' := Continue(h, TAKE_BACK);
    ThreeMore(w, h, TAKE_BACK);
    TakenBack(w.cfg, At(w, h));
    ThreeMoreActive(w, h, h, TAKE_BACK);
  }

  lemma {:induction false} DemandsTakenBack(w: World, h: History) returns (h': History)
    requires IsActive(At(w, h).safety.activeMode)
    ensures StaysActive(w, h, h') && (Punctual(w, h) ==> Punctual(w, h'))
    ensures OnlyWatchdogLeft(At(w, h'))
    ensures w.cfg.arbiter.publishStopOnBlock && At(w, h').safety.approvedAt.Some? ==>
              At(w, h').net.approvedToSafety != []
  {
    var h1 := DemandsCleared(w, h);
    AlwaysHeardAfterSeen(w, h1);
    h' := Continue(h1, SHOW_LIFE);
    ThreeMore(w, h1, SHOW_LIFE);
    LifeShown(w.cfg, At(w, h1));
    ThreeMoreActive(w, h, h1, SHOW_LIFE);
  }

  lemma LastDelivery(c: Config, s: State)
    requires ValidTimeouts(c.safety) && OnlyWatchdogLeft(s)
    requires c.safety.monitorApproved && c.safety.approvedTriggersMrm && s.safety.approvedAt.Some? ==>
               s.net.approvedToSafety != []
    ensures var s' := Apply(c, s, Deliver(ApprovedToSafety));
      !SafetyManager.SafetyOutput(c.safety, s'.par, s'.safety, s'.now).mrmActive
  {
    var s' := Apply(c, s, Deliver(ApprovedToSafety));
    assert s'.par == s.par && s'.now == s.now;
    NoDemandLeft(c.safety, s'.safety, s.now);
  }

  /** At once, without delay or loss, the MRM can be ended. */
  lemma {:induction false} EveryMrmEnds(w: World, h: History) returns (h': History)
    requires Recovers(w.cfg) && ValidTimeouts(w.cfg.safety) && IsActive(At(w, h).safety.activeMode)
    ensures StaysActive(w, h, h') && !Demanded(w, h')
    ensures Punctual(w, h) ==> Punctual(w, h')
  {
    var ready := DemandsTakenBack(w, h);
    if !CanPublish(w.cfg) { WatchdogBound.NeverHeard(w, ready); }
    LastDelivery(w.cfg, At(w, ready));
    OneMoreActive(w, h, ready, Deliver(ApprovedToSafety));
    h' := Then(ready, Deliver(ApprovedToSafety));
  }

  // ---------------------------------------------------------------- the exact condition

  /** The same system with other bounds; only punctuality knows the difference. */
  function Rebound(w: World, b: Bounds): World {
    w.(cfg := w.cfg.(bounds := b))
  }

  lemma ReboundStep(c: Config, b: Bounds, s: State, e: Event)
    ensures Apply(c.(bounds := b), s, e) == Apply(c, s, e)
  {}

  lemma {:induction false} ReboundAt(w: World, b: Bounds, h: History)
    ensures At(Rebound(w, b), h) == At(w, h)
  {
    match h
    case Start =>
    case Then(before, e) =>
      ReboundAt(w, b, before);
      ReboundStep(w.cfg, b, At(w, before), e);
  }

  /** A stall-prone system has a punctual run into the stall, caused by the operator's silence alone. */
  lemma {:induction false} StallIsReachable(w: World) returns (h: History)
    requires StallProne(w.cfg) && CanPublish(w.cfg) && w.mode != Shutdown && PositivePeriods(w.cfg.bounds)
    ensures Punctual(w, h) && Stalled(w.cfg, At(w, h)) && IsActive(At(w, h).safety.activeMode)
  {
    h := SilenceTrips(w);
    h := TrippedStalls(w, h, w.start);
  }

  const NANOSECOND := Bounds(1, 1, 1, 1, 1, 1)

  /**
   For every system: some run leads into an MRM that nothing ends while the mode stays active, exactly when
   the configuration is stall-prone, candidates can be approved at all, and the system is not shut down from
   the start. Where time can pass, the run can be a punctual one.
   */
  lemma {:induction false} StallTrapIff(w: World)
    requires ValidTimeouts(w.cfg.safety)
    ensures (exists h :: Trapped(w, h)) <==> !Recovers(w.cfg) && w.mode != Shutdown
    ensures PositivePeriods(w.cfg.bounds) ==>
      ((exists h :: Punctual(w, h) && Trapped(w, h)) <==> !Recovers(w.cfg) && w.mode != Shutdown)
  {
    if Recovers(w.cfg) {
      forall h | IsActive(At(w, h).safety.activeMode) ensures !Trapped(w, h) {
        var h' := EveryMrmEnds(w, h);
      }
    } else if w.mode == Shutdown {
      forall h ensures !Trapped(w, h) { WatchdogBound.ShutdownIsSeen(w, h); }
    } else {
      var fast := Rebound(w, NANOSECOND);
      var h := StallIsReachable(fast);
      ReboundAt(w, NANOSECOND, h);
      StallTraps(w, h);
      if PositivePeriods(w.cfg.bounds) {
        var slow := StallIsReachable(w);
        StallTraps(w, slow);
      }
    }
  }
}
