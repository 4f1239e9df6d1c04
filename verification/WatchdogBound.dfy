/**
 When the approved-command watchdog can fire at all in a punctual run. Where stops are published on block the
 bound is one arbiter period and one delivery, and it is exact: below it, a punctual run trips the watchdog.
 In that run the arbiter waits a full period, and its next command travels a full delivery.
 */
module WatchdogBound {
  import opened Messages
  import opened Runtime
  import opened FeedbackLoop
  import opened Provenance
  import opened StartUp
  import opened Silence
  import CommandArbiter
  import SafetyManager

  // ---------------------------------------------------------------- the longest wait

  /**
   The last command heard came at `t0`, and none published before `t1` is on its way; the arbiter has not
   fired since `t0`, or `t1` has come.
   */
  ghost predicate Waiting(s: State, t0: Time, t1: Time, due: bool) {
    && s.mode.activeMode == Teleop && s.safety.activeMode == Teleop
    && (forall i | 0 <= i < |s.net.modeToSafety| :: s.net.modeToSafety[i].value == Teleop)
    && s.safety.approvedAt == Some(t0)
    && (forall i | 0 <= i < |s.net.approvedToSafety| :: s.net.approvedToSafety[i].sent >= t1)
    && s.timers.arbiter >= t0 && s.now >= t0
    && (due ==> s.now >= t1)
  }

  lemma WaitingStep(c: Config, s: State, e: Event, t0: Time, t1: Time, due: bool)
    requires Waiting(s, t0, t1, due) && InRound(e, true, due)
    ensures Waiting(Apply(c, s, e), t0, t1, due)
  {
    LoopStep(c, s, e);
  }

  /** One nanosecond more. */
  lemma {:induction false} WaitGrows(w: World, h: History, t0: Time, t1: Time) returns (h': History)
    requires PositivePeriods(w.cfg.bounds) && t1 == t0 + w.cfg.bounds.arbiter
    requires Punctual(w, h) && Waiting(At(w, h), t0, t1, false)
    requires At(w, h).now < t1 + w.cfg.bounds.delivery
    ensures Punctual(w, h') && Waiting(At(w, h'), t0, t1, false) && At(w, h').now == At(w, h).now + 1
  {
    var c, now, due := w.cfg, At(w, h).now, At(w, h).now >= t1;
    var round, timers := Round(w, h, true, due), At(w, h).timers;
    var inv := (s: State) => Waiting(s, t0, t1, due);
    forall s, e | inv(s) && InRound(e, true, due) ensures inv(Apply(c, s, e)) { WaitingStep(c, s, e, t0, t1, due); }
    RoundReaches(w, h, true, due, inv);
    NanosecondPasses(w, round, inv, now, Timers(now, now, if due then now else timers.arbiter, now, now));
    h' := Then(round, Advance(1));
  }

  lemma {:induction false} WaitLasts(w: World, h: History, t0: Time, t1: Time, k: nat) returns (h': History)
    requires PositivePeriods(w.cfg.bounds) && t1 == t0 + w.cfg.bounds.arbiter
    requires Punctual(w, h) && Waiting(At(w, h), t0, t1, false)
    requires At(w, h).now + k <= t1 + w.cfg.bounds.delivery
    ensures Punctual(w, h') && Waiting(At(w, h'), t0, t1, false) && At(w, h').now == At(w, h).now + k
    decreases k
  {
    h' := h;
    if k == 0 {
    } else {
      h' := WaitGrows(w, h, t0, t1);
      h' := WaitLasts(w, h', t0, t1, k - 1);
    }
  }

  /** From any start-up but SHUTDOWN, a punctual run keeps the watchdog waiting for one period and one delivery. */
  lemma {:induction false} LongestWait(w: World) returns (h: History)
    requires w.mode != Shutdown && CanPublish(w.cfg) && PositivePeriods(w.cfg.bounds)
    ensures Punctual(w, h) && IsActive(At(w, h).safety.activeMode)
    ensures At(w, h).safety.approvedAt == Some(At(w, h).now - w.cfg.bounds.arbiter - w.cfg.bounds.delivery)
  {
    var t1 := w.start + w.cfg.bounds.arbiter;
    h := Starting(w);
    h := WaitLasts(w, h, w.start, t1, w.cfg.bounds.arbiter + w.cfg.bounds.delivery);
  }

  // ---------------------------------------------------------------- systems in which nothing happens

  /** A system started in SHUTDOWN never has the safety manager view an active mode. */
  lemma {:induction false} ShutdownIsSeen(w: World, h: History)
    requires w.mode == Shutdown
    ensures At(w, h).mode.activeMode == Shutdown
    ensures ModeCopies(At(w, h), m => m == Inactive || m == Shutdown)
  {
    match h
    case Start =>
    case Then(before, e) =>
      ShutdownIsSeen(w, before);
      ModeManagerStep(w.cfg, At(w, before), e);
      ModeCopiesStep(w.cfg, At(w, before), e, m => m == Inactive || m == Shutdown);
  }

  /** Nothing has been published to the watchdog. */
  ghost predicate Unheard(s: State) {
    s.safety.approvedAt.None? && s.net.approvedToSafety == []
  }

  lemma UnheardStep(c: Config, s: State, e: Event)
    requires Unheard(s) && ArbiterOutput(c, s).approved.None?
    ensures Unheard(Apply(c, s, e))
  {
    LoopStep(c, s, e);
  }

  /** Without stops on block and with a negative candidate timeout, the arbiter never publishes. */
  lemma {:induction false} NeverPublishes(w: World, h: History)
    requires !CanPublish(w.cfg)
    ensures ArbiterOutput(w.cfg, At(w, h)).approved.None?
  {
    var c, s := w.cfg, At(w, h);
    TableIsWellKeyed(w, h);
    CommandArbiter.OutputEnabledIff(c.arbiter, s.arbiter, s.now);
    if src :| CommandArbiter.FreshFor(c.arbiter, s.arbiter, src, s.now) {
      var msg := s.arbiter.candidates[src].msg;
      var out := CommandArbiter.ClampVelocity(msg, c.arbiter.maxLinear, c.arbiter.maxAngular);
      CommandArbiter.ClampVelocityLimits(c.arbiter, msg, out);
      FreshIsNewest(w, h, src, out);
    }
    CommandArbiter.DisabledOutput(c.arbiter, s.arbiter, s.now);
  }

  lemma {:induction false} NeverHeard(w: World, h: History)
    requires !CanPublish(w.cfg)
    ensures Unheard(At(w, h))
  {
    match h
    case Start =>
    case Then(before, e) =>
      NeverHeard(w, before);
      NeverPublishes(w, before);
      UnheardStep(w.cfg, At(w, before), e);
  }

  /** Where some timer has a zero period, time never passes in a punctual run. */
  lemma {:induction false} ClockIsStuck(w: World, h: History)
    requires ValidBounds(w.cfg.bounds) && !PositivePeriods(w.cfg.bounds) && Punctual(w, h)
    ensures At(w, h).now == w.start
    ensures At(w, h).safety.approvedAt in {None, Some(w.start)}
  {
    match h
    case Start =>
    case Then(before, e) =>
      var s := At(w, before);
      ClockIsStuck(w, before);
      TimersArePast(w, before);
      StepNow(w.cfg, s, e);
      LoopStep(w.cfg, s, e);
  }

  lemma {:induction false} TimersArePast(w: World, h: History)
    ensures var t, now := At(w, h).timers, At(w, h).now;
      t.mode <= now && t.safety <= now && t.arbiter <= now && t.loco <= now && t.gate <= now
  {
    match h
    case Start =>
    case Then(before, e) =>
      TimersArePast(w, before);
      TimersStep(w.cfg, At(w, before), e);
      StepNow(w.cfg, At(w, before), e);
  }

  // ---------------------------------------------------------------- the exact condition

  /** The watchdog is silent in every punctual run of the system. */
  ghost predicate NeverFires(w: World) {
    forall h | Punctual(w, h) ::
      SafetyManager.ApprovedFinding(w.cfg.safety, At(w, h).safety, At(w, h).now).None?
  }

  /** The watchdog is off, or has nothing to watch. */
  predicate NothingToWatch(w: World) {
    w.mode == Shutdown || !w.cfg.safety.monitorApproved || !CanPublish(w.cfg)
  }

  /** The bound: stops keep the watchdog fed, and its timeout covers an arbiter period and a delivery. */
  predicate Covered(c: Config) {
    c.arbiter.publishStopOnBlock && c.bounds.arbiter + c.bounds.delivery <= c.safety.approvedTimeout
  }

  lemma {:induction false} WatchdogIsSilent(w: World, h: History)
    requires ValidBounds(w.cfg.bounds) && Punctual(w, h)
    requires NothingToWatch(w)
             || (if PositivePeriods(w.cfg.bounds) then Covered(w.cfg) else 0 <= w.cfg.safety.approvedTimeout)
    ensures SafetyManager.ApprovedFinding(w.cfg.safety, At(w, h).safety, At(w, h).now).None?
  {
    if w.mode == Shutdown {
      ShutdownIsSeen(w, h);
    } else if !CanPublish(w.cfg) {
      NeverHeard(w, h);
    } else if !PositivePeriods(w.cfg.bounds) {
      ClockIsStuck(w, h);
    } else if w.cfg.safety.monitorApproved {
      WatchdogNeverFires(w, h);
    }
  }

  lemma {:induction false} WatchdogCanFire(w: World) returns (h: History)
    requires ValidBounds(w.cfg.bounds) && !NothingToWatch(w)
    requires !(if PositivePeriods(w.cfg.bounds) then Covered(w.cfg) else 0 <= w.cfg.safety.approvedTimeout)
    ensures Punctual(w, h)
    ensures SafetyManager.ApprovedFinding(w.cfg.safety, At(w, h).safety, At(w, h).now).Some?
  {
    if !PositivePeriods(w.cfg.bounds) {
      h := Starting(w);
    } else if w.cfg.arbiter.publishStopOnBlock {
      h := LongestWait(w);
    } else {
      h := SilenceTrips(w);
    }
  }

  /**
   For every system: the watchdog is silent in all punctual runs exactly when it has nothing to watch, or
   stops are published on block and its timeout covers one arbiter period and one delivery. (Where some
   timer has a zero period no time passes, and any timeout that is not negative will do.)
   */
  lemma {:induction false} WatchdogBoundIsExact(w: World)
    requires ValidBounds(w.cfg.bounds)
    ensures NeverFires(w) <==>
            || NothingToWatch(w)
            || if PositivePeriods(w.cfg.bounds) then Covered(w.cfg) else 0 <= w.cfg.safety.approvedTimeout
  {
    if NothingToWatch(w)
       || if PositivePeriods(w.cfg.bounds) then Covered(w.cfg) else 0 <= w.cfg.safety.approvedTimeout {
      forall h | Punctual(w, h)
        ensures SafetyManager.ApprovedFinding(w.cfg.safety, At(w, h).safety, At(w, h).now).None?
      {
        WatchdogIsSilent(w, h);
      }
    } else {
      var h := WatchdogCanFire(w);
    }
  }
}
