/**
 The loop safety -> arbiter -> approved commands -> safety watchdog: when it can never trip, and the
 configuration in which a stall keeps itself alive.
 */
module FeedbackLoop {
  import opened Messages
  import opened Runtime
  import SafetyManager

  // ---------------------------------------------------------------- the watchdog that never fires

  /** What the loop looks like to the watchdog. */
  ghost predicate Fed(c: Config, s: State) {
    var ch := s.net.approvedToSafety;
    && (s.safety.approvedAt.Some? || ch != [] ==> s.arbiter.lastSafety.Some?)
    && (s.safety.approvedAt.Some? ==>
          || s.timers.arbiter <= s.safety.approvedAt.value
          || exists i | 0 <= i < |ch| :: ch[i].sent <= s.safety.approvedAt.value + c.bounds.arbiter)
  }

  lemma LoopStep(c: Config, s: State, e: Event)
    ensures var s' := Apply(c, s, e);
      && (s.arbiter.lastSafety.Some? ==> s'.arbiter.lastSafety.Some?)
      && s'.timers.arbiter == (if e.ArbiterTimer? then s.now else s.timers.arbiter)
      && (e == Deliver(ApprovedToSafety) && s.net.approvedToSafety != [] ==>
            s'.safety.approvedAt == Some(s.now) && s'.net.approvedToSafety == s.net.approvedToSafety[1..])
      && (e.ArbiterTimer? ==>
            && s'.safety.approvedAt == s.safety.approvedAt
            && s'.net.approvedToSafety == s.net.approvedToSafety
                 + (if ArbiterOutput(c, s).approved.None? then []
                    else [Stamped(ArbiterOutput(c, s).approved.value, s.now)]))
      && (!e.ArbiterTimer? && !e.Lose? && !(e == Deliver(ApprovedToSafety) && s.net.approvedToSafety != []) ==>
            s'.safety.approvedAt == s.safety.approvedAt && s'.net.approvedToSafety == s.net.approvedToSafety)
  {}

  /** Once it has seen a safety state, an arbiter that stops on block publishes at every firing. */
  lemma SeeingArbiterPublishes(c: Config, s: State)
    requires c.arbiter.publishStopOnBlock
    ensures ArbiterOutput(c, s).approved.Some? <==> s.arbiter.lastSafety.Some?
  {}

  lemma FedStep(c: Config, s: State, e: Event)
    requires c.arbiter.publishStopOnBlock
    requires Fed(c, s) && !e.Lose?
    requires s.now <= s.timers.arbiter + c.bounds.arbiter && s.timers.arbiter <= s.now
    ensures Fed(c, Apply(c, s, e))
  {
    LoopStep(c, s, e);
    SeeingArbiterPublishes(c, s);
    var ch, ch' := s.net.approvedToSafety, Apply(c, s, e).net.approvedToSafety;
    if e.ArbiterTimer? && s.safety.approvedAt.Some? {
      assert ch'[|ch|].sent == s.now;
      assert forall i | 0 <= i < |ch| :: ch'[i] == ch[i];
    }
  }

  lemma {:induction false} AlwaysFed(w: World, h: History)
    requires w.cfg.arbiter.publishStopOnBlock && ValidBounds(w.cfg.bounds) && Punctual(w, h)
    ensures Fed(w.cfg, At(w, h)) && At(w, h).timers.arbiter <= At(w, h).now
  {
    if h.Start? {
    } else {
      AlwaysFed(w, h.before);
      NeverLate(w, h.before);
      FedStep(w.cfg, At(w, h.before), h.event);
      LoopStep(w.cfg, At(w, h.before), h.event);
      StepNow(w.cfg, At(w, h.before), h.event);
    }
  }

  /**
   With stops published on block, and a timeout that covers one arbiter period and one delivery, the
   approved-command watchdog fires in no punctual run.
   */
  lemma {:induction false} WatchdogNeverFires(w: World, h: History)
    requires w.cfg.arbiter.publishStopOnBlock && ValidBounds(w.cfg.bounds) && Punctual(w, h)
    requires w.cfg.bounds.arbiter + w.cfg.bounds.delivery <= w.cfg.safety.approvedTimeout
    ensures SafetyManager.ApprovedFinding(w.cfg.safety, At(w, h).safety, At(w, h).now).None?
  {
    AlwaysFed(w, h);
    NeverLate(w, h);
  }

  // ---------------------------------------------------------------- the stall that never ends

  /** The stop-on-block publication is off, and a stall of approved commands raises an MRM. */
  predicate StallProne(c: Config) {
    !c.arbiter.publishStopOnBlock && c.safety.monitorApproved && c.safety.approvedTriggersMrm
  }

  predicate Blocking(v: Safety) {
    v == Mrm || v == Estop
  }

  /** The stall has come round the loop: the watchdog is tripped and the arbiter sees nothing but blocks. */
  ghost predicate Stalled(c: Config, s: State) {
    && SafetyManager.ApprovedStale(c.safety, s.safety, s.now)
    && s.net.approvedToSafety == []
    && (s.arbiter.lastSafety.Some? ==> Blocking(s.arbiter.safetyState))
    && (forall i | 0 <= i < |s.net.safetyToArbiter| :: Blocking(s.net.safetyToArbiter[i].value))
  }

  /** In a stall the arbiter is silent and every publication blocks, whether or not a latch was cleared. */
  lemma StallOutputs(c: Config, s: State)
    requires StallProne(c) && Stalled(c, s)
    ensures ArbiterOutput(c, s).approved.None?
    ensures SafetyManager.SafetyOutput(c.safety, s.par, s.safety, s.now).state
            == (if s.par.estop then Estop else Mrm)
    ensures SafetyManager.SafetyOutput(c.safety, s.par, SafetyManager.Unlatched(s.safety), s.now).state
            == (if s.par.estop then Estop else Mrm)
    ensures forall reason ::
              var latched := SafetyManager.Latched(s.safety, reason);
              Blocking(SafetyManager.SafetyOutput(c.safety, s.par, latched, s.now).state)
  {}

  lemma StallStep(c: Config, s: State, e: Event)
    requires StallProne(c) && Stalled(c, s)
    requires IsActive(Apply(c, s, e).safety.activeMode)
    ensures Stalled(c, Apply(c, s, e))
  {}

  /** From `p` up to `h` the safety manager views an active mode. */
  ghost predicate StaysActive(w: World, p: History, h: History) {
    HoldsSince(w, p, h, (s: State) => IsActive(s.safety.activeMode))
  }

  /**
   A stall is absorbing: as long as the safety manager views an active mode, no event whatever -- a clear
   request, fresh candidates, loss, delay -- ends it.
   */
  lemma {:induction false} StallIsAbsorbing(w: World, p: History, h: History)
    requires StallProne(w.cfg) && Stalled(w.cfg, At(w, p)) && StaysActive(w, p, h)
    ensures Stalled(w.cfg, At(w, h))
    ensures ArbiterOutput(w.cfg, At(w, h)).approved.None?
    ensures SafetyManager.SafetyOutput(w.cfg.safety, At(w, h).par, At(w, h).safety, At(w, h).now).mrmActive
  {
    if h == p {
    } else {
      StallIsAbsorbing(w, p, h.before);
      StallStep(w.cfg, At(w, h.before), h.event);
    }
    StallOutputs(w.cfg, At(w, h));
  }
}
