/**
 The operator falls silent: with no stop published on block, the arbiter goes quiet once the last candidate
 has expired, and the approved-command watchdog trips. All in a punctual run.
 */
module Silence {
  import opened Messages
  import opened Runtime
  import opened FeedbackLoop
  import opened StartUp
  import CommandArbiter
  import SafetyManager

  /** The last candidate came at `t0`; no command it led to is heard after `last`. */
  ghost predicate Silent(s: State, t0: Time, last: Time) {
    && s.mode.activeMode == Teleop && s.safety.activeMode == Teleop
    && (forall i | 0 <= i < |s.net.modeToSafety| :: s.net.modeToSafety[i].value == Teleop)
    && s.arbiter.candidates == Driven(t0).candidates
    && s.safety.approvedAt.Some? && s.safety.approvedAt.value <= last
    && (s.net.approvedToSafety != [] ==> s.now <= last)
  }

  /** Without stops on block, an arbiter whose only candidate has expired publishes nothing. */
  lemma ExpiredIsQuiet(c: Config, s: State, t0: Time)
    requires !c.arbiter.publishStopOnBlock && s.arbiter.candidates == Driven(t0).candidates
    requires s.now > t0 + c.arbiter.timeout
    ensures ArbiterOutput(c, s).approved.None?
  {
    CommandArbiter.OutputEnabledIff(c.arbiter, s.arbiter, s.now);
    CommandArbiter.DisabledOutput(c.arbiter, s.arbiter, s.now);
  }

  lemma SilentStep(c: Config, s: State, e: Event, t0: Time, last: Time)
    requires !c.arbiter.publishStopOnBlock && last == t0 + c.arbiter.timeout
    requires Silent(s, t0, last) && InRound(e, false, true)
    ensures Silent(Apply(c, s, e), t0, last)
  {
    if e.ArbiterTimer? && s.now > last { ExpiredIsQuiet(c, s, t0); }
  }

  /** One nanosecond of silence, everything delivered. */
  lemma {:induction false} SilenceGrows(w: World, h: History, t0: Time, last: Time) returns (h': History)
    requires !w.cfg.arbiter.publishStopOnBlock && last == t0 + w.cfg.arbiter.timeout
    requires PositivePeriods(w.cfg.bounds) && Punctual(w, h) && Silent(At(w, h), t0, last)
    ensures Punctual(w, h') && Silent(At(w, h'), t0, last) && At(w, h').now == At(w, h).now + 1
  {
    var c, now, round := w.cfg, At(w, h).now, Round(w, h, false, true);
    var inv := (s: State) => Silent(s, t0, last);
    forall s, e | inv(s) && InRound(e, false, true) ensures inv(Apply(c, s, e)) { SilentStep(c, s, e, t0, last); }
    RoundReaches(w, h, false, true, inv);
    NanosecondPasses(w, round, inv, now, Timers(now, now, now, now, now));
    h' := Then(round, Advance(1));
  }

  lemma {:induction false} SilenceLasts(w: World, h: History, t0: Time, last: Time, k: nat) returns (h': History)
    requires !w.cfg.arbiter.publishStopOnBlock && last == t0 + w.cfg.arbiter.timeout
    requires PositivePeriods(w.cfg.bounds) && Punctual(w, h) && Silent(At(w, h), t0, last)
    ensures Punctual(w, h') && Silent(At(w, h'), t0, last) && At(w, h').now == At(w, h).now + k
    decreases k
  {
    h' := h;
    if k == 0 {
    } else {
      h' := SilenceGrows(w, h, t0, last);
      h' := SilenceLasts(w, h', t0, last, k - 1);
    }
  }

  /** The watchdog has tripped for good: nothing is on its way to it, and nothing will be. */
  ghost predicate Tripped(c: Config, s: State, t0: Time) {
    && Silent(s, t0, t0 + c.arbiter.timeout) && s.now > t0 + c.arbiter.timeout
    && SafetyManager.ApprovedStale(c.safety, s.safety, s.now)
  }

  /** In every monitored configuration without stops on block, silence trips the watchdog. */
  lemma {:induction false} SilenceTrips(w: World) returns (h: History)
    requires w.mode != Shutdown && CanPublish(w.cfg) && PositivePeriods(w.cfg.bounds)
    requires w.cfg.safety.monitorApproved && !w.cfg.arbiter.publishStopOnBlock
    ensures Punctual(w, h) && Tripped(w.cfg, At(w, h), w.start)
  {
    var timeout, watchdog := w.cfg.arbiter.timeout, w.cfg.safety.approvedTimeout;
    h := Starting(w);
    h := SilenceLasts(w, h, w.start, w.start + timeout, timeout + (if watchdog > 0 then watchdog else 0) + 1);
  }

  // ---------------------------------------------------------------- the stall

  /** Only blocking safety states are seen or on their way to the arbiter. */
  ghost predicate SeesBlocks(s: State) {
    && (forall i | 0 <= i < |s.net.safetyToArbiter| :: Blocking(s.net.safetyToArbiter[i].value))
    && (s.net.safetyToArbiter == [] ==> Blocking(s.arbiter.safetyState))
  }

  lemma TrippedBlocks(c: Config, s: State, t0: Time)
    requires StallProne(c) && Tripped(c, s, t0)
    ensures Blocking(SafetyManager.SafetyOutput(c.safety, s.par, s.safety, s.now).state)
  {
    SafetyManager.PublishedLevel(c.safety, s.par, s.safety, s.now);
  }

  lemma TrippedStep(c: Config, s: State, e: Event, t0: Time)
    requires StallProne(c) && Tripped(c, s, t0) && InRound(e, false, true)
    ensures Tripped(c, Apply(c, s, e), t0)
  {
    SilentStep(c, s, e, t0, t0 + c.arbiter.timeout);
  }

  lemma BlocksSent(c: Config, s: State)
    requires SeesBlocks(s) || s.net.safetyToArbiter == []
    requires Blocking(SafetyManager.SafetyOutput(c.safety, s.par, s.safety, s.now).state)
    ensures SeesBlocks(Apply(c, s, SafetyTimer))
  {}

  lemma BlocksDelivered(c: Config, s: State, link: Link)
    requires SeesBlocks(s)
    ensures SeesBlocks(Delivered(c, s, link))
  {}

  lemma SeesBlocksStep(c: Config, s: State, e: Event, t0: Time)
    requires StallProne(c) && Tripped(c, s, t0) && InRound(e, false, true)
    requires SeesBlocks(s) || (e.SafetyTimer? && s.net.safetyToArbiter == [])
    ensures SeesBlocks(Apply(c, s, e))
  {
    match e
    case SafetyTimer =>
      TrippedBlocks(c, s, t0);
      BlocksSent(c, s);
    case Deliver(link) => BlocksDelivered(c, s, link);
    case _ =>
  }

  /** Once the safety manager's verdict has been heard, a tripped watchdog is a stall. */
  lemma {:induction false} TrippedStalls(w: World, h: History, t0: Time) returns (h': History)
    requires StallProne(w.cfg) && Punctual(w, h) && Tripped(w.cfg, At(w, h), t0)
    ensures Punctual(w, h') && Stalled(w.cfg, At(w, h')) && IsActive(At(w, h').safety.activeMode)
  {
    var c := w.cfg;
    var inv := (s: State) => Tripped(c, s, t0);
    forall s, e | inv(s) && InRound(e, false, true) ensures inv(Apply(c, s, e)) { TrippedStep(c, s, e, t0); }
    RoundReaches(w, h, false, true, inv);
    var quiet := Round(w, h, false, true);
    TrippedStep(c, At(w, quiet), SafetyTimer, t0);
    SeesBlocksStep(c, At(w, quiet), SafetyTimer, t0);
    var told := Then(quiet, SafetyTimer);
    var inv' := (s: State) => Tripped(c, s, t0) && SeesBlocks(s);
    forall s, e | inv'(s) && InRound(e, false, true) ensures inv'(Apply(c, s, e)) {
      TrippedStep(c, s, e, t0);
      SeesBlocksStep(c, s, e, t0);
    }
    RoundReaches(w, told, false, true, inv');
    h' := Round(w, told, false, true);
  }
}
