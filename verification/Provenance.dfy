/**
 Where approved commands come from, over every run: any delay, any loss, any order of events.
 */
module Provenance {
  import opened Messages
  import opened Runtime
  import CommandArbiter
  import ModeManager
  import SafetyManager

  // ---------------------------------------------------------------- candidates

  /** The newest candidate of a source, with the run that had led up to its receipt. */
  function LastCandidate(h: History, src: CommandArbiter.CandidateSource): Option<(History, Twist)> {
    match h
    case Start => None
    case Then(before, e) =>
      if e.Candidate? && e.source == src then Some((before, e.msg)) else LastCandidate(before, src)
  }

  lemma {:induction false} LastCandidateHappened(h: History, src: CommandArbiter.CandidateSource)
    requires LastCandidate(h, src).Some?
    ensures var (p, msg) := LastCandidate(h, src).value; Extends(h, Then(p, Candidate(src, msg)))
  {
    if !(h.event.Candidate? && h.event.source == src) { LastCandidateHappened(h.before, src); }
  }

  /** What the arbiter's table must hold for a source. */
  ghost function Newest(w: World, h: History, src: CommandArbiter.CandidateSource)
    : Option<CommandArbiter.Candidate>
  {
    match LastCandidate(h, src)
    case None => None
    case Some((p, msg)) =>
      Some(CommandArbiter.Candidate(src, CommandArbiter.RequiredMode(src), msg, At(w, p).now))
  }

  lemma CandidatesStep(c: Config, s: State, e: Event)
    ensures Apply(c, s, e).arbiter.candidates
            == if e.Candidate?
               then CommandArbiter.OnCandidate(s.arbiter, e.source, e.msg, s.now).candidates
               else s.arbiter.candidates
  {}

  /** The arbiter's table holds exactly the newest candidate of each source. */
  lemma {:induction false} TableHoldsNewest(w: World, h: History, src: CommandArbiter.CandidateSource)
    ensures var table := At(w, h).arbiter.candidates;
      Newest(w, h, src) == if src in table then Some(table[src]) else None
  {
    if h.Start? {
    } else {
      TableHoldsNewest(w, h.before, src);
      CandidatesStep(w.cfg, At(w, h.before), h.event);
    }
  }

  lemma TableIsWellKeyed(w: World, h: History)
    ensures CommandArbiter.WellKeyed(At(w, h).arbiter.candidates)
  {}

  // ---------------------------------------------------------------- modes

  ghost predicate Carries<T(!new)>(ch: Channel<T>, ok: T -> bool) {
    forall i | 0 <= i < |ch| :: ok(ch[i].value)
  }

  /** Every copy of the mode, in flight or in a subscriber's field, satisfies `ok`. */
  ghost predicate ModeCopies(s: State, ok: Mode -> bool) {
    && Carries(s.net.modeToSafety, ok) && Carries(s.net.modeToArbiter, ok)
    && Carries(s.net.modeToLoco, ok) && Carries(s.net.modeToGate, ok)
    && ok(s.safety.activeMode) && ok(s.arbiter.activeMode) && ok(s.loco.activeMode) && ok(s.gate.activeMode)
  }

  lemma ModePublicationCopies(s: State, ok: Mode -> bool)
    requires ModeCopies(s, ok) && ok(s.mode.activeMode)
    ensures ModeCopies(PublishMode(s), ok)
  {}

  lemma ModeDeliveryCopies(c: Config, s: State, link: Link, ok: Mode -> bool)
    requires ModeCopies(s, ok)
    ensures ModeCopies(Delivered(c, s, link), ok)
  {}

  lemma ModeLossCopies(s: State, link: Link, i: nat, ok: Mode -> bool)
    requires ModeCopies(s, ok)
    ensures ModeCopies(s.(net := Lost(s.net, link, i)), ok)
  {}

  lemma ModeCopiesStep(c: Config, s: State, e: Event, ok: Mode -> bool)
    requires ModeCopies(s, ok)
    requires ok(Apply(c, s, e).mode.activeMode)
    ensures ModeCopies(Apply(c, s, e), ok)
  {
    match e
    case SetMode(code) =>
      if ModeManager.SetModeAccepted(s.mode, code) {
        ModePublicationCopies(s.(mode := ModeManager.OnSetMode(s.mode, code, s.now)), ok);
      }
    case Takeover => ModePublicationCopies(s.(mode := ModeManager.OnTakeover(s.mode, s.now)), ok);
    case ModeTimer => ModePublicationCopies(s, ok);
    case Deliver(link) => ModeDeliveryCopies(c, s, link, ok);
    case Lose(link, i) => ModeLossCopies(s, link, i, ok);
    case _ =>
  }

  ghost predicate WasActive(w: World, h: History, m: Mode) {
    exists p :: Extends(h, p) && At(w, p).mode.activeMode == m
  }

  lemma WasActiveLater(w: World, h: History, e: Event, m: Mode)
    requires WasActive(w, h, m)
    ensures WasActive(w, Then(h, e), m)
  {}

  /** Every copy of the mode is the start-up value or a mode the mode manager really was in. */
  lemma {:induction false} ModeCopiesAreReal(w: World, h: History)
    ensures ModeCopies(At(w, h), m => m == Inactive || WasActive(w, h, m))
  {
    if h.Start? {
    } else {
      var ok0, ok := m => m == Inactive || WasActive(w, h.before, m), m => m == Inactive || WasActive(w, h, m);
      ModeCopiesAreReal(w, h.before);
      forall m | ok0(m) ensures ok(m) {
        if m != Inactive { WasActiveLater(w, h.before, h.event, m); }
      }
      assert ModeCopies(At(w, h.before), ok);
      assert Extends(h, h);
      ModeCopiesStep(w.cfg, At(w, h.before), h.event, ok);
    }
  }

  /** `m` was entered by an accepted request while the mode manager viewed safety as clear. */
  ghost predicate EnteredClear(w: World, h: History, m: Mode) {
    exists p, code :: Extends(h, Then(p, SetMode(code)))
      && ModeManager.ModeOf(code) == Some(m) && ModeManager.SetModeAccepted(At(w, p).mode, code)
      && At(w, p).mode.activeMode != m
      && At(w, p).mode.safetySeen && IsClear(At(w, p).mode.safetyState)
  }

  lemma EnteredClearLater(w: World, h: History, p: History, m: Mode)
    requires EnteredClear(w, p, m) && Extends(h, p)
    ensures EnteredClear(w, h, m)
  {}

  /** How one event of the runtime moves the mode manager. */
  lemma ModeManagerStep(c: Config, s: State, e: Event)
    ensures Apply(c, s, e).mode
            == match e
               case SetMode(code) => ModeManager.OnSetMode(s.mode, code, s.now)
               case Takeover => ModeManager.OnTakeover(s.mode, s.now)
               case Deliver(link) =>
                 if link == SafetyToMode && s.net.safetyToMode != []
                 then ModeManager.OnSafety(s.mode, s.net.safetyToMode[0].value) else s.mode
               case _ => s.mode
  {}

  /** From a non-active start, an autonomous mode is never in force without such an entry. */
  lemma {:induction false} AutonomyWasEnteredClear(w: World, h: History)
    requires !IsActive(w.mode)
    ensures IsAutonomous(At(w, h).mode.activeMode) ==> EnteredClear(w, h, At(w, h).mode.activeMode)
  {
    if h.Start? {
    } else {
      AutonomyWasEnteredClear(w, h.before);
      var s, m := At(w, h.before), At(w, h).mode.activeMode;
      ModeManagerStep(w.cfg, s, h.event);
      if IsAutonomous(m) {
        if m == s.mode.activeMode {
          EnteredClearLater(w, h, h.before, m);
        } else {
          assert h.event.SetMode?;
          ModeManager.AutonomyEntry(s.mode, ModeManager.SetMode(h.event.code), s.now);
          assert Extends(h, Then(h.before, SetMode(h.event.code)));
        }
      }
    }
  }

  // ---------------------------------------------------------------- safety

  /** The levels the safety manager publishes. */
  predicate IsPublished(v: Safety) {
    v in {Ok, Warn, Mrm, Estop}
  }

  ghost predicate SafetyCopiesPublished(s: State) {
    && Carries(s.net.safetyToMode, IsPublished) && Carries(s.net.safetyToArbiter, IsPublished)
    && Carries(s.net.safetyToLoco, IsPublished) && Carries(s.net.safetyToGate, IsPublished)
    && (s.mode.safetySeen ==> IsPublished(s.mode.safetyState))
    && (s.arbiter.lastSafety.Some? ==> IsPublished(s.arbiter.safetyState))
  }

  lemma SafetyPublicationStep(c: Config, s: State)
    requires SafetyCopiesPublished(s)
    ensures SafetyCopiesPublished(PublishSafety(c, s))
  {}

  lemma SafetyDeliveryStep(c: Config, s: State, link: Link)
    requires SafetyCopiesPublished(s)
    ensures SafetyCopiesPublished(Delivered(c, s, link))
  {}

  lemma SafetyLossStep(s: State, link: Link, i: nat)
    requires SafetyCopiesPublished(s)
    ensures SafetyCopiesPublished(s.(net := Lost(s.net, link, i)))
  {}

  lemma SafetyCopiesStep(c: Config, s: State, e: Event)
    requires SafetyCopiesPublished(s)
    ensures SafetyCopiesPublished(Apply(c, s, e))
  {
    match e
    case TriggerMrm(reason) => SafetyPublicationStep(c, s.(safety := SafetyManager.Latched(s.safety, reason)));
    case ClearMrm => SafetyPublicationStep(c, s.(safety := SafetyManager.Unlatched(s.safety)));
    case SafetyTimer => SafetyPublicationStep(c, s);
    case Deliver(link) => SafetyDeliveryStep(c, s, link);
    case Lose(link, i) => SafetyLossStep(s, link, i);
    case _ =>
  }

  lemma {:induction false} SafetyCopiesArePublished(w: World, h: History)
    ensures SafetyCopiesPublished(At(w, h))
  {
    if h.Start? {
    } else {
      SafetyCopiesArePublished(w, h.before);
      SafetyCopiesStep(w.cfg, At(w, h.before), h.event);
    }
  }

  /** In the composed runtime the arbiter never meets a seen safety state it cannot classify. */
  lemma SafetyNotReadyIsUnreachable(w: World, h: History)
    ensures ArbiterOutput(w.cfg, At(w, h)).state.reason != CommandArbiter.SafetyNotReady
  {
    SafetyCopiesArePublished(w, h);
  }

  // ---------------------------------------------------------------- the main result

  /** `out` is the newest candidate of `src` held within the limits, received at most `age` before `now`. */
  ghost predicate LimitedNewest(
    w: World, h: History, src: CommandArbiter.CandidateSource, now: Time, age: Duration, out: Twist)
  {
    LastCandidate(h, src).Some? &&
    var (p, msg) := LastCandidate(h, src).value;
    && Extends(h, Then(p, Candidate(src, msg)))
    && At(w, p).now <= now <= At(w, p).now + age
    && CommandArbiter.LimitedTo(w.cfg.arbiter, msg, out)
  }

  /** A mode view other than the start-up value was really in force, and cleanly entered if autonomous. */
  lemma ModeViewProvenance(w: World, h: History)
    requires At(w, h).arbiter.activeMode != Inactive
    ensures var m := At(w, h).arbiter.activeMode;
      WasActive(w, h, m) && (!IsActive(w.mode) && IsAutonomous(m) ==> EnteredClear(w, h, m))
  {
    var m := At(w, h).arbiter.activeMode;
    ModeCopiesAreReal(w, h);
    var q :| Extends(h, q) && At(w, q).mode.activeMode == m;
    if !IsActive(w.mode) && IsAutonomous(m) {
      AutonomyWasEnteredClear(w, q);
      EnteredClearLater(w, h, q, m);
    }
  }

  lemma {:induction false} FreshIsNewest(w: World, h: History, src: CommandArbiter.CandidateSource, out: Twist)
    requires CommandArbiter.FreshFor(w.cfg.arbiter, At(w, h).arbiter, src, At(w, h).now)
    requires CommandArbiter.LimitedTo(w.cfg.arbiter, At(w, h).arbiter.candidates[src].msg, out)
    ensures LimitedNewest(w, h, src, At(w, h).now, w.cfg.arbiter.timeout, out)
  {
    TableHoldsNewest(w, h, src);
    LastCandidateHappened(h, src);
    var (p, msg) := LastCandidate(h, src).value;
    ExtendsTransitive(h, Then(p, Candidate(src, msg)), p);
    ClockIsMonotone(w, h, p);
  }

  /** `out` is a fresh command of `src`, approved while the mode of `src` was rightly in force. */
  ghost predicate ComesFrom(w: World, h: History, src: CommandArbiter.CandidateSource, out: Twist) {
    var m := At(w, h).arbiter.activeMode;
    && LimitedNewest(w, h, src, At(w, h).now, w.cfg.arbiter.timeout, out)
    && CommandArbiter.Drives(src, m)
    && WasActive(w, h, m)
    && (!IsActive(w.mode) && IsAutonomous(m) ==> EnteredClear(w, h, m))
    && IsClear(At(w, h).arbiter.safetyState)
  }

  /**
   Every nonzero approved command is the newest candidate of one source, no older than the timeout and held
   axis by axis within the limits; the mode that source drives in is the arbiter's mode view and really was
   in force, and if it is an autonomous mode it had been entered with safety viewed as clear.
   */
  lemma {:induction false} ApprovedProvenance(w: World, h: History, out: Twist)
    requires ArbiterOutput(w.cfg, At(w, h)).approved == Some(out) && out != ZERO
    ensures exists src :: ComesFrom(w, h, src, out)
  {
    var s := At(w, h);
    TableIsWellKeyed(w, h);
    if !ArbiterOutput(w.cfg, s).state.outputEnabled {
      CommandArbiter.DisabledOutput(w.cfg.arbiter, s.arbiter, s.now);
    }
    CommandArbiter.OutputEnabledIff(w.cfg.arbiter, s.arbiter, s.now);
    var src :| CommandArbiter.FreshFor(w.cfg.arbiter, s.arbiter, src, s.now);
    CommandArbiter.EnabledOutput(w.cfg.arbiter, s.arbiter, src, s.now);
    FreshIsNewest(w, h, src, out);
    ModeViewProvenance(w, h);
    assert ComesFrom(w, h, src, out);
  }
}
