/**
 What reaches everyone in time: an engaged E-stop or a latched MRM stops the robot, and a published mode
 becomes every view. Over punctual runs.
 */
module BoundedStop {
  import opened Messages
  import opened Runtime
  import opened Provenance
  import Locomotion
  import ModeManager
  import SafetyManager

  // ---------------------------------------------------------------- views that settle

  /**
   A subscriber's view is in `goal`, or will be once the messages sent up to `due` have arrived; nothing
   in flight can take it out of `goal` after that.
   */
  ghost predicate Settling<T(!new)>(view: T, ch: Channel<T>, goal: set<T>, due: Time) {
    || (view in goal && forall i | 0 <= i < |ch| :: ch[i].value in goal)
    || (exists k | 0 <= k < |ch| :: ch[k].sent <= due && forall i | k <= i < |ch| :: ch[i].value in goal)
  }

  lemma SettlingSend<T(!new)>(view: T, ch: Channel<T>, m: Stamped<T>, goal: set<T>, due: Time)
    requires m.value in goal
    requires Settling(view, ch, goal, due) || m.sent <= due
    ensures Settling(view, ch + [m], goal, due)
  {
    var ch' := ch + [m];
    if view in goal && forall i | 0 <= i < |ch| :: ch[i].value in goal {
    } else if k :| 0 <= k < |ch| && ch[k].sent <= due && forall i | k <= i < |ch| :: ch[i].value in goal {
      assert ch'[k] == ch[k];
    } else {
      assert ch'[|ch|] == m;
    }
  }

  lemma SettlingReceive<T(!new)>(view: T, ch: Channel<T>, goal: set<T>, due: Time)
    requires ch != [] && Settling(view, ch, goal, due)
    ensures Settling(ch[0].value, ch[1..], goal, due)
  {
    if !(view in goal && forall i | 0 <= i < |ch| :: ch[i].value in goal) {
      var k :| 0 <= k < |ch| && ch[k].sent <= due && forall i | k <= i < |ch| :: ch[i].value in goal;
      if k > 0 { assert ch[1..][k - 1] == ch[k]; }
    }
  }

  lemma Settled<T(!new)>(view: T, ch: Channel<T>, goal: set<T>, due: Time, now: Time, d: Duration)
    requires Settling(view, ch, goal, due) && OnTime(ch, now, d) && now > due + d
    ensures view in goal
  {}

  // ---------------------------------------------------------------- stop demands

  /** Arbiter, locomotion and gate all see, or are bound to see, a safety state in `goal`. */
  ghost predicate SafetySettling(s: State, goal: set<Safety>, due: Time) {
    && Settling(s.arbiter.safetyState, s.net.safetyToArbiter, goal, due)
    && Settling(s.loco.safetyState, s.net.safetyToLoco, goal, due)
    && Settling(s.gate.safetyState, s.net.safetyToGate, goal, due)
  }

  /** The event makes the safety manager publish. */
  predicate PublishesSafety(s: State, e: Event) {
    e.SafetyTimer? || e.TriggerMrm? || (e.ClearMrm? && !s.par.estop)
  }

  lemma PublicationSettles(c: Config, s: State, goal: set<Safety>, due: Time)
    requires SafetyManager.SafetyOutput(c.safety, s.par, s.safety, s.now).state in goal
    requires SafetySettling(s, goal, due) || s.now <= due
    ensures SafetySettling(PublishSafety(c, s), goal, due)
  {
    var m := Stamped(SafetyManager.SafetyOutput(c.safety, s.par, s.safety, s.now).state, s.now);
    SettlingSend(s.arbiter.safetyState, s.net.safetyToArbiter, m, goal, due);
    SettlingSend(s.loco.safetyState, s.net.safetyToLoco, m, goal, due);
    SettlingSend(s.gate.safetyState, s.net.safetyToGate, m, goal, due);
  }

  /** What the safety manager publishes in this event, if it does. */
  function PublishedLevel(c: Config, s: State, e: Event): Safety {
    var from := match e
      case TriggerMrm(reason) => SafetyManager.Latched(s.safety, reason)
      case ClearMrm => SafetyManager.Unlatched(s.safety)
      case _ => s.safety;
    SafetyManager.SafetyOutput(c.safety, s.par, from, s.now).state
  }

  lemma DeliverySettles(c: Config, s: State, link: Link, goal: set<Safety>, due: Time)
    requires SafetySettling(s, goal, due)
    ensures SafetySettling(Delivered(c, s, link), goal, due)
  {}

  /** No event but a publication outside `goal` disturbs settling; a timely one in `goal` starts it. */
  lemma SettlingStep(c: Config, s: State, e: Event, goal: set<Safety>, due: Time)
    requires !e.Lose?
    requires PublishesSafety(s, e) ==> PublishedLevel(c, s, e) in goal
    requires SafetySettling(s, goal, due) || (PublishesSafety(s, e) && s.now <= due)
    ensures SafetySettling(Apply(c, s, e), goal, due)
  {
    match e
    case TriggerMrm(reason) => PublicationSettles(c, s.(safety := SafetyManager.Latched(s.safety, reason)), goal, due);
    case ClearMrm =>
      if !s.par.estop { PublicationSettles(c, s.(safety := SafetyManager.Unlatched(s.safety)), goal, due); }
    case SafetyTimer => PublicationSettles(c, s, goal, due);
    case Deliver(link) => DeliverySettles(c, s, link, goal, due);
    case _ =>
  }

  // ---------------------------------------------------------------- E-stop

  const ESTOP_ONLY: set<Safety> := {Estop}

  ghost predicate EstopSince(w: World, p: History, h: History) {
    At(w, h).par.estop && (h == p || (h.Then? && EstopSince(w, p, h.before)))
  }

  /** The time by which an E-stop engaged at `p` is certainly published. */
  function EstopBy(w: World, p: History): Time {
    At(w, p).now + w.cfg.bounds.safety
  }

  lemma EstopLevel(c: Config, s: State, e: Event)
    requires s.par.estop && PublishesSafety(s, e)
    ensures PublishedLevel(c, s, e) in ESTOP_ONLY
  {}

  lemma SafetyTimerStep(c: Config, s: State, e: Event)
    ensures Apply(c, s, e).timers.safety == if e.SafetyTimer? then s.now else s.timers.safety
    ensures Apply(c, s, e).timers.loco == if e.LocoTimer? then s.now else s.timers.loco
  {}

  lemma {:induction false} TimersInPast(w: World, h: History)
    ensures At(w, h).timers.safety <= At(w, h).now && At(w, h).timers.loco <= At(w, h).now
  {
    if h.Start? {
    } else {
      TimersInPast(w, h.before);
      SafetyTimerStep(w.cfg, At(w, h.before), h.event);
      StepNow(w.cfg, At(w, h.before), h.event);
    }
  }

  /** Either the E-stop is on its way, or the safety timer has not fired since. */
  lemma {:induction false} EstopSpreads(w: World, p: History, h: History)
    requires ValidBounds(w.cfg.bounds) && Punctual(w, h) && EstopSince(w, p, h)
    ensures SafetySettling(At(w, h), ESTOP_ONLY, EstopBy(w, p)) || At(w, h).timers.safety <= At(w, p).now
  {
    if h == p {
      TimersInPast(w, h);
    } else {
      var s := At(w, h.before);
      EstopSpreads(w, p, h.before);
      NeverLate(w, h.before);
      SafetyTimerStep(w.cfg, s, h.event);
      assert s.par.estop;
      if PublishesSafety(s, h.event) { EstopLevel(w.cfg, s, h.event); }
      if SafetySettling(s, ESTOP_ONLY, EstopBy(w, p)) || PublishesSafety(s, h.event) {
        SettlingStep(w.cfg, s, h.event, ESTOP_ONLY, EstopBy(w, p));
      }
    }
  }

  /** Once period and delivery have passed, every consumer of the safety state sees the E-stop. */
  lemma {:induction false} EstopArrives(w: World, p: History, h: History)
    requires ValidBounds(w.cfg.bounds) && Punctual(w, h) && EstopSince(w, p, h)
    requires At(w, h).now > At(w, p).now + w.cfg.bounds.safety + w.cfg.bounds.delivery
    ensures At(w, h).arbiter.safetyState == At(w, h).loco.safetyState == At(w, h).gate.safetyState == Estop
  {
    var s, due, d := At(w, h), EstopBy(w, p), w.cfg.bounds.delivery;
    EstopSpreads(w, p, h);
    NeverLate(w, h);
    assert SafetySettling(s, ESTOP_ONLY, due);
    Settled(s.arbiter.safetyState, s.net.safetyToArbiter, ESTOP_ONLY, due, s.now, d);
    Settled(s.loco.safetyState, s.net.safetyToLoco, ESTOP_ONLY, due, s.now, d);
    Settled(s.gate.safetyState, s.net.safetyToGate, ESTOP_ONLY, due, s.now, d);
  }

  /** From then on the arbiter approves no motion, and the gate applies no command at all. */
  lemma {:induction false} EstopStopsOutput(w: World, p: History, h: History)
    requires ValidBounds(w.cfg.bounds) && Punctual(w, h) && EstopSince(w, p, h)
    requires At(w, h).now > At(w, p).now + w.cfg.bounds.safety + w.cfg.bounds.delivery
    ensures ArbiterOutput(w.cfg, At(w, h)).approved in {None, Some(ZERO)}
    ensures !ArbiterOutput(w.cfg, At(w, h)).state.outputEnabled
    ensures GateAction(w.cfg, At(w, h)).StopHardware?
  {
    EstopArrives(w, p, h);
  }

  // ---------------------------------------------------------------- the robot comes to rest

  lemma LocoStep(c: Config, s: State, e: Event)
    ensures Apply(c, s, e).loco == s.loco
      || (e.LocoTimer? && Apply(c, s, e).loco == Locomotion.Tick(c.loco, s.loco, s.now))
      || (!e.LocoTimer? && exists le: Locomotion.Event ::
            !le.Timer? && Apply(c, s, e).loco == Locomotion.Step(c.loco, s.loco, le, s.now))
  {
    match e
    case Deliver(ModeToLoco) =>
      if s.net.modeToLoco != [] {
        assert Apply(c, s, e).loco
               == Locomotion.Step(c.loco, s.loco, Locomotion.ModeState(s.net.modeToLoco[0].value), s.now);
      }
    case Deliver(SafetyToLoco) =>
      if s.net.safetyToLoco != [] {
        assert Apply(c, s, e).loco
               == Locomotion.Step(c.loco, s.loco, Locomotion.SafetyState(s.net.safetyToLoco[0].value), s.now);
      }
    case Deliver(ApprovedToLoco) =>
      if s.net.approvedToLoco != [] {
        assert Apply(c, s, e).loco
               == Locomotion.Step(c.loco, s.loco, Locomotion.Approved(s.net.approvedToLoco[0].value), s.now);
      }
    case _ =>
  }

  /** In every run the robot's state and stored velocity classify each other. */
  lemma {:induction false} RobotIsConsistent(w: World, h: History)
    requires w.cfg.loco.epsilon >= 0.0
    ensures Locomotion.Consistent(w.cfg.loco, At(w, h).loco)
  {
    if h.Start? {
      Locomotion.InitiallyConsistent(w.cfg.loco);
    } else {
      var s := At(w, h.before);
      RobotIsConsistent(w, h.before);
      LocoStep(w.cfg, s, h.event);
      if h.event.LocoTimer? {
        Locomotion.StepKeepsConsistent(w.cfg.loco, s.loco, Locomotion.Timer, s.now);
      } else if At(w, h).loco != s.loco {
        var le :| At(w, h).loco == Locomotion.Step(w.cfg.loco, s.loco, le, s.now);
        Locomotion.StepKeepsConsistent(w.cfg.loco, s.loco, le, s.now);
      }
    }
  }

  lemma KnownModeStep(c: Config, s: State, e: Event)
    requires s.mode.activeMode != ModeUnknown
    ensures Apply(c, s, e).mode.activeMode != ModeUnknown
  {}

  lemma {:induction false} ModeIsKnown(w: World, h: History)
    requires w.mode != ModeUnknown
    ensures At(w, h).mode.activeMode != ModeUnknown
    ensures ModeCopies(At(w, h), m => m != ModeUnknown)
  {
    if h.Start? {
    } else {
      ModeIsKnown(w, h.before);
      KnownModeStep(w.cfg, At(w, h.before), h.event);
      ModeCopiesStep(w.cfg, At(w, h.before), h.event, m => m != ModeUnknown);
    }
  }

  /** In the composed runtime, after every timer callback a robot that may not move says why. */
  lemma {:induction false} BlockedRobotExplains(w: World, h: History)
    requires w.cfg.loco.epsilon >= 0.0 && w.mode != ModeUnknown
    ensures var l := At(w, Then(h, LocoTimer)).loco; Locomotion.OutputBlocked(l) ==> l.constraints != []
  {
    var s := At(w, h);
    RobotIsConsistent(w, h);
    ModeIsKnown(w, h);
    Locomotion.BlockedTickExplains(w.cfg.loco, s.loco, s.now);
  }

  /** From `p` up to `h`, the adapter's views of mode and safety demand a halt at every moment after `t`. */
  ghost predicate HaltsAfter(w: World, p: History, h: History, t: Time) {
    && (At(w, h).now > t ==> Locomotion.MustHalt(At(w, h).loco))
    && (h == p || (h.Then? && HaltsAfter(w, p, h.before, t)))
  }

  /** If the adapter's timer has fired after `t`, the robot is at rest, and nothing moves it again. */
  lemma {:induction false} TimerHalts(w: World, p: History, h: History, t: Time)
    requires HaltsAfter(w, p, h, t) && At(w, p).now <= t
    ensures At(w, h).timers.loco > t ==> Locomotion.AtRest(At(w, h).loco)
  {
    TimersInPast(w, h);
    if h == p {
    } else {
      var s := At(w, h.before);
      TimerHalts(w, p, h.before, t);
      TimersInPast(w, h.before);
      SafetyTimerStep(w.cfg, s, h.event);
      LocoStep(w.cfg, s, h.event);
      if At(w, h).timers.loco > t {
        if h.event.LocoTimer? {
          Locomotion.TickHalts(w.cfg.loco, s.loco, s.now);
        } else if At(w, h).loco != s.loco {
          var le :| At(w, h).loco == Locomotion.Step(w.cfg.loco, s.loco, le, s.now);
          Locomotion.BlockedStaysAtRest(w.cfg.loco, s.loco, le, s.now);
        }
      }
    }
  }

  lemma {:induction false} LocoTimerFired(w: World, h: History, t: Time)
    requires ValidBounds(w.cfg.bounds) && Punctual(w, h) && At(w, h).now > t + w.cfg.bounds.loco
    ensures At(w, h).timers.loco > t
  {
    NeverLate(w, h);
  }

  lemma {:induction false} EstopKeepsHalting(w: World, p: History, h: History, t: Time)
    requires ValidBounds(w.cfg.bounds) && Punctual(w, h) && EstopSince(w, p, h)
    requires t == EstopBy(w, p) + w.cfg.bounds.delivery
    ensures HaltsAfter(w, p, h, t)
  {
    if At(w, h).now > t { EstopArrives(w, p, h); }
    if h == p {
    } else {
      EstopKeepsHalting(w, p, h.before, t);
    }
  }

  lemma {:induction false} EstopHalts(w: World, p: History, h: History, t: Time)
    requires ValidBounds(w.cfg.bounds) && Punctual(w, h) && EstopSince(w, p, h)
    requires t == EstopBy(w, p) + w.cfg.bounds.delivery
    ensures At(w, h).timers.loco > t ==> Locomotion.AtRest(At(w, h).loco)
  {
    EstopKeepsHalting(w, p, h, t);
    TimerHalts(w, p, h, t);
  }

  /**
   The E-stop bound: a held E-stop has the robot at rest after one safety period, one delivery and one
   adapter period, for as long as it is held and whatever commands are still in flight.
   */
  lemma {:induction false} EstopBoundsMotion(w: World, p: History, h: History)
    requires ValidBounds(w.cfg.bounds) && Punctual(w, h) && EstopSince(w, p, h)
    requires At(w, h).now >
               At(w, p).now + w.cfg.bounds.safety + w.cfg.bounds.delivery + w.cfg.bounds.loco
    ensures Locomotion.AtRest(At(w, h).loco)
  {
    var t := EstopBy(w, p) + w.cfg.bounds.delivery;
    LocoTimerFired(w, h, t);
    EstopHalts(w, p, h, t);
  }

  // ---------------------------------------------------------------- the MRM latch

  const STOP_LEVELS: set<Safety> := {Mrm, Estop}

  /** No clear request has been accepted between `p` and `h`. */
  ghost predicate NotCleared(w: World, p: History, h: History) {
    h == p ||
    (h.Then? && NotCleared(w, p, h.before) && !(h.event.ClearMrm? && !At(w, h.before).par.estop))
  }

  lemma LatchStep(c: Config, s: State, e: Event)
    ensures Apply(c, s, e).safety.serviceMrmActive
            == (e.TriggerMrm? || (s.safety.serviceMrmActive && !(e.ClearMrm? && !s.par.estop)))
  {}

  /** The run ends with a trigger request. */
  predicate Triggered(q: History) {
    q.Then? && q.event.TriggerMrm?
  }

  /** The MRM is latched exactly when some trigger has had no accepted clear since. */
  lemma {:induction false} LatchedIff(w: World, h: History)
    ensures At(w, h).safety.serviceMrmActive <==> exists q :: Triggered(q) && NotCleared(w, q, h)
  {
    if h.Start? {
    } else {
      var s := At(w, h.before);
      LatchedIff(w, h.before);
      LatchStep(w.cfg, s, h.event);
      if h.event.TriggerMrm? {
        assert Triggered(h) && NotCleared(w, h, h);
      } else if s.safety.serviceMrmActive && !(h.event.ClearMrm? && !s.par.estop) {
        var q :| Triggered(q) && NotCleared(w, q, h.before);
        assert NotCleared(w, q, h);
      }
    }
  }

  /** A trigger persists to every later publication, through E-stop and its release, until cleared. */
  lemma {:induction false} LatchPersists(w: World, q: History, h: History)
    requires Triggered(q) && NotCleared(w, q, h)
    ensures At(w, h).safety.serviceMrmActive
    ensures SafetyManager.SafetyOutput(w.cfg.safety, At(w, h).par, At(w, h).safety, At(w, h).now).state
            == if At(w, h).par.estop then Estop else Mrm
  {
    LatchedIff(w, h);
  }

  lemma {:induction false} MrmSpreads(w: World, q: History, h: History)
    requires Punctual(w, h) && Triggered(q) && NotCleared(w, q, h)
    ensures SafetySettling(At(w, h), STOP_LEVELS, At(w, q).now)
  {
    var s := At(w, h.before);
    StepNow(w.cfg, s, h.event);
    if h == q {
    } else {
      MrmSpreads(w, q, h.before);
      LatchPersists(w, q, h.before);
    }
    SettlingStep(w.cfg, s, h.event, STOP_LEVELS, At(w, q).now);
  }

  /** One delivery after the trigger, no motion is approved and the gate applies nothing. */
  lemma {:induction false} MrmStopsOutput(w: World, q: History, h: History)
    requires ValidBounds(w.cfg.bounds) && Punctual(w, h) && Triggered(q) && NotCleared(w, q, h)
    requires At(w, h).now > At(w, q).now + w.cfg.bounds.delivery
    ensures ArbiterOutput(w.cfg, At(w, h)).approved in {None, Some(ZERO)}
    ensures GateAction(w.cfg, At(w, h)).StopHardware?
    ensures At(w, h).loco.safetyState in STOP_LEVELS
  {
    var s, t, d := At(w, h), At(w, q).now, w.cfg.bounds.delivery;
    MrmSpreads(w, q, h);
    NeverLate(w, h);
    Settled(s.arbiter.safetyState, s.net.safetyToArbiter, STOP_LEVELS, t, s.now, d);
    Settled(s.loco.safetyState, s.net.safetyToLoco, STOP_LEVELS, t, s.now, d);
    Settled(s.gate.safetyState, s.net.safetyToGate, STOP_LEVELS, t, s.now, d);
  }

  lemma {:induction false} MrmKeepsHalting(w: World, q: History, h: History, t: Time)
    requires ValidBounds(w.cfg.bounds) && Punctual(w, h) && Triggered(q) && NotCleared(w, q, h)
    requires t == At(w, q).now + w.cfg.bounds.delivery
    ensures HaltsAfter(w, q, h, t)
  {
    if At(w, h).now > t { MrmStopsOutput(w, q, h); }
    if h == q {
    } else {
      MrmKeepsHalting(w, q, h.before, t);
    }
  }

  lemma {:induction false} MrmHalts(w: World, q: History, h: History, t: Time)
    requires ValidBounds(w.cfg.bounds) && Punctual(w, h) && Triggered(q) && NotCleared(w, q, h)
    requires t == At(w, q).now + w.cfg.bounds.delivery
    ensures At(w, h).timers.loco > t ==> Locomotion.AtRest(At(w, h).loco)
  {
    MrmKeepsHalting(w, q, h, t);
    TimerHalts(w, q, h, t);
  }

  /** The MRM bound: one delivery and one adapter period after the trigger the robot is at rest. */
  lemma {:induction false} MrmBoundsMotion(w: World, q: History, h: History)
    requires ValidBounds(w.cfg.bounds) && Punctual(w, h) && Triggered(q) && NotCleared(w, q, h)
    requires At(w, h).now > At(w, q).now + w.cfg.bounds.delivery + w.cfg.bounds.loco
    ensures Locomotion.AtRest(At(w, h).loco)
  {
    var t := At(w, q).now + w.cfg.bounds.delivery;
    LocoTimerFired(w, h, t);
    MrmHalts(w, q, h, t);
  }

  // ---------------------------------------------------------------- mode changes

  /** The event makes the mode manager publish its mode. */
  predicate PublishesMode(s: State, e: Event) {
    e.ModeTimer? || e.Takeover? || (e.SetMode? && ModeManager.SetModeAccepted(s.mode, e.code))
  }

  ghost predicate ModeSettling(s: State, m: Mode, due: Time) {
    && Settling(s.arbiter.activeMode, s.net.modeToArbiter, {m}, due)
    && Settling(s.loco.activeMode, s.net.modeToLoco, {m}, due)
    && Settling(s.gate.activeMode, s.net.modeToGate, {m}, due)
  }

  lemma ModePublicationSettles(s: State, m: Mode, due: Time)
    requires s.mode.activeMode == m
    requires ModeSettling(s, m, due) || s.now <= due
    ensures ModeSettling(PublishMode(s), m, due)
  {
    var msg := Stamped(m, s.now);
    SettlingSend(s.arbiter.activeMode, s.net.modeToArbiter, msg, {m}, due);
    SettlingSend(s.loco.activeMode, s.net.modeToLoco, msg, {m}, due);
    SettlingSend(s.gate.activeMode, s.net.modeToGate, msg, {m}, due);
  }

  lemma ModeDeliverySettles(c: Config, s: State, link: Link, m: Mode, due: Time)
    requires ModeSettling(s, m, due)
    ensures ModeSettling(Delivered(c, s, link), m, due)
  {}

  lemma ModeSettlingStep(c: Config, s: State, e: Event, m: Mode, due: Time)
    requires !e.Lose?
    requires Apply(c, s, e).mode.activeMode == m
    requires ModeSettling(s, m, due) || (PublishesMode(s, e) && s.now <= due)
    ensures ModeSettling(Apply(c, s, e), m, due)
  {
    match e
    case SetMode(code) =>
      if PublishesMode(s, e) {
        ModePublicationSettles(s.(mode := ModeManager.OnSetMode(s.mode, code, s.now)), m, due);
      }
    case Takeover => ModePublicationSettles(s.(mode := ModeManager.OnTakeover(s.mode, s.now)), m, due);
    case ModeTimer => ModePublicationSettles(s, m, due);
    case Deliver(link) => ModeDeliverySettles(c, s, link, m, due);
    case _ =>
  }

  ghost predicate ModeSince(w: World, p: History, h: History, m: Mode) {
    HoldsSince(w, p, h, (s: State) => s.mode.activeMode == m)
  }

  /** A mode published by `e` right after `p`, and kept, settles in every view. */
  lemma {:induction false} ModeSpreads(w: World, p: History, e: Event, h: History, m: Mode)
    requires Punctual(w, h) && ModeSince(w, Then(p, e), h, m) && PublishesMode(At(w, p), e)
    ensures ModeSettling(At(w, h), m, At(w, p).now)
  {
    var s := At(w, h.before);
    if h == Then(p, e) {
    } else {
      ModeSpreads(w, p, e, h.before, m);
    }
    ModeSettlingStep(w.cfg, s, h.event, m, At(w, p).now);
  }

  /** One delivery after its publication, a mode that is kept is everyone's view. */
  lemma {:induction false} ModeArrives(w: World, p: History, e: Event, h: History, m: Mode)
    requires ValidBounds(w.cfg.bounds) && Punctual(w, h)
    requires ModeSince(w, Then(p, e), h, m) && PublishesMode(At(w, p), e)
    requires At(w, h).now > At(w, p).now + w.cfg.bounds.delivery
    ensures At(w, h).arbiter.activeMode == At(w, h).loco.activeMode == At(w, h).gate.activeMode == m
  {
    var s, t, d := At(w, h), At(w, p).now, w.cfg.bounds.delivery;
    ModeSpreads(w, p, e, h, m);
    NeverLate(w, h);
    Settled(s.arbiter.activeMode, s.net.modeToArbiter, {m}, t, s.now, d);
    Settled(s.loco.activeMode, s.net.modeToLoco, {m}, t, s.now, d);
    Settled(s.gate.activeMode, s.net.modeToGate, {m}, t, s.now, d);
  }

  // ---------------------------------------------------------------- modes that halt

  /** A mode that lets nothing move: every known mode but the active ones. */
  predicate HaltingMode(m: Mode) {
    m in {Inactive, Maintenance, ModeFault, Shutdown}
  }

  /** One delivery after its publication, such a mode has the arbiter approve no motion and the gate shut. */
  lemma {:induction false} ModeStopsOutput(w: World, q: History, e: Event, h: History, m: Mode)
    requires ValidBounds(w.cfg.bounds) && Punctual(w, h) && HaltingMode(m)
    requires ModeSince(w, Then(q, e), h, m) && PublishesMode(At(w, q), e)
    requires At(w, h).now > At(w, q).now + w.cfg.bounds.delivery
    ensures ArbiterOutput(w.cfg, At(w, h)).approved in {None, Some(ZERO)}
    ensures GateAction(w.cfg, At(w, h)).StopHardware?
  {
    ModeArrives(w, q, e, h, m);
  }

  lemma {:induction false} ModeKeepsHalting(w: World, q: History, e: Event, h: History, m: Mode, t: Time)
    requires ValidBounds(w.cfg.bounds) && Punctual(w, h) && HaltingMode(m)
    requires ModeSince(w, Then(q, e), h, m) && PublishesMode(At(w, q), e)
    requires t == At(w, q).now + w.cfg.bounds.delivery
    ensures HaltsAfter(w, Then(q, e), h, t)
  {
    if At(w, h).now > t { ModeArrives(w, q, e, h, m); }
    if h == Then(q, e) {
    } else {
      ModeKeepsHalting(w, q, e, h.before, m, t);
    }
  }

  lemma {:induction false} ModeHalts(w: World, q: History, e: Event, h: History, m: Mode, t: Time)
    requires ValidBounds(w.cfg.bounds) && Punctual(w, h) && HaltingMode(m)
    requires ModeSince(w, Then(q, e), h, m) && PublishesMode(At(w, q), e)
    requires t == At(w, q).now + w.cfg.bounds.delivery
    ensures At(w, h).timers.loco > t ==> Locomotion.AtRest(At(w, h).loco)
  {
    ModeKeepsHalting(w, q, e, h, m, t);
    StepNow(w.cfg, At(w, q), e);
    TimerHalts(w, Then(q, e), h, t);
  }

  /**
   The mode bound: one delivery and one adapter period after a mode in which nothing may move was published,
   and for as long as it is kept, the robot is at rest.
   */
  lemma {:induction false} ModeBoundsMotion(w: World, q: History, e: Event, h: History, m: Mode)
    requires ValidBounds(w.cfg.bounds) && Punctual(w, h) && HaltingMode(m)
    requires ModeSince(w, Then(q, e), h, m) && PublishesMode(At(w, q), e)
    requires At(w, h).now > At(w, q).now + w.cfg.bounds.delivery + w.cfg.bounds.loco
    ensures Locomotion.AtRest(At(w, h).loco)
  {
    var t := At(w, q).now + w.cfg.bounds.delivery;
    LocoTimerFired(w, h, t);
    ModeHalts(w, q, e, h, m, t);
  }
}
