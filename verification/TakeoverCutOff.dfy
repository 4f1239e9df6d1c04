/** Operator takeover: always available from an active mode, and final for autonomy one delivery later. */
module TakeoverCutOff {
  import opened Messages
  import opened Runtime
  import opened BoundedStop
  import opened Provenance
  import opened DataAge
  import CommandArbiter
  import HardwareGate
  import Locomotion

  /** Whatever the safety state, a takeover from an active mode puts the runtime in teleoperation. */
  lemma TakeoverAlwaysAccepted(c: Config, s: State)
    requires IsActive(s.mode.activeMode)
    ensures Apply(c, s, Takeover).mode.activeMode == Teleop
    ensures Apply(c, s, Takeover).net.modeToArbiter == s.net.modeToArbiter + [Stamped(Teleop, s.now)]
  {}

  /**
   From one delivery after a takeover until the mode is changed again, the arbiter approves nothing but
   teleoperation commands and stops.
   */
  lemma {:induction false} TakeoverCutsAutonomyOff(w: World, p: History, h: History)
    requires ValidBounds(w.cfg.bounds) && Punctual(w, h)
    requires IsActive(At(w, p).mode.activeMode)
    requires ModeSince(w, Then(p, Takeover), h, Teleop)
    requires At(w, h).now > At(w, p).now + w.cfg.bounds.delivery
    ensures var out := ArbiterOutput(w.cfg, At(w, h));
      && out.state.activeSource !in {CommandArbiter.CandidateFrom(CommandArbiter.FromAutonomy),
                                     CommandArbiter.CandidateFrom(CommandArbiter.FromAiPolicy)}
      && (out.approved.Some? && out.approved.value != ZERO ==>
            ComesFrom(w, h, CommandArbiter.FromTeleop, out.approved.value))
  {
    var s, out := At(w, h), ArbiterOutput(w.cfg, At(w, h));
    ModeArrives(w, p, Takeover, h, Teleop);
    if out.state.outputEnabled {
      TableIsWellKeyed(w, h);
      CommandArbiter.EnabledOutput(w.cfg.arbiter, s.arbiter, CommandArbiter.FromTeleop, s.now);
    } else {
      CommandArbiter.DisabledOutput(w.cfg.arbiter, s.arbiter, s.now);
    }
    if out.approved.Some? && out.approved.value != ZERO {
      ApprovedProvenance(w, h, out.approved.value);
      var src :| ComesFrom(w, h, src, out.approved.value);
    }
  }

  // ---------------------------------------------------------------- at the actuators

  lemma {:induction false} ModeHeldUntilThen(w: World, q: History, h: History, g: History, m: Mode)
    requires ModeSince(w, q, h, m) && Extends(h, g) && Extends(g, q)
    ensures ModeSince(w, q, g, m)
  {
    HeldUntilThen(w, q, h, g, (s: State) => s.mode.activeMode == m);
  }

  /** The beginning `g` of a run, reached later than the end of another beginning `q`, continues it. */
  lemma {:induction false} LaterContinues(w: World, h: History, g: History, q: History)
    requires Extends(h, g) && Extends(h, q) && At(w, g).now > At(w, q).now
    ensures Extends(g, q)
  {
    BeginningsCompare(h, g, q);
    if Extends(q, g) { ClockIsMonotone(w, q, g); }
  }

  /** Teleoperation has been kept since a takeover, accepted after `p`. */
  ghost predicate TakenOver(w: World, p: History, h: History) {
    && ValidBounds(w.cfg.bounds) && Punctual(w, h)
    && IsActive(At(w, p).mode.activeMode) && ModeSince(w, Then(p, Takeover), h, Teleop)
  }

  /** What the arbiter published in the run later than one delivery after the takeover is the operator's. */
  lemma {:induction false} PublishedByOperator(w: World, p: History, h: History, g: History, out: Twist)
    requires TakenOver(w, p, h) && Extends(h, Then(g, ArbiterTimer))
    requires ArbiterOutput(w.cfg, At(w, g)).approved == Some(out) && out != ZERO
    requires At(w, g).now > At(w, p).now + w.cfg.bounds.delivery
    ensures ComesFrom(w, g, CommandArbiter.FromTeleop, out)
  {
    var q := Then(p, Takeover);
    HeldExtends(w, q, h, (s: State) => s.mode.activeMode == Teleop);
    ExtendsTransitive(h, Then(g, ArbiterTimer), g);
    StepNow(w.cfg, At(w, p), Takeover);
    LaterContinues(w, h, g, q);
    PunctualBeginning(w, h, g);
    ModeHeldUntilThen(w, q, h, g, Teleop);
    TakeoverCutsAutonomyOff(w, p, g);
  }

  /** A command stored long enough after a takeover descends from the operator's candidates. */
  lemma {:induction false} StoredByOperator(
    w: World, p: History, h: History, out: Twist, at: Time, kept: Duration)
    requires TakenOver(w, p, h) && StoredFresh(w, h, out, at, w.cfg.bounds.delivery) && out != ZERO
    requires At(w, p).now + w.cfg.bounds.delivery + w.cfg.bounds.delivery + kept < At(w, h).now <= at + kept
    ensures DescendsFrom(w, h, CommandArbiter.FromTeleop, out, At(w, h).now, Age(w.cfg, kept))
  {
    var t :| PublishedAt(w, h, out, t) && t <= at <= t + w.cfg.bounds.delivery;
    var g :| Extends(h, Then(g, ArbiterTimer))
      && At(w, g).now == t && ArbiterOutput(w.cfg, At(w, g)).approved == Some(out);
    PublishedByOperator(w, p, h, g, out);
  }

  /**
   At the gate: once two deliveries and the gate's timeout have passed since a takeover, and until the mode
   is changed again, every nonzero command given to the actuators descends from a teleoperation candidate.
   */
  lemma {:induction false} TakeoverReachesGate(w: World, p: History, h: History, out: Twist)
    requires TakenOver(w, p, h)
    requires At(w, h).now >
               At(w, p).now + w.cfg.bounds.delivery + w.cfg.bounds.delivery + w.cfg.gate.approvedTimeout
    requires GateAction(w.cfg, At(w, h)) == HardwareGate.Apply(out) && out != ZERO
    ensures DescendsFrom(w, h, CommandArbiter.FromTeleop, out, At(w, h).now, Age(w.cfg, w.cfg.gate.approvedTimeout))
  {
    var s, kept := At(w, h), w.cfg.gate.approvedTimeout;
    GateStoresFresh(w, h);
    HardwareGate.GateOpensIff(w.cfg.gate, s.gate, s.now);
    StoredByOperator(w, p, h, out, s.gate.lastApprovedAt.value, kept);
  }

  /** The velocity is that of a command that descends from a teleoperation candidate of bounded age. */
  ghost predicate OperatorMoves(w: World, h: History, linear: real, angular: real, age: Duration) {
    exists out: Twist :: out.lx == linear && out.az == angular
      && DescendsFrom(w, h, CommandArbiter.FromTeleop, out, At(w, h).now, age)
  }

  /**
   At the adapter: once two deliveries and the command timeout have passed since a takeover, and until the
   mode is changed again, a robot still moving after a timer callback follows the operator.
   */
  lemma {:induction false} TakeoverReachesRobot(w: World, p: History, h: History)
    requires TakenOver(w, p, h)
    requires At(w, h).now >
               At(w, p).now + w.cfg.bounds.delivery + w.cfg.bounds.delivery + w.cfg.loco.commandTimeout
    ensures var l := Locomotion.Tick(w.cfg.loco, At(w, h).loco, At(w, h).now);
      l.linear != 0.0 || l.angular != 0.0 ==>
        OperatorMoves(w, h, l.linear, l.angular, Age(w.cfg, w.cfg.loco.commandTimeout))
  {
    var s, kept := At(w, h), w.cfg.loco.commandTimeout;
    var l := Locomotion.Tick(w.cfg.loco, s.loco, s.now);
    if l.linear != 0.0 || l.angular != 0.0 {
      LocoFollowsPublished(w, h);
      MovingTickIsFresh(w.cfg.loco, s.loco, s.now);
      var out: Twist :| out.lx == s.loco.linear && out.az == s.loco.angular
        && StoredFresh(w, h, out, s.loco.lastCommandAt.value, w.cfg.bounds.delivery);
      StoredByOperator(w, p, h, out, s.loco.lastCommandAt.value, kept);
    }
  }
}
