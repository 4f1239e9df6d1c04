/** A run from start-up, all at one moment, to a teleoperated robot whose first command has been heard. */
module StartUp {
  import opened Messages
  import opened Runtime
  import CommandArbiter
  import ModeManager
  import SafetyManager

  /** Some circumstances make the arbiter publish a command. */
  predicate CanPublish(c: Config) {
    c.arbiter.publishStopOnBlock || c.arbiter.timeout >= 0
  }

  /** The arbiter after it has heard of clear safety and teleoperation, and received one command at `t0`. */
  function Driven(t0: Time): CommandArbiter.State {
    CommandArbiter.State(
      Teleop, Ok, Some(Ok),
      map[CommandArbiter.FromTeleop := CommandArbiter.Candidate(CommandArbiter.FromTeleop, Teleop, ZERO, t0)])
  }

  /** Teleoperation is in force and heard of, and a first command has just been heard by the safety manager. */
  ghost predicate Started(s: State, t0: Time) {
    && s.now == t0 && s.timers.arbiter == t0
    && s.mode.activeMode == Teleop && s.safety.activeMode == Teleop && s.net.modeToSafety == []
    && s.arbiter == Driven(t0)
    && s.safety.approvedAt == Some(t0) && s.net.approvedToSafety == []
  }

  // ---------------------------------------------------------------- three events at a time

  /** The run with three more events. */
  function Continue(h: History, es: seq<Event>): History
    requires |es| == 3
  {
    Then(Then(Then(h, es[0]), es[1]), es[2])
  }

  /** No time passes, and nothing is lost. */
  predicate Instant(es: seq<Event>) {
    forall e | e in es :: !e.Advance? && !e.Lose?
  }

  lemma {:induction false} ThreeMore(w: World, h: History, es: seq<Event>)
    requires |es| == 3 && Instant(es)
    ensures Punctual(w, h) ==> Punctual(w, Continue(h, es))
    ensures At(w, Continue(h, es))
            == Apply(w.cfg, Apply(w.cfg, Apply(w.cfg, At(w, h), es[0]), es[1]), es[2])
  {
    var h1, h2 := Then(h, es[0]), Then(Then(h, es[0]), es[1]);
    assert es[0] in es && es[1] in es && es[2] in es;
    assert At(w, h1) == Apply(w.cfg, At(w, h), es[0]);
    assert At(w, h2) == Apply(w.cfg, At(w, h1), es[1]);
  }

  /** No stop is demanded, and safety says so. */
  const SAY_CLEAR: seq<Event> := [SetEstop(false), SetMrmParameter(false, ""), SafetyTimer]

  /** Safety is heard, and teleoperation requested. */
  const ENTER_TELEOP: seq<Event> :=
    [Deliver(SafetyToMode), Deliver(SafetyToArbiter), SetMode(ModeManager.TELEOP_CODE)]

  /** Teleoperation is heard of. */
  const HEAR_TELEOP: seq<Event> := [TeleopHeartbeat, Deliver(ModeToArbiter), Deliver(ModeToSafety)]

  /** One command is published and heard. */
  const ONE_COMMAND: seq<Event> :=
    [Candidate(CommandArbiter.FromTeleop, ZERO), ArbiterTimer, Deliver(ApprovedToSafety)]

  lemma ClearSaid(c: Config, s: State)
    requires s.safety == SafetyManager.INITIAL && s.net.safetyToMode == [] && s.net.safetyToArbiter == []
    ensures var s' := Apply(c, Apply(c, Apply(c, s, SetEstop(false)), SetMrmParameter(false, "")), SafetyTimer);
      && s'.now == s.now && s'.mode == s.mode && s'.arbiter == s.arbiter
      && s'.safety == s.safety.(currentSafety := Ok)
      && s'.net.safetyToMode == s'.net.safetyToArbiter == [Stamped(Ok, s.now)]
      && s'.net.modeToArbiter == s.net.modeToArbiter && s'.net.modeToSafety == s.net.modeToSafety
      && s'.net.approvedToSafety == s.net.approvedToSafety
  {
    SafetyManager.PublishedLevel(c.safety, SafetyManager.Parameters(false, false, ""), s.safety, s.now);
  }

  lemma TeleopEntered(c: Config, s: State)
    requires s.mode.activeMode != Shutdown && s.arbiter == CommandArbiter.INITIAL
    requires s.net.safetyToMode == s.net.safetyToArbiter == [Stamped(Ok, s.now)]
    requires s.net.modeToArbiter == [] && s.net.modeToSafety == []
    ensures var s' := Apply(c, Apply(c, Apply(c, s, Deliver(SafetyToMode)), Deliver(SafetyToArbiter)),
                            SetMode(ModeManager.TELEOP_CODE));
      && s'.now == s.now && s'.safety == s.safety && s'.net.approvedToSafety == s.net.approvedToSafety
      && s'.mode.activeMode == Teleop && s'.arbiter == CommandArbiter.OnSafety(CommandArbiter.INITIAL, Ok)
      && s'.net.modeToArbiter == s'.net.modeToSafety == [Stamped(Teleop, s.now)]
  {
    var s2 := Apply(c, Apply(c, s, Deliver(SafetyToMode)), Deliver(SafetyToArbiter));
    assert s2.mode == ModeManager.OnSafety(s.mode, Ok);
    assert ModeManager.SetModeAccepted(s2.mode, ModeManager.TELEOP_CODE);
  }

  lemma TeleopHeard(c: Config, s: State)
    requires s.net.modeToArbiter == s.net.modeToSafety == [Stamped(Teleop, s.now)]
    ensures var s' := Apply(c, Apply(c, Apply(c, s, TeleopHeartbeat), Deliver(ModeToArbiter)), Deliver(ModeToSafety));
      && s'.now == s.now && s'.mode == s.mode && s'.net.modeToSafety == []
      && s'.safety == SafetyManager.OnMode(SafetyManager.OnTeleopHeartbeat(s.safety, s.now), Teleop)
      && s'.arbiter == CommandArbiter.OnMode(s.arbiter, Teleop)
      && s'.net.approvedToSafety == s.net.approvedToSafety
  {}

  lemma CommandHeard(c: Config, s: State)
    requires CanPublish(c) && s.net.approvedToSafety == []
    requires s.arbiter == CommandArbiter.State(Teleop, Ok, Some(Ok), map[])
    ensures var s' := Apply(c, Apply(c, Apply(c, s, Candidate(CommandArbiter.FromTeleop, ZERO)), ArbiterTimer),
                            Deliver(ApprovedToSafety));
      && s'.now == s.now && s'.timers.arbiter == s.now && s'.mode == s.mode
      && s'.safety == SafetyManager.OnApproved(s.safety, s.now)
      && s'.net.modeToSafety == s.net.modeToSafety
      && s'.arbiter == Driven(s.now) && s'.net.approvedToSafety == []
  {
    var s1 := Apply(c, s, Candidate(CommandArbiter.FromTeleop, ZERO));
    assert c.arbiter.timeout >= 0 ==> CommandArbiter.FreshFor(c.arbiter, s1.arbiter, CommandArbiter.FromTeleop, s1.now);
    CommandArbiter.OutputEnabledIff(c.arbiter, s1.arbiter, s1.now);
    assert |Apply(c, s1, ArbiterTimer).net.approvedToSafety| == 1;
  }

  lemma {:induction false} TeleopStarts(w: World) returns (h: History)
    requires w.mode != Shutdown
    ensures Punctual(w, h)
    ensures var s := At(w, h);
      && s.now == w.start && s.mode.activeMode == Teleop
      && s.arbiter == CommandArbiter.OnSafety(CommandArbiter.INITIAL, Ok)
      && s.net.modeToArbiter == s.net.modeToSafety == [Stamped(Teleop, w.start)] && s.net.approvedToSafety == []
  {
    var h1 := Continue(Start, SAY_CLEAR);
    ThreeMore(w, Start, SAY_CLEAR);
    ClearSaid(w.cfg, At(w, Start));
    h := Continue(h1, ENTER_TELEOP);
    ThreeMore(w, h1, ENTER_TELEOP);
    TeleopEntered(w.cfg, At(w, h1));
  }

  /** Whatever mode but SHUTDOWN and whatever stop demands a system starts with, it can be driven at once. */
  lemma {:induction false} Starting(w: World) returns (h: History)
    requires w.mode != Shutdown && CanPublish(w.cfg)
    ensures Punctual(w, h) && Started(At(w, h), w.start)
  {
    var h2 := TeleopStarts(w);
    var h3 := Continue(h2, HEAR_TELEOP);
    ThreeMore(w, h2, HEAR_TELEOP);
    TeleopHeard(w.cfg, At(w, h2));
    h := Continue(h3, ONE_COMMAND);
    ThreeMore(w, h3, ONE_COMMAND);
    CommandHeard(w.cfg, At(w, h3));
  }
}
