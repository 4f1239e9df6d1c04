/** What the hardware gate's output flag and MRM state say about the arbiter and the safety manager. */
module GateChannels {
  import opened Messages
  import opened Runtime
  import opened BoundedStop
  import opened DataAge
  import opened Deliveries
  import opened Views
  import CommandArbiter
  import HardwareGate

  // ---------------------------------------------------------------- flags come from the arbiter

  /** The arbiter published this output flag at time `t` of the run. */
  ghost predicate FlagPublished(w: World, h: History, flag: bool, t: Time) {
    exists p :: Extends(h, Then(p, ArbiterTimer)) && At(w, p).now == t
      && ArbiterOutput(w.cfg, At(w, p)).state.outputEnabled == flag
  }

  lemma {:induction false} FlagSent(w: World, h: History, p: Parcel)
    requires WasSent(w, h, OutputToGate, p)
    ensures p.value.Enabled? && FlagPublished(w, h, p.value.flag, p.sent)
  {
    var g, e :| Extends(h, Then(g, e)) && p in SentBy(w.cfg, At(w, g), e, OutputToGate) && p.sent == At(w, g).now;
    assert e == ArbiterTimer;
  }

  /** Whatever is delayed or lost, a flag in flight to the gate or stored in it is one the arbiter published. */
  lemma {:induction false} FlagsArePublished(w: World, h: History)
    ensures forall i | 0 <= i < |At(w, h).net.outputToGate| ::
      FlagPublished(w, h, At(w, h).net.outputToGate[i].value, At(w, h).net.outputToGate[i].sent)
    ensures At(w, h).gate.arbitration.Some? ==>
      exists t :: FlagPublished(w, h, At(w, h).gate.arbitration.value, t)
  {
    var ch, ps := At(w, h).net.outputToGate, OnLink(At(w, h).net, OutputToGate);
    forall i | 0 <= i < |ch| ensures FlagPublished(w, h, ch[i].value, ch[i].sent) {
      assert HeardAndComing(w, h, OutputToGate)[|Heard(w, h, OutputToGate)| + i] == ps[i];
      HeardWasSent(w, h, OutputToGate, ps[i]);
      FlagSent(w, h, ps[i]);
    }
    GateFlagIsNewest(w, h);
    if At(w, h).gate.arbitration.Some? {
      NewestWasSent(w, h, OutputToGate);
      FlagSent(w, h, Newest(w, h, OutputToGate).value.msg);
    }
  }

  /** The arbiter enabled its output in the run at most `age` ago. */
  ghost predicate EnabledWithin(w: World, h: History, age: Duration) {
    exists t :: FlagPublished(w, h, true, t) && t <= At(w, h).now <= t + age
  }

  /** The age an output flag can have when the gate acts on it. */
  function FlagAge(c: Config): Duration {
    c.gate.arbitrationTimeout + c.bounds.delivery
  }

  /**
   In a punctual run a gate that applies a command rests on an output the arbiter enabled no longer ago than
   the arbitration timeout and one delivery.
   */
  lemma {:induction false} GateRestsOnEnabled(w: World, h: History)
    requires ValidBounds(w.cfg.bounds) && Punctual(w, h) && GateAction(w.cfg, At(w, h)).Apply?
    ensures EnabledWithin(w, h, FlagAge(w.cfg))
  {
    GateCommandIsNewest(w, h);
    HardwareGate.GateOpensIff(w.cfg.gate, At(w, h).gate, At(w, h).now);
    GateFlagIsNewest(w, h);
    NewestWasSent(w, h, OutputToGate);
    NewestIsTimely(w, h, OutputToGate);
    FlagSent(w, h, Newest(w, h, OutputToGate).value.msg);
  }

  /** A gate that applies a command has been told so on each link: safety, mode, flag and command, and no MRM. */
  lemma {:induction false} GateRestsOnMessages(w: World, h: History, out: Twist)
    requires GateAction(w.cfg, At(w, h)) == HardwareGate.Apply(out)
    ensures Newest(w, h, SafetyToGate).Some?
            && Newest(w, h, SafetyToGate).value.msg.value in {SafetyIs(Ok), SafetyIs(Warn)}
    ensures Newest(w, h, ModeToGate).Some?
            && Newest(w, h, ModeToGate).value.msg.value in {ModeIs(Teleop), ModeIs(Autonomy), ModeIs(AiPolicy)}
    ensures Newest(w, h, MrmToGate).Some? ==> Newest(w, h, MrmToGate).value.msg.value == MrmIs(MrmNone)
    ensures Newest(w, h, OutputToGate).Some? && Newest(w, h, OutputToGate).value.msg.value == Enabled(true)
    ensures Newest(w, h, ApprovedToGate).Some? && Newest(w, h, ApprovedToGate).value.msg.value == Command(out)
  {
    GateCommandIsNewest(w, h);
    GateFlagIsNewest(w, h);
    ActuatorViewsAreNewest(w, h);
    MrmViewIsNewest(w, h);
    ModeViewsAreNewest(w, h);
    HardwareGate.GateOpensIff(w.cfg.gate, At(w, h).gate, At(w, h).now);
  }

  /**
   A nonzero command the gate applies in a punctual run descends from a candidate no older than the arbiter
   timeout, one delivery and the gate's own timeout together, and lies within the limits. It rests on an
   output the arbiter enabled no longer ago than the arbitration timeout and one delivery, and on views of
   clear safety, no MRM and an active mode.
   */
  lemma {:induction false} GateAppliesFreshData(w: World, h: History, out: Twist)
    requires ValidBounds(w.cfg.bounds) && Punctual(w, h)
    requires GateAction(w.cfg, At(w, h)) == HardwareGate.Apply(out) && out != ZERO
    ensures Descends(w, h, out, At(w, h).now, Age(w.cfg, w.cfg.gate.approvedTimeout))
    ensures w.cfg.arbiter.maxLinear >= 0.0 && w.cfg.arbiter.maxAngular >= 0.0 ==>
              CommandArbiter.WithinLimits(w.cfg.arbiter, out)
    ensures EnabledWithin(w, h, FlagAge(w.cfg))
    ensures var g := At(w, h).gate;
      g.safetyState in {Ok, Warn} && g.mrmState == MrmNone && g.activeMode in {Teleop, Autonomy, AiPolicy}
  {
    GateDescends(w, h, out);
    GateRestsOnEnabled(w, h);
  }

  // ---------------------------------------------------------------- a disabled output shuts the gate

  /** Every firing of the arbiter from `p` on up to `h` found the output disabled. */
  ghost predicate DisabledSince(w: World, p: History, h: History) {
    h == p
    || (h.Then? && DisabledSince(w, p, h.before)
        && (h.event.ArbiterTimer? ==> !ArbiterOutput(w.cfg, At(w, h.before)).state.outputEnabled))
  }

  /** The gate holds no enabled flag, or will not once the flags sent up to `due` have arrived. */
  ghost predicate FlagSettling(s: State, due: Time) {
    Settling(s.gate.arbitration == Some(true), s.net.outputToGate, {false}, due)
  }

  lemma FlagChannelStep(c: Config, s: State, e: Event)
    requires !e.Lose?
    ensures var ch, s' := s.net.outputToGate, Apply(c, s, e);
      if e.ArbiterTimer? then
        s'.net.outputToGate == ch + [Stamped(ArbiterOutput(c, s).state.outputEnabled, s.now)]
        && s'.gate.arbitration == s.gate.arbitration
      else if e == Deliver(OutputToGate) && ch != [] then
        s'.net.outputToGate == ch[1..] && s'.gate.arbitration == Some(ch[0].value)
      else s'.net.outputToGate == ch && s'.gate.arbitration == s.gate.arbitration
  {}

  lemma FlagSettlingStep(c: Config, s: State, e: Event, due: Time)
    requires !e.Lose? && (e.ArbiterTimer? ==> !ArbiterOutput(c, s).state.outputEnabled)
    requires FlagSettling(s, due) || (e.ArbiterTimer? && s.now <= due)
    ensures FlagSettling(Apply(c, s, e), due)
  {
    var view, ch := s.gate.arbitration == Some(true), s.net.outputToGate;
    FlagChannelStep(c, s, e);
    if e.ArbiterTimer? {
      SettlingSend(view, ch, Stamped(false, s.now), {false}, due);
    } else if e == Deliver(OutputToGate) && ch != [] {
      assert FlagSettling(s, due);
      SettlingReceive(view, ch, {false}, due);
    }
  }

  lemma ArbiterTimerStep(c: Config, s: State, e: Event)
    ensures Apply(c, s, e).timers.arbiter == if e.ArbiterTimer? then s.now else s.timers.arbiter
  {
    TimersStep(c, s, e);
  }

  lemma {:induction false} ArbiterFiredBefore(w: World, h: History)
    ensures At(w, h).timers.arbiter <= At(w, h).now
  {
    match h
    case Start =>
    case Then(before, e) =>
      ArbiterFiredBefore(w, before);
      ArbiterTimerStep(w.cfg, At(w, before), e);
      StepNow(w.cfg, At(w, before), e);
  }

  /** Either a disabled flag is on its way, or the arbiter has not fired since. */
  lemma {:induction false} DisabledSpreads(w: World, p: History, h: History, due: Time)
    requires ValidBounds(w.cfg.bounds) && Punctual(w, h) && DisabledSince(w, p, h)
    requires due == At(w, p).now + w.cfg.bounds.arbiter
    ensures FlagSettling(At(w, h), due) || At(w, h).timers.arbiter <= At(w, p).now
  {
    if h == p {
      ArbiterFiredBefore(w, h);
    } else {
      var s := At(w, h.before);
      DisabledSpreads(w, p, h.before, due);
      NeverLate(w, h.before);
      ArbiterTimerStep(w.cfg, s, h.event);
      if FlagSettling(s, due) || h.event.ArbiterTimer? { FlagSettlingStep(w.cfg, s, h.event, due); }
    }
  }

  /**
   An arbiter that finds its output disabled at every firing since `p` has the gate shut once one of its
   periods and one delivery have passed, whatever commands are still in flight.
   */
  lemma {:induction false} DisabledShutsGate(w: World, p: History, h: History)
    requires ValidBounds(w.cfg.bounds) && Punctual(w, h) && DisabledSince(w, p, h)
    requires At(w, h).now > At(w, p).now + w.cfg.bounds.arbiter + w.cfg.bounds.delivery
    ensures At(w, h).gate.arbitration != Some(true)
    ensures GateAction(w.cfg, At(w, h)).StopHardware?
  {
    var s, due := At(w, h), At(w, p).now + w.cfg.bounds.arbiter;
    DisabledSpreads(w, p, h, due);
    NeverLate(w, h);
    Settled(s.gate.arbitration == Some(true), s.net.outputToGate, {false}, due, s.now, w.cfg.bounds.delivery);
  }

  // ---------------------------------------------------------------- the MRM state reaches the gate

  ghost predicate MrmSettling(s: State, goal: set<MrmState>, due: Time) {
    Settling(s.gate.mrmState, s.net.mrmToGate, goal, due)
  }

  lemma MrmChannelStep(c: Config, s: State, e: Event)
    requires !e.Lose?
    ensures var ch, s' := s.net.mrmToGate, Apply(c, s, e);
      if PublishesSafety(s, e) then
        s'.net.mrmToGate == ch + [Stamped(PublishedMrm(c, s, e), s.now)] && s'.gate.mrmState == s.gate.mrmState
      else if e == Deliver(MrmToGate) && ch != [] then
        s'.net.mrmToGate == ch[1..] && s'.gate.mrmState == ch[0].value
      else s'.net.mrmToGate == ch && s'.gate.mrmState == s.gate.mrmState
  {}

  lemma MrmSettlingStep(c: Config, s: State, e: Event, goal: set<MrmState>, due: Time)
    requires !e.Lose? && (PublishesSafety(s, e) ==> PublishedMrm(c, s, e) in goal)
    requires MrmSettling(s, goal, due) || (PublishesSafety(s, e) && s.now <= due)
    ensures MrmSettling(Apply(c, s, e), goal, due)
  {
    var ch := s.net.mrmToGate;
    MrmChannelStep(c, s, e);
    if PublishesSafety(s, e) {
      SettlingSend(s.gate.mrmState, ch, Stamped(PublishedMrm(c, s, e), s.now), goal, due);
    } else if e == Deliver(MrmToGate) && ch != [] {
      assert MrmSettling(s, goal, due);
      SettlingReceive(s.gate.mrmState, ch, goal, due);
    }
  }

  const MRM_STOPS: set<MrmState> := {MrmStop, MrmFault}

  lemma DemandedMrm(c: Config, s: State, e: Event)
    requires PublishesSafety(s, e) && (s.par.estop || e.TriggerMrm? || (s.safety.serviceMrmActive && !e.ClearMrm?))
    ensures PublishedMrm(c, s, e) == if s.par.estop then MrmFault else MrmStop
  {}

  lemma {:induction false} TriggerSpreadsToGate(w: World, q: History, h: History, due: Time)
    requires Punctual(w, h) && Triggered(q) && NotCleared(w, q, h) && due == At(w, q).now
    ensures MrmSettling(At(w, h), MRM_STOPS, due)
  {
    var s, e := At(w, h.before), h.event;
    StepNow(w.cfg, s, e);
    if h == q {
    } else {
      TriggerSpreadsToGate(w, q, h.before, due);
      LatchPersists(w, q, h.before);
    }
    if PublishesSafety(s, e) { DemandedMrm(w.cfg, s, e); }
    MrmSettlingStep(w.cfg, s, e, MRM_STOPS, due);
  }

  /** One delivery after a trigger, and until it is cleared, the gate views an MRM. */
  lemma {:induction false} TriggerReachesGate(w: World, q: History, h: History)
    requires ValidBounds(w.cfg.bounds) && Punctual(w, h) && Triggered(q) && NotCleared(w, q, h)
    requires At(w, h).now > At(w, q).now + w.cfg.bounds.delivery
    ensures At(w, h).gate.mrmState in MRM_STOPS
  {
    var s, due := At(w, h), At(w, q).now;
    TriggerSpreadsToGate(w, q, h, due);
    NeverLate(w, h);
    Settled(s.gate.mrmState, s.net.mrmToGate, MRM_STOPS, due, s.now, w.cfg.bounds.delivery);
  }

  lemma {:induction false} EstopSpreadsToGate(w: World, p: History, h: History, due: Time)
    requires ValidBounds(w.cfg.bounds) && Punctual(w, h) && EstopSince(w, p, h) && due == EstopBy(w, p)
    ensures MrmSettling(At(w, h), {MrmFault}, due) || At(w, h).timers.safety <= At(w, p).now
  {
    if h == p {
      TimersInPast(w, h);
    } else {
      var s, e := At(w, h.before), h.event;
      EstopSpreadsToGate(w, p, h.before, due);
      NeverLate(w, h.before);
      SafetyTimerStep(w.cfg, s, e);
      if PublishesSafety(s, e) { DemandedMrm(w.cfg, s, e); }
      if MrmSettling(s, {MrmFault}, due) || PublishesSafety(s, e) { MrmSettlingStep(w.cfg, s, e, {MrmFault}, due); }
    }
  }

  /** One safety period and one delivery into a held E-stop, the gate views the MRM state FAULT. */
  lemma {:induction false} EstopReachesGate(w: World, p: History, h: History)
    requires ValidBounds(w.cfg.bounds) && Punctual(w, h) && EstopSince(w, p, h)
    requires At(w, h).now > At(w, p).now + w.cfg.bounds.safety + w.cfg.bounds.delivery
    ensures At(w, h).gate.mrmState == MrmFault
  {
    var s, due := At(w, h), EstopBy(w, p);
    EstopSpreadsToGate(w, p, h, due);
    NeverLate(w, h);
    Settled(s.gate.mrmState, s.net.mrmToGate, {MrmFault}, due, s.now, w.cfg.bounds.delivery);
  }
}
