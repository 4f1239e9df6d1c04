/**
 How old the data behind a motion can be: from the candidate the arbiter received to the command the
 actuators are given, over punctual runs.
 */
module DataAge {
  import opened Messages
  import opened Runtime
  import opened Provenance
  import CommandArbiter
  import HardwareGate
  import Locomotion

  /** The arbiter published `out` at time `t` of the run. */
  ghost predicate PublishedAt(w: World, h: History, out: Twist, t: Time) {
    exists p :: Extends(h, Then(p, ArbiterTimer))
      && At(w, p).now == t && ArbiterOutput(w.cfg, At(w, p)).approved == Some(out)
  }

  lemma PublishedLater(w: World, h: History, e: Event, out: Twist, t: Time)
    requires PublishedAt(w, h, out, t)
    ensures PublishedAt(w, Then(h, e), out, t)
  {}

  lemma PublishedInPast(w: World, h: History, out: Twist, t: Time)
    requires PublishedAt(w, h, out, t)
    ensures t <= At(w, h).now
  {
    var p :| Extends(h, Then(p, ArbiterTimer))
      && At(w, p).now == t && ArbiterOutput(w.cfg, At(w, p)).approved == Some(out);
    ExtendsTransitive(h, Then(p, ArbiterTimer), p);
    ClockIsMonotone(w, h, p);
  }

  ghost predicate AllPublished(w: World, h: History, ch: Channel<Twist>) {
    forall i | 0 <= i < |ch| :: PublishedAt(w, h, ch[i].value, ch[i].sent)
  }

  lemma AllPublishedLater(w: World, h: History, e: Event, ch: Channel<Twist>)
    requires AllPublished(w, h, ch)
    ensures AllPublished(w, Then(h, e), ch)
  {}

  /** What one event does to the two command channels that lead to motion. */
  lemma CommandChannelsStep(c: Config, s: State, e: Event)
    ensures var n, n' := s.net, Apply(c, s, e).net;
      match e
      case ArbiterTimer =>
        var out := ArbiterOutput(c, s).approved;
        var a := if out.Some? then [Stamped(out.value, s.now)] else [];
        n'.approvedToLoco == n.approvedToLoco + a && n'.approvedToGate == n.approvedToGate + a
      case Deliver(link) =>
        n'.approvedToLoco == (if link == ApprovedToLoco then Rest(n.approvedToLoco) else n.approvedToLoco)
        && n'.approvedToGate == (if link == ApprovedToGate then Rest(n.approvedToGate) else n.approvedToGate)
      case Lose(link, i) =>
        n'.approvedToLoco == (if link == ApprovedToLoco then Without(n.approvedToLoco, i) else n.approvedToLoco)
        && n'.approvedToGate == (if link == ApprovedToGate then Without(n.approvedToGate, i) else n.approvedToGate)
      case _ => n'.approvedToLoco == n.approvedToLoco && n'.approvedToGate == n.approvedToGate
  {}

  /** Nothing reaches motion but what the arbiter published, whatever is delayed or lost. */
  lemma {:induction false} InFlightWasPublished(w: World, h: History)
    ensures AllPublished(w, h, At(w, h).net.approvedToLoco)
    ensures AllPublished(w, h, At(w, h).net.approvedToGate)
  {
    if h.Start? {
    } else {
      InFlightWasPublished(w, h.before);
      InFlightStep(w, h);
    }
  }

  lemma {:induction false} InFlightStep(w: World, h: History)
    requires h.Then?
    requires AllPublished(w, h.before, At(w, h.before).net.approvedToLoco)
    requires AllPublished(w, h.before, At(w, h.before).net.approvedToGate)
    ensures AllPublished(w, h, At(w, h).net.approvedToLoco)
    ensures AllPublished(w, h, At(w, h).net.approvedToGate)
  {
    var s := At(w, h.before);
    AllPublishedLater(w, h.before, h.event, s.net.approvedToLoco);
    AllPublishedLater(w, h.before, h.event, s.net.approvedToGate);
    CommandChannelsStep(w.cfg, s, h.event);
    if h.event.ArbiterTimer? {
      assert Extends(h, Then(h.before, ArbiterTimer));
      var out := ArbiterOutput(w.cfg, s).approved;
      if out.Some? { assert PublishedAt(w, h, out.value, s.now); }
    }
  }

  /** `out`, stored at `at`, had been published at most `d` earlier. */
  ghost predicate StoredFresh(w: World, h: History, out: Twist, at: Time, d: Duration) {
    exists t :: PublishedAt(w, h, out, t) && t <= at <= t + d
  }

  lemma StoredFreshLater(w: World, h: History, e: Event, out: Twist, at: Time, d: Duration)
    requires StoredFresh(w, h, out, at, d)
    ensures StoredFresh(w, Then(h, e), out, at, d)
  {
    var t :| PublishedAt(w, h, out, t) && t <= at <= t + d;
    PublishedLater(w, h, e, out, t);
  }

  lemma DeliveryIsFresh(w: World, h: History, ch: Channel<Twist>)
    requires AllPublished(w, h, ch) && ch != []
    requires OnTime(ch, At(w, h).now, w.cfg.bounds.delivery)
    ensures StoredFresh(w, h, ch[0].value, At(w, h).now, w.cfg.bounds.delivery)
  {
    PublishedInPast(w, h, ch[0].value, ch[0].sent);
  }

  // ---------------------------------------------------------------- the hardware gate

  lemma GateCommandStep(c: Config, s: State, e: Event)
    ensures var s' := Apply(c, s, e);
      if e == Deliver(ApprovedToGate) && s.net.approvedToGate != []
      then s'.gate.lastApproved == Some(s.net.approvedToGate[0].value) && s'.gate.lastApprovedAt == Some(s.now)
      else s'.gate.lastApproved == s.gate.lastApproved && s'.gate.lastApprovedAt == s.gate.lastApprovedAt
  {}

  lemma {:induction false} GateStoresFresh(w: World, h: History)
    requires ValidBounds(w.cfg.bounds) && Punctual(w, h)
    ensures var g := At(w, h).gate;
      (g.lastApproved.Some? <==> g.lastApprovedAt.Some?)
      && (g.lastApproved.Some? ==>
            StoredFresh(w, h, g.lastApproved.value, g.lastApprovedAt.value, w.cfg.bounds.delivery))
  {
    if h.Start? {
    } else {
      var s := At(w, h.before);
      GateStoresFresh(w, h.before);
      GateCommandStep(w.cfg, s, h.event);
      if h.event == Deliver(ApprovedToGate) && s.net.approvedToGate != [] {
        InFlightWasPublished(w, h.before);
        NeverLate(w, h.before);
        DeliveryIsFresh(w, h.before, s.net.approvedToGate);
        StoredFreshLater(w, h.before, h.event, s.net.approvedToGate[0].value, s.now, w.cfg.bounds.delivery);
      } else if s.gate.lastApproved.Some? {
        var g := s.gate;
        StoredFreshLater(w, h.before, h.event, g.lastApproved.value, g.lastApprovedAt.value, w.cfg.bounds.delivery);
      }
    }
  }

  /** The age a candidate can have when its command, kept for `kept` after a delivery, is acted on. */
  function Age(c: Config, kept: Duration): Duration {
    c.arbiter.timeout + c.bounds.delivery + kept
  }

  /** `out` descends from a candidate of `src` that the arbiter received at most `age` before `now`. */
  ghost predicate DescendsFrom(
    w: World, h: History, src: CommandArbiter.CandidateSource, out: Twist, now: Time, age: Duration)
  {
    exists p :: Extends(h, Then(p, ArbiterTimer)) && ComesFrom(w, p, src, out)
      && now <= At(w, LastCandidate(p, src).value.0).now + age
  }

  ghost predicate Descends(w: World, h: History, out: Twist, now: Time, age: Duration) {
    exists src :: DescendsFrom(w, h, src, out, now, age)
  }

  lemma {:induction false} StoredDescends(
    w: World, h: History, out: Twist, at: Time, now: Time, kept: Duration)
    requires StoredFresh(w, h, out, at, w.cfg.bounds.delivery) && out != ZERO && now <= at + kept
    ensures Descends(w, h, out, now, Age(w.cfg, kept))
  {
    var t :| PublishedAt(w, h, out, t) && t <= at <= t + w.cfg.bounds.delivery;
    var p :| Extends(h, Then(p, ArbiterTimer))
      && At(w, p).now == t && ArbiterOutput(w.cfg, At(w, p)).approved == Some(out);
    ApprovedProvenance(w, p, out);
    var src :| ComesFrom(w, p, src, out);
    assert DescendsFrom(w, h, src, out, now, Age(w.cfg, kept));
  }

  lemma {:induction false} GateDescends(w: World, h: History, out: Twist)
    requires ValidBounds(w.cfg.bounds) && Punctual(w, h)
    requires GateAction(w.cfg, At(w, h)) == HardwareGate.Apply(out) && out != ZERO
    ensures Descends(w, h, out, At(w, h).now, Age(w.cfg, w.cfg.gate.approvedTimeout))
    ensures w.cfg.arbiter.maxLinear >= 0.0 && w.cfg.arbiter.maxAngular >= 0.0 ==>
              CommandArbiter.WithinLimits(w.cfg.arbiter, out)
    ensures var g := At(w, h).gate;
      IsClear(g.safetyState) && g.mrmState == MrmNone && IsActive(g.activeMode) && g.arbitration == Some(true)
  {
    var s := At(w, h);
    GateStoresFresh(w, h);
    HardwareGate.GateOpensIff(w.cfg.gate, s.gate, s.now);
    StoredDescends(w, h, out, s.gate.lastApprovedAt.value, s.now, w.cfg.gate.approvedTimeout);
    if w.cfg.arbiter.maxLinear >= 0.0 && w.cfg.arbiter.maxAngular >= 0.0 {
      DescendantsWithinLimits(w, h, out, s.now, Age(w.cfg, w.cfg.gate.approvedTimeout));
    }
  }

  lemma {:induction false} DescendantsWithinLimits(w: World, h: History, out: Twist, now: Time, age: Duration)
    requires Descends(w, h, out, now, age)
    requires w.cfg.arbiter.maxLinear >= 0.0 && w.cfg.arbiter.maxAngular >= 0.0
    ensures CommandArbiter.WithinLimits(w.cfg.arbiter, out)
  {
    var src :| DescendsFrom(w, h, src, out, now, age);
    var p :| Extends(h, Then(p, ArbiterTimer)) && ComesFrom(w, p, src, out);
    CommandArbiter.LimitedIsWithin(w.cfg.arbiter, LastCandidate(p, src).value.1, out);
  }

  // ---------------------------------------------------------------- the locomotion adapter

  /** The stored velocity is that of a command published at most one delivery before it was stored. */
  ghost predicate LocoFollows(w: World, h: History) {
    var l := At(w, h).loco;
    (l.linear == 0.0 && l.angular == 0.0)
    || (l.lastCommandAt.Some? &&
        exists out: Twist ::
          out.lx == l.linear && out.az == l.angular
          && StoredFresh(w, h, out, l.lastCommandAt.value, w.cfg.bounds.delivery))
  }

  lemma LocoVelocityStep(c: Config, s: State, e: Event)
    ensures var l, l' := s.loco, Apply(c, s, e).loco;
      || (l'.linear == 0.0 && l'.angular == 0.0)
      || (l'.linear == l.linear && l'.angular == l.angular && l'.lastCommandAt == l.lastCommandAt)
      || (e == Deliver(ApprovedToLoco) && s.net.approvedToLoco != [] && l'.lastCommandAt == Some(s.now)
          && l'.linear == s.net.approvedToLoco[0].value.lx && l'.angular == s.net.approvedToLoco[0].value.az)
  {}

  lemma {:induction false} LocoFollowsPublished(w: World, h: History)
    requires ValidBounds(w.cfg.bounds) && Punctual(w, h)
    ensures LocoFollows(w, h)
  {
    if h.Start? {
    } else {
      var s, l, l', d := At(w, h.before), At(w, h.before).loco, At(w, h).loco, w.cfg.bounds.delivery;
      LocoFollowsPublished(w, h.before);
      LocoVelocityStep(w.cfg, s, h.event);
      if l'.linear == 0.0 && l'.angular == 0.0 {
      } else if l'.linear == l.linear && l'.angular == l.angular && l'.lastCommandAt == l.lastCommandAt {
        var out: Twist :| out.lx == l.linear && out.az == l.angular
          && StoredFresh(w, h.before, out, l.lastCommandAt.value, d);
        StoredFreshLater(w, h.before, h.event, out, l.lastCommandAt.value, d);
      } else {
        var out := s.net.approvedToLoco[0].value;
        InFlightWasPublished(w, h.before);
        NeverLate(w, h.before);
        DeliveryIsFresh(w, h.before, s.net.approvedToLoco);
        StoredFreshLater(w, h.before, h.event, out, s.now, d);
      }
    }
  }

  lemma MovingTickIsFresh(c: Locomotion.Config, l0: Locomotion.State, now: Time)
    requires l0.lastCommandAt.None? ==> l0.linear == 0.0 && l0.angular == 0.0
    ensures var l := Locomotion.Tick(c, l0, now);
      l.linear != 0.0 || l.angular != 0.0 ==>
        && l.linear == l0.linear && l.angular == l0.angular
        && l0.lastCommandAt.Some? && now <= l0.lastCommandAt.value + c.commandTimeout
  {}

  /** `h` ends at a moment when the robot moves on a command of bounded age. */
  ghost predicate MovesOn(w: World, h: History, linear: real, angular: real, age: Duration) {
    exists out: Twist :: out.lx == linear && out.az == angular && Descends(w, h, out, At(w, h).now, age)
  }

  lemma {:induction false} LocoDescends(w: World, h: History, l: Locomotion.State)
    requires ValidBounds(w.cfg.bounds) && Punctual(w, h)
    requires l == Locomotion.Tick(w.cfg.loco, At(w, h).loco, At(w, h).now) && (l.linear != 0.0 || l.angular != 0.0)
    ensures MovesOn(w, h, l.linear, l.angular, Age(w.cfg, w.cfg.loco.commandTimeout))
  {
    var s := At(w, h);
    LocoFollowsPublished(w, h);
    MovingTickIsFresh(w.cfg.loco, s.loco, s.now);
    var out: Twist :| out.lx == s.loco.linear && out.az == s.loco.angular
      && StoredFresh(w, h, out, s.loco.lastCommandAt.value, w.cfg.bounds.delivery);
    StoredDescends(w, h, out, s.loco.lastCommandAt.value, s.now, w.cfg.loco.commandTimeout);
  }

  /** After a timer callback of the adapter, a moving robot follows data of bounded age. */
  lemma {:induction false} LocoMovesOnFreshData(w: World, h: History)
    requires ValidBounds(w.cfg.bounds) && Punctual(w, h)
    ensures var l := Locomotion.Tick(w.cfg.loco, At(w, h).loco, At(w, h).now);
      l.linear != 0.0 || l.angular != 0.0 ==>
        MovesOn(w, h, l.linear, l.angular, Age(w.cfg, w.cfg.loco.commandTimeout))
  {
    var l := Locomotion.Tick(w.cfg.loco, At(w, h).loco, At(w, h).now);
    if l.linear != 0.0 || l.angular != 0.0 {
      LocoDescends(w, h, l);
    }
  }
}
