/** The end of a stop: under a held E-stop and a kept mode the robot comes to stand, in every punctual run. */
module SettledStop {
  import opened Messages
  import opened Runtime
  import opened BoundedStop
  import Locomotion

  /** The adapter views safety as blocking, in a mode that does not park it. */
  predicate HeldBack(l: Locomotion.State) {
    !IsClear(l.safetyState) && !Locomotion.Parked(l.activeMode)
  }

  /** From `p` up to `h`, the adapter is held back at every moment after `t`. */
  ghost predicate HeldBackAfter(w: World, p: History, h: History, t: Time) {
    && (At(w, h).now > t ==> HeldBack(At(w, h).loco))
    && (h == p || (h.Then? && HeldBackAfter(w, p, h.before, t)))
  }

  // ---------------------------------------------------------------- the adapter

  /** A stop under way or settled, begun by `due`; settled if a timer callback came late enough for that. */
  ghost predicate StopsBy(c: Locomotion.Config, l: Locomotion.State, fired: Time, due: Time) {
    && l.state in {Stopping, Standing}
    && l.stopStartedAt.Some? && l.stopStartedAt.value <= due
    && (fired >= due + c.settleTime ==> l.state == Standing)
  }

  lemma TickStops(c: Locomotion.Config, l: Locomotion.State, now: Time, due: Time)
    requires HeldBack(l) && (l.stopStartedAt.Some? ==> l.stopStartedAt.value <= due)
    requires now <= due || (l.state in {Stopping, Standing} && l.stopStartedAt.Some?)
    ensures StopsBy(c, Locomotion.Tick(c, l, now), now, due)
  {}

  lemma StopsByStep(c: Locomotion.Config, l: Locomotion.State, e: Locomotion.Event, now: Time, fired: Time, due: Time)
    requires HeldBack(l) && StopsBy(c, l, fired, due) && fired <= now && !e.Timer?
    ensures StopsBy(c, Locomotion.Step(c, l, e, now), fired, due)
  {}

  lemma StartStep(c: Locomotion.Config, l: Locomotion.State, e: Locomotion.Event, now: Time)
    requires l.stopStartedAt.Some? ==> l.stopStartedAt.value <= now
    ensures var l' := Locomotion.Step(c, l, e, now); l'.stopStartedAt.Some? ==> l'.stopStartedAt.value <= now
  {}

  /** No stop begins in the future. */
  lemma {:induction false} StopBeganBefore(w: World, h: History)
    ensures var l := At(w, h).loco; l.stopStartedAt.Some? ==> l.stopStartedAt.value <= At(w, h).now
  {
    match h
    case Start =>
    case Then(before, e) =>
      var s := At(w, before);
      StopBeganBefore(w, before);
      LocoStep(w.cfg, s, e);
      StepNow(w.cfg, s, e);
      if e.LocoTimer? {
        StartStep(w.cfg.loco, s.loco, Locomotion.Timer, s.now);
      } else if At(w, h).loco != s.loco {
        var le :| At(w, h).loco == Locomotion.Step(w.cfg.loco, s.loco, le, s.now);
        StartStep(w.cfg.loco, s.loco, le, s.now);
      }
  }

  // ---------------------------------------------------------------- runs

  /** The first timer callback after `t` comes within a period; from then on the stop is begun and settles. */
  lemma {:induction false} StopsInTime(w: World, p: History, h: History, t: Time, due: Time)
    requires ValidBounds(w.cfg.bounds) && Punctual(w, h)
    requires HeldBackAfter(w, p, h, t) && At(w, p).now <= t && due == t + w.cfg.bounds.loco
    ensures At(w, h).timers.loco > t ==> StopsBy(w.cfg.loco, At(w, h).loco, At(w, h).timers.loco, due)
  {
    TimersInPast(w, h);
    if h == p {
    } else {
      StopsInTime(w, p, h.before, t, due);
      StopsInTimeStep(w, h.before, h.event, t, due);
    }
  }

  lemma {:induction false} StopsInTimeStep(w: World, h: History, e: Event, t: Time, due: Time)
    requires ValidBounds(w.cfg.bounds) && Punctual(w, h) && due == t + w.cfg.bounds.loco
    requires At(w, h).now > t ==> HeldBack(At(w, h).loco)
    requires At(w, h).timers.loco > t ==> StopsBy(w.cfg.loco, At(w, h).loco, At(w, h).timers.loco, due)
    ensures var s' := At(w, Then(h, e)); s'.timers.loco > t ==> StopsBy(w.cfg.loco, s'.loco, s'.timers.loco, due)
  {
    var c, s, s' := w.cfg.loco, At(w, h), At(w, Then(h, e));
    TimersInPast(w, h);
    SafetyTimerStep(w.cfg, s, e);
    LocoStep(w.cfg, s, e);
    if s'.timers.loco > t {
      if e.LocoTimer? {
        NeverLate(w, h);
        StopBeganBefore(w, h);
        TickStops(c, s.loco, s.now, due);
      } else if s'.loco != s.loco {
        var le: Locomotion.Event :| !le.Timer? && s'.loco == Locomotion.Step(c, s.loco, le, s.now);
        StopsByStep(c, s.loco, le, s.now, s.timers.loco, due);
      }
    }
  }

  /** The time a stop takes to settle. */
  function SettleTime(w: World): Duration {
    if w.cfg.loco.settleTime > 0 then w.cfg.loco.settleTime else 0
  }

  lemma {:induction false} Stands(w: World, p: History, h: History, t: Time)
    requires ValidBounds(w.cfg.bounds) && Punctual(w, h)
    requires HeldBackAfter(w, p, h, t) && At(w, p).now <= t
    requires At(w, h).now > t + w.cfg.bounds.loco + SettleTime(w) + w.cfg.bounds.loco
    ensures At(w, h).loco.state == Standing
  {
    NeverLate(w, h);
    StopsInTime(w, p, h, t, t + w.cfg.bounds.loco);
  }

  // ---------------------------------------------------------------- E-stop

  /** A mode published in time before an E-stop and kept since, while the E-stop is held. */
  lemma {:induction false} EstopHoldsBack(w: World, q: History, e: Event, p: History, h: History, m: Mode, t: Time)
    requires ValidBounds(w.cfg.bounds) && Punctual(w, h) && EstopSince(w, p, h)
    requires PublishesMode(At(w, q), e) && ModeSince(w, Then(q, e), h, m) && !Locomotion.Parked(m)
    requires Extends(p, Then(q, e)) && t == EstopBy(w, p) + w.cfg.bounds.delivery
    ensures HeldBackAfter(w, p, h, t)
  {
    if At(w, h).now > t {
      EstopArrives(w, p, h);
      ExtendsTransitive(p, Then(q, e), q);
      ClockIsMonotone(w, p, q);
      ModeArrives(w, q, e, h, m);
    }
    if h == p {
    } else {
      EstopStillHeld(w, q, e, p, h, m);
      EstopHoldsBack(w, q, e, p, h.before, m, t);
    }
  }

  lemma {:induction false} EstopStillHeld(w: World, q: History, e: Event, p: History, h: History, m: Mode)
    requires EstopSince(w, p, h) && ModeSince(w, Then(q, e), h, m) && Extends(p, Then(q, e)) && h != p
    ensures h.Then? && EstopSince(w, p, h.before) && ModeSince(w, Then(q, e), h.before, m)
  {
    EstopExtends(w, p, h.before);
    ExtendsIsLonger(h.before, p);
    ExtendsIsLonger(p, Then(q, e));
  }

  lemma {:induction false} EstopExtends(w: World, p: History, h: History)
    requires EstopSince(w, p, h)
    ensures Extends(h, p)
  {
    if h == p {
    } else {
      EstopExtends(w, p, h.before);
    }
  }

  /**
   A held E-stop in a kept mode that does not park the adapter: one settle time and one adapter period after
   the robot is certain to be at rest, it stands.
   */
  lemma {:induction false} EstopStandsRobot(w: World, q: History, e: Event, p: History, h: History, m: Mode)
    requires ValidBounds(w.cfg.bounds) && Punctual(w, h) && EstopSince(w, p, h)
    requires PublishesMode(At(w, q), e) && ModeSince(w, Then(q, e), h, m) && !Locomotion.Parked(m)
    requires Extends(p, Then(q, e))
    requires At(w, h).now >
               At(w, p).now + w.cfg.bounds.safety + w.cfg.bounds.delivery + w.cfg.bounds.loco
               + SettleTime(w) + w.cfg.bounds.loco
    ensures At(w, h).loco.state == Standing
    ensures Locomotion.AtRest(At(w, h).loco)
  {
    var t := EstopBy(w, p) + w.cfg.bounds.delivery;
    EstopHoldsBack(w, q, e, p, h, m, t);
    Stands(w, p, h, t);
    EstopBoundsMotion(w, p, h);
  }
}
