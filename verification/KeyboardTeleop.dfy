/**
 Keyboard teleoperation: keys move a clamped velocity target, a timer publishes it, and a flag keeps
 the final stop from being repeated. Each callback is one step here.
 */
module KeyboardTeleop {
  import opened Messages

  datatype Velocity = Velocity(linear: real, angular: real)

  const STILL := Velocity(0.0, 0.0)

  datatype Config = Config(
    linearStep: real, angularStep: real, maxLinear: real, maxAngular: real, keyTimeout: Duration)

  datatype State = State(velocity: Velocity, lastKeyAt: Option<Time>, stopSent: bool)

  const INITIAL := State(STILL, None, true)

  predicate IsStopKey(key: char) { key == 'x' || key == ' ' }

  predicate IsMotionKey(key: char) { key in {'w', 's', 'a', 'd'} || IsStopKey(key) }

  function ApplyKey(cfg: Config, key: char, v: Velocity): Velocity {
    if IsStopKey(key) then STILL
    else
      var linear := if key == 'w' then v.linear + cfg.linearStep
                    else if key == 's' then v.linear - cfg.linearStep else v.linear;
      var angular := if key == 'a' then v.angular + cfg.angularStep
                     else if key == 'd' then v.angular - cfg.angularStep else v.angular;
      Velocity(Clamp(linear, -cfg.maxLinear, cfg.maxLinear), Clamp(angular, -cfg.maxAngular, cfg.maxAngular))
  }

  /** The node after a motion key, and what the key made it publish. */
  function OnKey(cfg: Config, s: State, key: char, now: Time): (State, Option<Velocity>) {
    var v := ApplyKey(cfg, key, s.velocity);
    (State(v, Some(now), v == STILL), if v == STILL then Some(STILL) else None)
  }

  predicate TimedOut(cfg: Config, s: State, now: Time) {
    s.lastKeyAt.Some? && now - s.lastKeyAt.value > cfg.keyTimeout
  }

  /** The node after a timer callback, and the velocity it published. */
  function OnTimer(cfg: Config, s: State, now: Time): (State, Option<Velocity>) {
    var v := if TimedOut(cfg, s, now) then STILL else s.velocity;
    (State(v, s.lastKeyAt, v == STILL), if v == STILL && s.stopSent then None else Some(v))
  }

  // ---------------------------------------------------------------- the keymap

  predicate WithinLimits(cfg: Config, v: Velocity) {
    -cfg.maxLinear <= v.linear <= cfg.maxLinear && -cfg.maxAngular <= v.angular <= cfg.maxAngular
  }

  predicate ValidLimits(cfg: Config) {
    cfg.maxLinear >= 0.0 && cfg.maxAngular >= 0.0
  }

  lemma KeysStayWithinLimits(cfg: Config, key: char, v: Velocity)
    requires ValidLimits(cfg)
    ensures WithinLimits(cfg, ApplyKey(cfg, key, v))
  {}

  /** Both stop keys still the target; any other key steps one axis at most, held within that axis's limit. */
  lemma KeysStepOneAxis(cfg: Config, key: char, v: Velocity)
    ensures key in {'x', ' '} ==> ApplyKey(cfg, key, v) == STILL
    ensures key !in {'x', ' '} ==>
      && Limited(v.linear + (if key == 'w' then cfg.linearStep else if key == 's' then -cfg.linearStep else 0.0),
                 cfg.maxLinear, ApplyKey(cfg, key, v).linear)
      && Limited(v.angular + (if key == 'a' then cfg.angularStep else if key == 'd' then -cfg.angularStep else 0.0),
                 cfg.maxAngular, ApplyKey(cfg, key, v).angular)
  {}

  /** The keymap leaves the target alone where no step is asked for. */
  predicate Unclamped(cfg: Config, v: Velocity) {
    Clamp(v.linear, -cfg.maxLinear, cfg.maxLinear) == v.linear
    && Clamp(v.angular, -cfg.maxAngular, cfg.maxAngular) == v.angular
  }

  /** A step away from `x` is undone by a step back: no limit cuts it short, or one catches the step back. */
  predicate Undone(x: real, step: real, limit: real) {
    || limit < 0.0
    || -limit <= x + step <= limit
    || (x == -limit && step >= 2.0 * limit)
    || (x == limit && -step >= 2.0 * limit)
  }

  /** When opposite keys cancel, for every target, step and limit. */
  lemma OppositeKeysCancel(cfg: Config, v: Velocity)
    ensures ApplyKey(cfg, 's', ApplyKey(cfg, 'w', v)) == v
            <==> Unclamped(cfg, v) && Undone(v.linear, cfg.linearStep, cfg.maxLinear)
    ensures ApplyKey(cfg, 'w', ApplyKey(cfg, 's', v)) == v
            <==> Unclamped(cfg, v) && Undone(v.linear, -cfg.linearStep, cfg.maxLinear)
    ensures ApplyKey(cfg, 'd', ApplyKey(cfg, 'a', v)) == v
            <==> Unclamped(cfg, v) && Undone(v.angular, cfg.angularStep, cfg.maxAngular)
    ensures ApplyKey(cfg, 'a', ApplyKey(cfg, 'd', v)) == v
            <==> Unclamped(cfg, v) && Undone(v.angular, -cfg.angularStep, cfg.maxAngular)
  {}

  // ---------------------------------------------------------------- runs of atomic callbacks

  datatype Event = Key(key: char, at: Time) | Tick(at: Time)

  /** A run's state with the last command that went out. */
  datatype Observed = Observed(state: State, outstanding: Option<Velocity>)

  function Step(cfg: Config, o: Observed, e: Event): Observed {
    var (s, out) := match e
      case Key(key, at) => if IsMotionKey(key) then OnKey(cfg, o.state, key, at) else (o.state, None)
      case Tick(at) => OnTimer(cfg, o.state, at);
    Observed(s, if out.Some? then out else o.outstanding)
  }

  function Run(cfg: Config, es: seq<Event>): Observed {
    if es == [] then Observed(INITIAL, None) else Step(cfg, Run(cfg, es[..|es| - 1]), es[|es| - 1])
  }

  /** No motion command is outstanding. */
  predicate NothingMoving(o: Observed) {
    o.outstanding.None? || o.outstanding == Some(STILL)
  }

  /** The stop flag never lies, and the target never leaves the limits. */
  lemma {:induction false} StopFlagIsTruthful(cfg: Config, es: seq<Event>)
    ensures var o := Run(cfg, es);
      && (o.state.stopSent ==> o.state.velocity == STILL && NothingMoving(o))
      && (ValidLimits(cfg) ==>
            WithinLimits(cfg, o.state.velocity) && (o.outstanding.Some? ==> WithinLimits(cfg, o.outstanding.value)))
  {
    if es == [] {
    } else {
      StopFlagIsTruthful(cfg, es[..|es| - 1]);
    }
  }

  /** After every timer callback the outstanding command is the target, so a timed-out key has stopped. */
  lemma TickOutstanding(cfg: Config, es: seq<Event>, now: Time)
    ensures var o, o' := Run(cfg, es), Run(cfg, es + [Tick(now)]);
      && (NothingMoving(o') <==> o'.state.velocity == STILL)
      && (o'.state.velocity != STILL ==> o'.outstanding == Some(o'.state.velocity))
      && (TimedOut(cfg, o.state, now) ==> NothingMoving(o') && o'.state.velocity == STILL)
  {
    StopFlagIsTruthful(cfg, es);
    assert (es + [Tick(now)])[..|es|] == es;
  }

  /** The time of the newest key that is one of the six. */
  function NewestKey(es: seq<Event>): Option<Time> {
    if es == [] then None
    else match es[|es| - 1]
      case Key(key, at) => if key in {'w', 's', 'a', 'd', 'x', ' '} then Some(at) else NewestKey(es[..|es| - 1])
      case Tick(_) => NewestKey(es[..|es| - 1])
  }

  /** In every run the timeout counts from the newest such key, and the stop flag says exactly: still. */
  lemma {:induction false} FieldsTellKeys(cfg: Config, es: seq<Event>)
    ensures Run(cfg, es).state.lastKeyAt == NewestKey(es)
    ensures Run(cfg, es).state.stopSent <==> Run(cfg, es).state.velocity == STILL
  {
    if es == [] {
    } else {
      FieldsTellKeys(cfg, es[..|es| - 1]);
    }
  }

  /** A key acts at once: its step is taken, and a target it stills is published. Other keys do nothing. */
  lemma {:induction false} KeyActs(cfg: Config, es: seq<Event>, key: char, at: Time)
    ensures var o, o' := Run(cfg, es), Run(cfg, es + [Key(key, at)]);
      if key !in {'w', 's', 'a', 'd', 'x', ' '} then o' == o
      else
        && o'.state.velocity == ApplyKey(cfg, key, o.state.velocity)
        && o'.outstanding == if o'.state.velocity == STILL then Some(STILL) else o.outstanding
  {
    assert (es + [Key(key, at)])[..|es|] == es;
  }

  /** A timer callback publishes its target, unless the target was still already: one stop, and no more. */
  lemma {:induction false} StopIsPublishedOnce(cfg: Config, es: seq<Event>, now: Time)
    ensures var o, o' := Run(cfg, es), Run(cfg, es + [Tick(now)]);
      && (OnTimer(cfg, o.state, now).1.None? <==> o.state.velocity == STILL)
      && (o.state.velocity != STILL ==> OnTimer(cfg, o.state, now).1 == Some(o'.state.velocity))
      && o'.state.velocity == if NewestKey(es).Some? && now - NewestKey(es).value > cfg.keyTimeout then STILL
                              else o.state.velocity
  {
    FieldsTellKeys(cfg, es);
    assert (es + [Tick(now)])[..|es|] == es;
  }

  // ---------------------------------------------------------------- the node

  class KeyboardTeleopNode {
    const cfg: Config
    var velocity: Velocity
    var lastKeyAt: Option<Time>
    var stopSent: bool

    ghost function View(): State
      reads this
    {
      State(velocity, lastKeyAt, stopSent)
    }

    constructor (cfg: Config)
      ensures this.cfg == cfg && View() == INITIAL
    {
      this.cfg := cfg;
      velocity, lastKeyAt, stopSent := STILL, None, true;
    }

    method HandleKey(key: char, now: Time) returns (published: Option<Velocity>)
      modifies this
      ensures (View(), published) == OnKey(cfg, old(View()), key, now)
    {
      published := None;
      velocity := ApplyKey(cfg, key, velocity);
      lastKeyAt := Some(now);
      if velocity == STILL {
        published := Some(velocity);
        stopSent := true;
      } else {
        stopSent := false;
      }
    }

    method PublishTick(now: Time) returns (published: Option<Velocity>)
      modifies this
      ensures (View(), published) == OnTimer(cfg, old(View()), now)
    {
      published := None;
      if lastKeyAt.Some? && now - lastKeyAt.value > cfg.keyTimeout { velocity := STILL; }
      if velocity == STILL {
        if !stopSent {
          published := Some(velocity);
          stopSent := true;
        }
        return;
      }
      published := Some(velocity);
      stopSent := false;
    }
  }
}
