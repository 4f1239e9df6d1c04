/**
 Keyboard teleoperation, statement by statement: the key thread and the timer share the target, the time of
 the last key and the stop flag, with no lock between them.
 */
module KeyboardThreads {
  import opened Messages
  import opened KeyboardTeleop

  /** Where the keyboard thread is inside its handling of one key. */
  datatype KeyPc =
    | KIdle | KRead(key: char) | KWrite(v: Velocity) | KStamp | KTest
    | KMsgLinear | KMsgAngular(linear: real) | KSend(msg: Velocity) | KSetSent | KClearSent

  /** Where the timer is inside its callback; `flag` is what it will store in `stopSent`. */
  datatype TimerPc =
    | TIdle | TCheckTimeout | TZero | TTest | TTestSent
    | TMsgLinear(flag: bool) | TMsgAngular(flag: bool, linear: real)
    | TSend(flag: bool, msg: Velocity) | TSet(flag: bool)

  datatype Threads = Threads(s: State, outstanding: Option<Velocity>, key: KeyPc, timer: TimerPc)

  datatype Move = KeyMove(pressed: char, at: Time) | TimerMove(now: Time)

  const STARTED := Threads(INITIAL, None, KIdle, TIdle)

  /** One statement of the keyboard thread; `pressed` matters only when it is idle. */
  function KeyStatement(cfg: Config, t: Threads, pressed: char, now: Time): Threads {
    match t.key
    case KIdle => if IsMotionKey(pressed) then t.(key := KRead(pressed)) else t
    case KRead(key) => t.(key := KWrite(ApplyKey(cfg, key, t.s.velocity)))
    case KWrite(v) => t.(s := t.s.(velocity := v), key := KStamp)
    case KStamp => t.(s := t.s.(lastKeyAt := Some(now)), key := KTest)
    case KTest => t.(key := if t.s.velocity == STILL then KMsgLinear else KClearSent)
    case KMsgLinear => t.(key := KMsgAngular(t.s.velocity.linear))
    case KMsgAngular(linear) => t.(key := KSend(Velocity(linear, t.s.velocity.angular)))
    case KSend(msg) => t.(outstanding := Some(msg), key := KSetSent)
    case KSetSent => t.(s := t.s.(stopSent := true), key := KIdle)
    case KClearSent => t.(s := t.s.(stopSent := false), key := KIdle)
  }

  /** One statement of the timer callback. */
  function TimerStatement(cfg: Config, t: Threads, now: Time): Threads {
    match t.timer
    case TIdle => t.(timer := TCheckTimeout)
    case TCheckTimeout => t.(timer := if TimedOut(cfg, t.s, now) then TZero else TTest)
    case TZero => t.(s := t.s.(velocity := STILL), timer := TTest)
    case TTest => t.(timer := if t.s.velocity == STILL then TTestSent else TMsgLinear(false))
    case TTestSent => t.(timer := if t.s.stopSent then TIdle else TMsgLinear(true))
    case TMsgLinear(flag) => t.(timer := TMsgAngular(flag, t.s.velocity.linear))
    case TMsgAngular(flag, linear) => t.(timer := TSend(flag, Velocity(linear, t.s.velocity.angular)))
    case TSend(flag, msg) => t.(outstanding := Some(msg), timer := TSet(flag))
    case TSet(flag) => t.(s := t.s.(stopSent := flag), timer := TIdle)
  }

  function Statement(cfg: Config, t: Threads, m: Move): Threads {
    match m
    case KeyMove(pressed, at) => KeyStatement(cfg, t, pressed, at)
    case TimerMove(now) => TimerStatement(cfg, t, now)
  }

  function Interleave(cfg: Config, moves: seq<Move>): Threads {
    if moves == [] then STARTED
    else Statement(cfg, Interleave(cfg, moves[..|moves| - 1]), moves[|moves| - 1])
  }

  /** Both threads hold only values within the limits, half-built messages included. */
  ghost predicate ThreadsWithinLimits(cfg: Config, t: Threads) {
    && WithinLimits(cfg, t.s.velocity)
    && (t.outstanding.Some? ==> WithinLimits(cfg, t.outstanding.value))
    && (t.key.KWrite? ==> WithinLimits(cfg, t.key.v))
    && (t.key.KMsgAngular? ==> WithinLimits(cfg, Velocity(t.key.linear, 0.0)))
    && (t.key.KSend? ==> WithinLimits(cfg, t.key.msg))
    && (t.timer.TMsgAngular? ==> WithinLimits(cfg, Velocity(t.timer.linear, 0.0)))
    && (t.timer.TSend? ==> WithinLimits(cfg, t.timer.msg))
  }

  lemma KeyStatementWithinLimits(cfg: Config, t: Threads, pressed: char, now: Time)
    requires ValidLimits(cfg) && ThreadsWithinLimits(cfg, t)
    ensures ThreadsWithinLimits(cfg, KeyStatement(cfg, t, pressed, now))
  {}

  lemma TimerStatementWithinLimits(cfg: Config, t: Threads, now: Time)
    requires ValidLimits(cfg) && ThreadsWithinLimits(cfg, t)
    ensures ThreadsWithinLimits(cfg, TimerStatement(cfg, t, now))
  {}

  /** Even torn between the two threads, no published command leaves the limits. */
  lemma {:induction false} LimitsSurviveInterleaving(cfg: Config, moves: seq<Move>)
    requires ValidLimits(cfg)
    ensures ThreadsWithinLimits(cfg, Interleave(cfg, moves))
  {
    if moves != [] {
      LimitsSurviveInterleaving(cfg, moves[..|moves| - 1]);
      var before := Interleave(cfg, moves[..|moves| - 1]);
      match moves[|moves| - 1]
      case KeyMove(pressed, at) => KeyStatementWithinLimits(cfg, before, pressed, at);
      case TimerMove(now) => TimerStatementWithinLimits(cfg, before, now);
    }
  }

  // ---------------------------------------------------------------- with a lock

  /** A thread leaves its idle point in this move. */
  predicate Starts(t: Threads, m: Move) {
    match m
    case KeyMove(pressed, _) => t.key == KIdle && IsMotionKey(pressed)
    case TimerMove(_) => t.timer == TIdle
  }

  predicate AtRest(t: Threads) {
    t.key == KIdle && t.timer == TIdle
  }

  /** A thread leaves its idle point only while the other is idle, as under a lock. */
  ghost predicate Locked(cfg: Config, moves: seq<Move>) {
    moves == [] ||
    var i := |moves| - 1;
    && Locked(cfg, moves[..i])
    && (Starts(Interleave(cfg, moves[..i]), moves[i]) ==> AtRest(Interleave(cfg, moves[..i])))
  }

  /** `t` is inside the handling of `key`, stamped `at`, which found the node as `o`. */
  ghost predicate InsideKey(cfg: Config, t: Threads, o: Observed, key: char, at: Time) {
    var v := ApplyKey(cfg, key, o.state.velocity);
    var stamped := State(v, Some(at), o.state.stopSent);
    && t.timer == TIdle && IsMotionKey(key)
    && match t.key
       case KIdle => false
       case KRead(pressed) => pressed == key && t.s == o.state && t.outstanding == o.outstanding
       case KWrite(written) => written == v && t.s == o.state && t.outstanding == o.outstanding
       case KStamp => t.s == o.state.(velocity := v) && t.outstanding == o.outstanding
       case KTest => t.s == stamped && t.outstanding == o.outstanding
       case KMsgLinear => v == STILL && t.s == stamped && t.outstanding == o.outstanding
       case KMsgAngular(linear) => v == STILL && linear == 0.0 && t.s == stamped && t.outstanding == o.outstanding
       case KSend(msg) => v == STILL && msg == STILL && t.s == stamped && t.outstanding == o.outstanding
       case KSetSent => v == STILL && t.s == stamped && t.outstanding == Some(STILL)
       case KClearSent => v != STILL && t.s == stamped && t.outstanding == o.outstanding
  }

  /** `t` is inside a timer callback, its timeout checked at `now`, which found the node as `o`. */
  ghost predicate InsideTick(cfg: Config, t: Threads, o: Observed, now: Time) {
    var late := TimedOut(cfg, o.state, now);
    var v := if late then STILL else o.state.velocity;
    var checked := o.state.(velocity := v);
    && t.key == KIdle
    && match t.timer
       case TIdle => false
       case TCheckTimeout => t.s == o.state && t.outstanding == o.outstanding
       case TZero => late && t.s == o.state && t.outstanding == o.outstanding
       case TTest => t.s == checked && t.outstanding == o.outstanding
       case TTestSent => v == STILL && t.s == checked && t.outstanding == o.outstanding
       case TMsgLinear(flag) => Sends(o, v, flag) && t.s == checked && t.outstanding == o.outstanding
       case TMsgAngular(flag, linear) =>
         Sends(o, v, flag) && linear == v.linear && t.s == checked && t.outstanding == o.outstanding
       case TSend(flag, msg) => Sends(o, v, flag) && msg == v && t.s == checked && t.outstanding == o.outstanding
       case TSet(flag) => Sends(o, v, flag) && t.s == checked && t.outstanding == Some(v)
  }

  /** The callback publishes `v`, and will leave `flag` behind. */
  predicate Sends(o: Observed, v: Velocity, flag: bool) {
    flag == (v == STILL) && (flag ==> !o.state.stopSent)
  }

  /** The threads are where an atomic run has led, or inside one callback after it. */
  ghost predicate Serial(cfg: Config, t: Threads, es: seq<Event>, key: char, at: Time) {
    var o := Run(cfg, es);
    || (AtRest(t) && o == Observed(t.s, t.outstanding))
    || InsideKey(cfg, t, o, key, at)
    || InsideTick(cfg, t, o, at)
  }

  lemma RunOneMore(cfg: Config, es: seq<Event>, e: Event)
    ensures Run(cfg, es + [e]) == Step(cfg, Run(cfg, es), e)
  {
    assert (es + [e])[..|es|] == es;
  }

  lemma SerialKey(cfg: Config, t: Threads, es: seq<Event>, key: char, at: Time, pressed: char, now: Time)
    returns (es': seq<Event>, key': char, at': Time)
    requires Serial(cfg, t, es, key, at)
    requires Starts(t, KeyMove(pressed, now)) ==> AtRest(t)
    ensures Serial(cfg, KeyStatement(cfg, t, pressed, now), es', key', at')
  {
    es', key', at' := es, if t.key == KIdle then pressed else key, if t.key == KStamp then now else at;
    if t.key == KIdle && t.timer != TIdle { key' := key; }
    if t.key in {KSetSent, KClearSent} {
      es' := es + [Key(key, at)];
      RunOneMore(cfg, es, Key(key, at));
    }
  }

  lemma InsideTickStep(cfg: Config, t: Threads, es: seq<Event>, checked: Time, now: Time)
    returns (es': seq<Event>, at': Time)
    requires InsideTick(cfg, t, Run(cfg, es), checked)
    ensures var t', o' := TimerStatement(cfg, t, now), Run(cfg, es');
      (AtRest(t') && o' == Observed(t'.s, t'.outstanding)) || InsideTick(cfg, t', o', at')
  {
    es', at' := es, if t.timer == TCheckTimeout then now else checked;
    if TimerStatement(cfg, t, now).timer == TIdle {
      es' := es + [Tick(checked)];
      RunOneMore(cfg, es, Tick(checked));
    }
  }

  lemma SerialTimer(cfg: Config, t: Threads, es: seq<Event>, key: char, at: Time, now: Time)
    returns (es': seq<Event>, at': Time)
    requires Serial(cfg, t, es, key, at)
    requires Starts(t, TimerMove(now)) ==> AtRest(t)
    ensures Serial(cfg, TimerStatement(cfg, t, now), es', key, at')
  {
    if AtRest(t) {
      es', at' := es, at;
    } else {
      es', at' := InsideTickStep(cfg, t, es, at, now);
    }
  }

  /** With a lock the threads behave as atomic callbacks: at rest they are where some atomic run leads. */
  lemma {:induction false} LockMakesAtomic(cfg: Config, moves: seq<Move>)
    returns (es: seq<Event>, key: char, at: Time)
    requires Locked(cfg, moves)
    ensures Serial(cfg, Interleave(cfg, moves), es, key, at)
    ensures var t := Interleave(cfg, moves); AtRest(t) ==> Run(cfg, es) == Observed(t.s, t.outstanding)
  {
    if moves == [] {
      es, key, at := [], 'x', 0;
    } else {
      var before, m := moves[..|moves| - 1], moves[|moves| - 1];
      es, key, at := LockMakesAtomic(cfg, before);
      match m
      case KeyMove(pressed, now) => es, key, at := SerialKey(cfg, Interleave(cfg, before), es, key, at, pressed, now);
      case TimerMove(now) => es, at := SerialTimer(cfg, Interleave(cfg, before), es, key, at, now);
    }
  }

  /** With a lock, a set stop flag at rest means a still target and nothing moving. */
  lemma {:induction false} LockKeepsStop(cfg: Config, moves: seq<Move>)
    requires Locked(cfg, moves) && AtRest(Interleave(cfg, moves))
    ensures var t := Interleave(cfg, moves);
      t.s.stopSent ==> t.s.velocity == STILL && NothingMoving(Observed(t.s, t.outstanding))
  {
    var es, _, _ := LockMakesAtomic(cfg, moves);
    StopFlagIsTruthful(cfg, es);
  }

  // ---------------------------------------------------------------- without a lock

  /** The threads rest, the flag says the stop went out, and yet a motion command is outstanding. */
  predicate StopWasLost(t: Threads) {
    AtRest(t) && t.s.stopSent && t.s.velocity == STILL && t.outstanding.Some? && t.outstanding.value != STILL
  }

  /** Some key can set the robot in motion: the steps and limits, signs included, leave it room. */
  predicate CanMove(cfg: Config) {
    || (cfg.linearStep != 0.0 && cfg.maxLinear > 0.0) || (cfg.angularStep != 0.0 && cfg.maxAngular > 0.0)
    || cfg.maxLinear < 0.0 || cfg.maxAngular < 0.0
  }

  /** Nothing but zero velocities anywhere, half-built messages included. */
  ghost predicate AllStill(t: Threads) {
    && t.s.velocity == STILL
    && (t.outstanding.Some? ==> t.outstanding.value == STILL)
    && (t.key.KWrite? ==> t.key.v == STILL)
    && (t.key.KMsgAngular? ==> t.key.linear == 0.0)
    && (t.key.KSend? ==> t.key.msg == STILL)
    && (t.timer.TMsgAngular? ==> t.timer.linear == 0.0)
    && (t.timer.TSend? ==> t.timer.msg == STILL)
  }

  lemma {:induction false} ImmobileStaysStill(cfg: Config, moves: seq<Move>)
    requires !CanMove(cfg)
    ensures AllStill(Interleave(cfg, moves))
  {
    if moves == [] {
    } else {
      ImmobileStaysStill(cfg, moves[..|moves| - 1]);
    }
  }

  // ---------------------------------------------------------------- schedules, thread by thread

  function TimeOf(m: Move): Time {
    match m
    case KeyMove(_, at) => at
    case TimerMove(now) => now
  }

  /** The schedule's clock does not go back. */
  predicate Clocked(moves: seq<Move>) {
    forall i, j | 0 <= i < j < |moves| :: TimeOf(moves[i]) <= TimeOf(moves[j])
  }

  /** No key is handled but these. */
  predicate OnlyKeys(moves: seq<Move>, keys: set<char>) {
    forall i | 0 <= i < |moves| :: moves[i].KeyMove? ==> moves[i].pressed in keys
  }

  /** A possible schedule with the given keys, all of it at or before `now`. */
  predicate Fits(moves: seq<Move>, keys: set<char>, now: Time) {
    Clocked(moves) && OnlyKeys(moves, keys) && forall i | 0 <= i < |moves| :: TimeOf(moves[i]) <= now
  }

  /** The same thread runs for `n` statements. */
  function Repeat(cfg: Config, t: Threads, m: Move, n: nat): Threads
    decreases n
  {
    if n == 0 then t else Repeat(cfg, Statement(cfg, t, m), m, n - 1)
  }

  lemma {:induction false} More(cfg: Config, moves: seq<Move>, m: Move, n: nat, keys: set<char>, now: Time)
    returns (longer: seq<Move>)
    requires Fits(moves, keys, now) && now <= TimeOf(m) && (m.KeyMove? ==> m.pressed in keys)
    ensures Fits(longer, keys, TimeOf(m))
    ensures Interleave(cfg, longer) == Repeat(cfg, Interleave(cfg, moves), m, n)
    decreases n
  {
    longer := moves;
    if n == 0 {
    } else {
      assert (moves + [m])[..|moves|] == moves;
      longer := More(cfg, moves + [m], m, n - 1, keys, TimeOf(m));
    }
  }

  /** A key that starts motion from standstill. */
  function MotionKey(cfg: Config): (key: char)
    requires CanMove(cfg)
    ensures IsMotionKey(key) && !IsStopKey(key) && ApplyKey(cfg, key, STILL) != STILL
  {
    if (cfg.linearStep != 0.0 && cfg.maxLinear > 0.0) || cfg.maxLinear < 0.0 then 'w' else 'a'
  }

  /** The key thread handles a key that starts motion from standstill, wherever the timer is. */
  lemma {:induction false} KeyHandled(cfg: Config, moves: seq<Move>, keys: set<char>, now: Time, at: Time)
    returns (longer: seq<Move>)
    requires CanMove(cfg) && MotionKey(cfg) in keys && Fits(moves, keys, now) && now <= at
    requires var t := Interleave(cfg, moves); t.key == KIdle && t.s.velocity == STILL
    ensures Fits(longer, keys, at)
    ensures Interleave(cfg, longer) == Interleave(cfg, moves).(
              s := State(ApplyKey(cfg, MotionKey(cfg), STILL), Some(at), false))
  {
    longer := More(cfg, moves, KeyMove(MotionKey(cfg), at), 6, keys, now);
  }

  // ---------------------------------------------------------------- the stop of a stop key

  /** The timer has built a message from the target that a key set, and not yet sent it. */
  lemma {:induction false} MessageBuilt(cfg: Config, keys: set<char>) returns (moves: seq<Move>)
    requires CanMove(cfg) && MotionKey(cfg) in keys
    ensures Fits(moves, keys, 0)
    ensures var v := ApplyKey(cfg, MotionKey(cfg), STILL);
      Interleave(cfg, moves) == Threads(State(v, Some(0), false), None, KIdle, TSend(false, v))
  {
    moves := More(cfg, [], TimerMove(0), 2, keys, 0);
    moves := KeyHandled(cfg, moves, keys, 0, 0);
    moves := More(cfg, moves, TimerMove(0), 3, keys, 0);
  }

  /** The timer's message goes out after the key thread's stop, and before the key thread sets the flag. */
  lemma {:induction false} StopKeyIsOvertaken(cfg: Config) returns (moves: seq<Move>)
    requires CanMove(cfg)
    ensures Fits(moves, {MotionKey(cfg), 'x'}, 0) && StopWasLost(Interleave(cfg, moves))
    ensures moves != [] && moves[|moves| - 1] == KeyMove('x', 0)
  {
    var keys := {MotionKey(cfg), 'x'};
    moves := MessageBuilt(cfg, keys);
    moves := More(cfg, moves, KeyMove('x', 0), 8, keys, 0);
    moves := More(cfg, moves, TimerMove(0), 2, keys, 0);
    var last := KeyMove('x', 0);
    assert (moves + [last])[..|moves|] == moves;
    moves := moves + [last];
  }

  /** A stop key loses its stop: its own last statement leaves the flag set and the robot commanded to move. */
  ghost predicate LosesStopKey(cfg: Config, moves: seq<Move>) {
    && Clocked(moves) && StopWasLost(Interleave(cfg, moves))
    && moves != [] && moves[|moves| - 1].KeyMove? && IsStopKey(moves[|moves| - 1].pressed)
  }

  /** The stop of a stop key can be lost exactly when some key can move the robot, whatever the timeout. */
  lemma {:induction false} StopCanBeLostIff(cfg: Config)
    ensures (exists moves :: LosesStopKey(cfg, moves)) <==> CanMove(cfg)
  {
    if CanMove(cfg) {
      var moves := StopKeyIsOvertaken(cfg);
      assert LosesStopKey(cfg, moves);
    } else {
      forall moves ensures !LosesStopKey(cfg, moves) { ImmobileStaysStill(cfg, moves); }
    }
  }

  // ---------------------------------------------------------------- the stop of a timeout

  /** A moment after which a key pressed at `at` has timed out. */
  function Late(cfg: Config, at: Time): Time {
    at + (if cfg.keyTimeout > 0 then cfg.keyTimeout else 0) + 1
  }

  /**
   The timer has decided to publish the stop of a timed-out key; before it reads the target the key is
   pressed again, and the timer publishes motion and sets the flag.
   */
  lemma {:induction false} FlagIsWrong(cfg: Config) returns (moves: seq<Move>)
    requires CanMove(cfg)
    ensures Fits(moves, {MotionKey(cfg)}, Late(cfg, 0))
    ensures var v := ApplyKey(cfg, MotionKey(cfg), STILL);
      Interleave(cfg, moves) == Threads(State(v, Some(Late(cfg, 0)), true), Some(v), KIdle, TIdle)
  {
    var keys, late := {MotionKey(cfg)}, Late(cfg, 0);
    moves := KeyHandled(cfg, [], keys, 0, 0);
    moves := More(cfg, moves, TimerMove(late), 5, keys, 0);
    moves := KeyHandled(cfg, moves, keys, late, late);
    moves := More(cfg, moves, TimerMove(late), 4, keys, late);
  }

  /** The next timeout then publishes nothing. */
  lemma {:induction false} TimeoutIsSilent(cfg: Config) returns (moves: seq<Move>)
    requires CanMove(cfg)
    ensures Fits(moves, {MotionKey(cfg)}, Late(cfg, Late(cfg, 0))) && StopWasLost(Interleave(cfg, moves))
    ensures TimedOut(cfg, Interleave(cfg, moves).s, Late(cfg, Late(cfg, 0)))
  {
    var keys, late := {MotionKey(cfg)}, Late(cfg, 0);
    moves := FlagIsWrong(cfg);
    moves := More(cfg, moves, TimerMove(Late(cfg, late)), 5, keys, late);
  }

  /** A timed-out key loses its stop, with no other key and no stop key in play. */
  ghost predicate LosesTimeout(cfg: Config, moves: seq<Move>, key: char, now: Time) {
    && !IsStopKey(key) && Fits(moves, {key}, now)
    && StopWasLost(Interleave(cfg, moves)) && TimedOut(cfg, Interleave(cfg, moves).s, now)
  }

  /** The stop of a timeout can be lost exactly when some key can move the robot, whatever the timeout. */
  lemma {:induction false} TimeoutStopCanBeLostIff(cfg: Config)
    ensures (exists moves, key, now :: LosesTimeout(cfg, moves, key, now)) <==> CanMove(cfg)
  {
    if CanMove(cfg) {
      var moves := TimeoutIsSilent(cfg);
      assert LosesTimeout(cfg, moves, MotionKey(cfg), Late(cfg, Late(cfg, 0)));
    } else {
      forall moves, key, now ensures !LosesTimeout(cfg, moves, key, now) { ImmobileStaysStill(cfg, moves); }
    }
  }

  // ---------------------------------------------------------------- a lost stop stays lost

  /** The rest of a timer callback that finds a still target and a set flag. */
  predicate TimerIsSilent(t: Threads) {
    && t.key == KIdle && t.timer in {TIdle, TCheckTimeout, TZero, TTest, TTestSent}
    && t.s.stopSent && t.s.velocity == STILL
  }

  /** Once lost, the stop is not made up for: without another key the timer publishes nothing more. */
  lemma {:induction false} LostStopStaysLost(cfg: Config, moves: seq<Move>, n: nat)
    requires n <= |moves| && StopWasLost(Interleave(cfg, moves[..n]))
    requires forall i | n <= i < |moves| :: moves[i].TimerMove?
    ensures TimerIsSilent(Interleave(cfg, moves))
    ensures Interleave(cfg, moves).outstanding == Interleave(cfg, moves[..n]).outstanding
    decreases |moves|
  {
    if n == |moves| {
      assert moves[..n] == moves;
    } else {
      var before := moves[..|moves| - 1];
      assert before[..n] == moves[..n];
      LostStopStaysLost(cfg, before, n);
    }
  }
}
