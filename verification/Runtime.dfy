/**
 The composed runtime: mode manager, safety manager, command arbiter, locomotion adapter and hardware
 gate, each acting on delayed copies of what the others published.

 Every callback is one event. A topic is one FIFO channel per subscriber. Service calls, parameter
 changes, heartbeats and candidate velocities come from outside, at any moment.
 */
module Runtime {
  import opened Messages
  import CommandArbiter
  import HardwareGate
  import Locomotion
  import ModeManager
  import SafetyManager

  /** A message in flight, with the moment it was published. */
  datatype Stamped<T> = Stamped(value: T, sent: Time)

  type Channel<T> = seq<Stamped<T>>

  datatype Net = Net(
    modeToSafety: Channel<Mode>, modeToArbiter: Channel<Mode>,
    modeToLoco: Channel<Mode>, modeToGate: Channel<Mode>,
    safetyToMode: Channel<Safety>, safetyToArbiter: Channel<Safety>,
    safetyToLoco: Channel<Safety>, safetyToGate: Channel<Safety>,
    mrmToGate: Channel<MrmState>,
    approvedToSafety: Channel<Twist>, approvedToLoco: Channel<Twist>, approvedToGate: Channel<Twist>,
    outputToGate: Channel<bool>)

  datatype Link =
    | ModeToSafety | ModeToArbiter | ModeToLoco | ModeToGate
    | SafetyToMode | SafetyToArbiter | SafetyToLoco | SafetyToGate | MrmToGate
    | ApprovedToSafety | ApprovedToLoco | ApprovedToGate | OutputToGate

  /** When each timer fired last. */
  datatype Timers = Timers(mode: Time, safety: Time, arbiter: Time, loco: Time, gate: Time)

  /** Upper bounds on a delivery and on the time between two firings of each timer. */
  datatype Bounds = Bounds(
    delivery: Duration, mode: Duration, safety: Duration, arbiter: Duration, loco: Duration, gate: Duration)

  datatype Config = Config(
    arbiter: CommandArbiter.Config, safety: SafetyManager.Config, loco: Locomotion.Config,
    gate: HardwareGate.Config, bounds: Bounds)

  datatype State = State(
    now: Time, par: SafetyManager.Parameters, mode: ModeManager.State, safety: SafetyManager.State,
    arbiter: CommandArbiter.State, loco: Locomotion.State, gate: HardwareGate.State,
    net: Net, timers: Timers)

  datatype Event =
    | SetMode(code: int) | Takeover | TriggerMrm(reason: string) | ClearMrm
    | SetEstop(engaged: bool) | SetMrmParameter(active: bool, text: string)
    | TeleopHeartbeat | HardwareHeartbeat
    | Candidate(source: CommandArbiter.CandidateSource, msg: Twist)
    | ModeTimer | SafetyTimer | ArbiterTimer | LocoTimer | GateTimer
    | Deliver(link: Link)
    | Lose(lost: Link, index: nat)
    | Advance(dt: nat)

  // ---------------------------------------------------------------- channels

  function Rest<T>(ch: Channel<T>): Channel<T> {
    if ch == [] then ch else ch[1..]
  }

  function Without<T>(ch: Channel<T>, i: nat): Channel<T> {
    if i < |ch| then ch[..i] + ch[i+1..] else ch
  }

  function SendMode(n: Net, mode: Mode, now: Time): Net {
    var m := [Stamped(mode, now)];
    n.(modeToSafety := n.modeToSafety + m, modeToArbiter := n.modeToArbiter + m,
       modeToLoco := n.modeToLoco + m, modeToGate := n.modeToGate + m)
  }

  function SendSafety(n: Net, safety: Safety, mrm: MrmState, now: Time): Net {
    var m := [Stamped(safety, now)];
    n.(safetyToMode := n.safetyToMode + m, safetyToArbiter := n.safetyToArbiter + m,
       safetyToLoco := n.safetyToLoco + m, safetyToGate := n.safetyToGate + m,
       mrmToGate := n.mrmToGate + [Stamped(mrm, now)])
  }

  function SendArbitration(n: Net, out: CommandArbiter.Output, now: Time): Net {
    var a := if out.approved.Some? then [Stamped(out.approved.value, now)] else [];
    n.(approvedToSafety := n.approvedToSafety + a, approvedToLoco := n.approvedToLoco + a,
       approvedToGate := n.approvedToGate + a,
       outputToGate := n.outputToGate + [Stamped(out.state.outputEnabled, now)])
  }

  // ---------------------------------------------------------------- the step function

  function PublishMode(s: State): State {
    s.(net := SendMode(s.net, s.mode.activeMode, s.now))
  }

  function PublishSafety(c: Config, s: State): State {
    s.(safety := SafetyManager.Published(c.safety, s.par, s.safety, s.now),
       net := SendSafety(s.net, SafetyManager.SafetyOutput(c.safety, s.par, s.safety, s.now).state,
                         SafetyManager.MrmOutput(c.safety, s.par, s.safety, s.now).state, s.now))
  }

  function ArbiterOutput(c: Config, s: State): CommandArbiter.Output {
    CommandArbiter.TickOutput(c.arbiter, s.arbiter, s.now)
  }

  function GateAction(c: Config, s: State): HardwareGate.Action {
    HardwareGate.TickAction(c.gate, s.gate, s.now)
  }

  /** The oldest message of the link reaches its subscriber; nothing happens on an empty link. */
  function Delivered(c: Config, s: State, link: Link): State {
    var n := s.net;
    match link
    case ModeToSafety => if n.modeToSafety == [] then s else
      s.(safety := SafetyManager.OnMode(s.safety, n.modeToSafety[0].value),
         net := n.(modeToSafety := n.modeToSafety[1..]))
    case ModeToArbiter => if n.modeToArbiter == [] then s else
      s.(arbiter := CommandArbiter.OnMode(s.arbiter, n.modeToArbiter[0].value),
         net := n.(modeToArbiter := n.modeToArbiter[1..]))
    case ModeToLoco => if n.modeToLoco == [] then s else
      s.(loco := Locomotion.OnMode(s.loco, n.modeToLoco[0].value),
         net := n.(modeToLoco := n.modeToLoco[1..]))
    case ModeToGate => if n.modeToGate == [] then s else
      s.(gate := HardwareGate.OnMode(s.gate, n.modeToGate[0].value),
         net := n.(modeToGate := n.modeToGate[1..]))
    case SafetyToMode => if n.safetyToMode == [] then s else
      s.(mode := ModeManager.OnSafety(s.mode, n.safetyToMode[0].value),
         net := n.(safetyToMode := n.safetyToMode[1..]))
    case SafetyToArbiter => if n.safetyToArbiter == [] then s else
      s.(arbiter := CommandArbiter.OnSafety(s.arbiter, n.safetyToArbiter[0].value),
         net := n.(safetyToArbiter := n.safetyToArbiter[1..]))
    case SafetyToLoco => if n.safetyToLoco == [] then s else
      s.(loco := Locomotion.OnSafety(s.loco, n.safetyToLoco[0].value),
         net := n.(safetyToLoco := n.safetyToLoco[1..]))
    case SafetyToGate => if n.safetyToGate == [] then s else
      s.(gate := HardwareGate.OnSafety(s.gate, n.safetyToGate[0].value),
         net := n.(safetyToGate := n.safetyToGate[1..]))
    case MrmToGate => if n.mrmToGate == [] then s else
      s.(gate := HardwareGate.OnMrm(s.gate, n.mrmToGate[0].value),
         net := n.(mrmToGate := n.mrmToGate[1..]))
    case ApprovedToSafety => if n.approvedToSafety == [] then s else
      s.(safety := SafetyManager.OnApproved(s.safety, s.now),
         net := n.(approvedToSafety := n.approvedToSafety[1..]))
    case ApprovedToLoco => if n.approvedToLoco == [] then s else
      s.(loco := Locomotion.OnApproved(c.loco, s.loco, n.approvedToLoco[0].value, s.now),
         net := n.(approvedToLoco := n.approvedToLoco[1..]))
    case ApprovedToGate => if n.approvedToGate == [] then s else
      s.(gate := HardwareGate.OnApproved(s.gate, n.approvedToGate[0].value, s.now),
         net := n.(approvedToGate := n.approvedToGate[1..]))
    case OutputToGate => if n.outputToGate == [] then s else
      s.(gate := HardwareGate.OnArbitration(s.gate, n.outputToGate[0].value, s.now),
         net := n.(outputToGate := n.outputToGate[1..]))
  }

  /** A message is lost; queue overflow is a case of this. */
  function Lost(n: Net, link: Link, i: nat): Net {
    match link
    case ModeToSafety => n.(modeToSafety := Without(n.modeToSafety, i))
    case ModeToArbiter => n.(modeToArbiter := Without(n.modeToArbiter, i))
    case ModeToLoco => n.(modeToLoco := Without(n.modeToLoco, i))
    case ModeToGate => n.(modeToGate := Without(n.modeToGate, i))
    case SafetyToMode => n.(safetyToMode := Without(n.safetyToMode, i))
    case SafetyToArbiter => n.(safetyToArbiter := Without(n.safetyToArbiter, i))
    case SafetyToLoco => n.(safetyToLoco := Without(n.safetyToLoco, i))
    case SafetyToGate => n.(safetyToGate := Without(n.safetyToGate, i))
    case MrmToGate => n.(mrmToGate := Without(n.mrmToGate, i))
    case ApprovedToSafety => n.(approvedToSafety := Without(n.approvedToSafety, i))
    case ApprovedToLoco => n.(approvedToLoco := Without(n.approvedToLoco, i))
    case ApprovedToGate => n.(approvedToGate := Without(n.approvedToGate, i))
    case OutputToGate => n.(outputToGate := Without(n.outputToGate, i))
  }

  function Apply(c: Config, s: State, e: Event): State {
    match e
    case SetMode(code) =>
      var s1 := s.(mode := ModeManager.OnSetMode(s.mode, code, s.now));
      if ModeManager.SetModeAccepted(s.mode, code) then PublishMode(s1) else s1
    case Takeover => PublishMode(s.(mode := ModeManager.OnTakeover(s.mode, s.now)))
    case TriggerMrm(reason) => PublishSafety(c, s.(safety := SafetyManager.Latched(s.safety, reason)))
    case ClearMrm => if s.par.estop then s else PublishSafety(c, s.(safety := SafetyManager.Unlatched(s.safety)))
    case SetEstop(engaged) => s.(par := s.par.(estop := engaged))
    case SetMrmParameter(active, text) => s.(par := s.par.(mrmActive := active, mrmReason := text))
    case TeleopHeartbeat => s.(safety := SafetyManager.OnTeleopHeartbeat(s.safety, s.now))
    case HardwareHeartbeat => s.(safety := SafetyManager.OnHardwareHeartbeat(s.safety, s.now))
    case Candidate(source, msg) => s.(arbiter := CommandArbiter.OnCandidate(s.arbiter, source, msg, s.now))
    case ModeTimer => PublishMode(s).(timers := s.timers.(mode := s.now))
    case SafetyTimer => PublishSafety(c, s).(timers := s.timers.(safety := s.now))
    case ArbiterTimer =>
      s.(net := SendArbitration(s.net, ArbiterOutput(c, s), s.now), timers := s.timers.(arbiter := s.now))
    case LocoTimer => s.(loco := Locomotion.Tick(c.loco, s.loco, s.now), timers := s.timers.(loco := s.now))
    case GateTimer => s.(timers := s.timers.(gate := s.now))
    case Deliver(link) => Delivered(c, s, link)
    case Lose(link, i) => s.(net := Lost(s.net, link, i))
    case Advance(dt) => s.(now := s.now + dt)
  }

  // ---------------------------------------------------------------- runs

  /** A system: its configuration, and how it is started. */
  datatype World = World(cfg: Config, mode: Mode, par: SafetyManager.Parameters, start: Time)
  {
    function Init(): State {
      State(start, par, ModeManager.Initial(mode, start), SafetyManager.INITIAL, CommandArbiter.INITIAL,
            Locomotion.INITIAL, HardwareGate.INITIAL,
            Net([], [], [], [], [], [], [], [], [], [], [], [], []),
            Timers(start, start, start, start, start))
    }
  }

  /** A finite run, newest event last. */
  datatype History = Start | Then(before: History, event: Event)

  /** The state a run leads to. */
  function At(w: World, h: History): State {
    match h
    case Start => w.Init()
    case Then(before, e) => Apply(w.cfg, At(w, before), e)
  }

  /** `h` continues `p`. */
  ghost predicate Extends(h: History, p: History) {
    h == p || (h.Then? && Extends(h.before, p))
  }

  lemma {:induction false} ExtendsTransitive(h: History, p: History, q: History)
    requires Extends(h, p) && Extends(p, q)
    ensures Extends(h, q)
  {
    if h == p {
    } else {
      ExtendsTransitive(h.before, p, q);
    }
  }

  function Length(h: History): nat {
    match h
    case Start => 0
    case Then(before, _) => Length(before) + 1
  }

  lemma {:induction false} ExtendsIsLonger(h: History, p: History)
    requires Extends(h, p)
    ensures Length(p) <= Length(h)
  {
    if h == p {
    } else {
      ExtendsIsLonger(h.before, p);
    }
  }

  /** Of two beginnings of one run, one continues the other. */
  lemma {:induction false} BeginningsCompare(h: History, p: History, q: History)
    requires Extends(h, p) && Extends(h, q)
    ensures Extends(p, q) || Extends(q, p)
  {
    if h == p || h == q {
    } else {
      BeginningsCompare(h.before, p, q);
    }
  }

  /** Every state of the run from `p` on up to `h` satisfies `cond`. */
  ghost predicate HoldsSince(w: World, p: History, h: History, cond: State -> bool) {
    cond(At(w, h)) && (h == p || (h.Then? && HoldsSince(w, p, h.before, cond)))
  }

  lemma {:induction false} HeldUntilThen(w: World, p: History, h: History, g: History, cond: State -> bool)
    requires HoldsSince(w, p, h, cond) && Extends(h, g) && Extends(g, p)
    ensures HoldsSince(w, p, g, cond)
  {
    if h == g {
    } else {
      ExtendsIsLonger(h.before, g);
      ExtendsIsLonger(g, p);
      HeldUntilThen(w, p, h.before, g, cond);
    }
  }

  lemma {:induction false} HeldExtends(w: World, p: History, h: History, cond: State -> bool)
    requires HoldsSince(w, p, h, cond)
    ensures Extends(h, p)
  {
    if h == p {
    } else {
      HeldExtends(w, p, h.before, cond);
    }
  }

  lemma {:induction false} ClockIsMonotone(w: World, h: History, p: History)
    requires Extends(h, p)
    ensures At(w, p).now <= At(w, h).now
  {
    if h == p {
    } else {
      ClockIsMonotone(w, h.before, p);
      StepNow(w.cfg, At(w, h.before), h.event);
    }
  }

  lemma StepNow(c: Config, s: State, e: Event)
    ensures Apply(c, s, e).now == if e.Advance? then s.now + e.dt else s.now
  {}

  // ---------------------------------------------------------------- timed runs

  ghost predicate OnTime<T>(ch: Channel<T>, t: Time, d: Duration) {
    forall i | 0 <= i < |ch| :: t <= ch[i].sent + d
  }

  /** At time `t` no message would be overdue. */
  ghost predicate NetOnTime(n: Net, t: Time, d: Duration) {
    && OnTime(n.modeToSafety, t, d) && OnTime(n.modeToArbiter, t, d)
    && OnTime(n.modeToLoco, t, d) && OnTime(n.modeToGate, t, d)
    && OnTime(n.safetyToMode, t, d) && OnTime(n.safetyToArbiter, t, d)
    && OnTime(n.safetyToLoco, t, d) && OnTime(n.safetyToGate, t, d)
    && OnTime(n.mrmToGate, t, d)
    && OnTime(n.approvedToSafety, t, d) && OnTime(n.approvedToLoco, t, d) && OnTime(n.approvedToGate, t, d)
    && OnTime(n.outputToGate, t, d)
  }

  /** At time `t` no timer would be overdue. */
  ghost predicate TimersOnTime(b: Bounds, timers: Timers, t: Time) {
    && t <= timers.mode + b.mode && t <= timers.safety + b.safety && t <= timers.arbiter + b.arbiter
    && t <= timers.loco + b.loco && t <= timers.gate + b.gate
  }

  ghost predicate NothingOverdue(c: Config, s: State, t: Time) {
    NetOnTime(s.net, t, c.bounds.delivery) && TimersOnTime(c.bounds, s.timers, t)
  }

  /** The run loses nothing, and time never passes a delivery or timer deadline. */
  ghost predicate Punctual(w: World, h: History) {
    match h
    case Start => true
    case Then(before, e) =>
      && Punctual(w, before)
      && !e.Lose?
      && (e.Advance? ==> NothingOverdue(w.cfg, At(w, before), At(w, before).now + e.dt))
  }

  lemma {:induction false} PunctualBeginning(w: World, h: History, p: History)
    requires Punctual(w, h) && Extends(h, p)
    ensures Punctual(w, p)
  {
    if h == p {
    } else {
      PunctualBeginning(w, h.before, p);
    }
  }

  ghost predicate ValidBounds(b: Bounds) {
    b.delivery >= 0 && b.mode >= 0 && b.safety >= 0 && b.arbiter >= 0 && b.loco >= 0 && b.gate >= 0
  }

  lemma SendModeOnTime(n: Net, mode: Mode, now: Time, t: Time, d: Duration)
    requires NetOnTime(n, t, d) && t <= now + d
    ensures NetOnTime(SendMode(n, mode, now), t, d)
  {}

  lemma SendArbitrationOnTime(n: Net, out: CommandArbiter.Output, now: Time, t: Time, d: Duration)
    requires NetOnTime(n, t, d) && t <= now + d
    ensures NetOnTime(SendArbitration(n, out, now), t, d)
  {}

  lemma PublishSafetyOnTime(c: Config, s: State, t: Time, d: Duration)
    requires NetOnTime(s.net, t, d) && t <= s.now + d
    ensures NetOnTime(PublishSafety(c, s).net, t, d)
  {}

  lemma DeliveryOnTime(c: Config, s: State, link: Link, t: Time, d: Duration)
    requires NetOnTime(s.net, t, d)
    ensures NetOnTime(Delivered(c, s, link).net, t, d)
  {}

  lemma NetStepOnTime(c: Config, s: State, e: Event, t: Time, d: Duration)
    requires !e.Lose?
    requires NetOnTime(s.net, t, d) && t <= s.now + d
    ensures NetOnTime(Apply(c, s, e).net, t, d)
  {
    match e
    case SetMode(code) => SendModeOnTime(s.net, ModeManager.OnSetMode(s.mode, code, s.now).activeMode, s.now, t, d);
    case Takeover => SendModeOnTime(s.net, ModeManager.OnTakeover(s.mode, s.now).activeMode, s.now, t, d);
    case ModeTimer => SendModeOnTime(s.net, s.mode.activeMode, s.now, t, d);
    case TriggerMrm(reason) => PublishSafetyOnTime(c, s.(safety := SafetyManager.Latched(s.safety, reason)), t, d);
    case ClearMrm => PublishSafetyOnTime(c, s.(safety := SafetyManager.Unlatched(s.safety)), t, d);
    case SafetyTimer => PublishSafetyOnTime(c, s, t, d);
    case ArbiterTimer => SendArbitrationOnTime(s.net, ArbiterOutput(c, s), s.now, t, d);
    case Deliver(link) => DeliveryOnTime(c, s, link, t, d);
    case _ =>
  }

  lemma TimerStepOnTime(c: Config, s: State, e: Event)
    requires ValidBounds(c.bounds) && !e.Advance?
    requires TimersOnTime(c.bounds, s.timers, s.now)
    ensures TimersOnTime(c.bounds, Apply(c, s, e).timers, s.now)
  {}

  /** A punctual run is never late. */
  lemma {:induction false} NeverLate(w: World, h: History)
    requires ValidBounds(w.cfg.bounds) && Punctual(w, h)
    ensures NothingOverdue(w.cfg, At(w, h), At(w, h).now)
  {
    if h.Start? {
    } else {
      NeverLate(w, h.before);
      var s := At(w, h.before);
      StepNow(w.cfg, s, h.event);
      if !h.event.Advance? {
        NetStepOnTime(w.cfg, s, h.event, s.now, w.cfg.bounds.delivery);
        TimerStepOnTime(w.cfg, s, h.event);
      }
    }
  }

  // ---------------------------------------------------------------- rounds of waiting

  function InFlight(n: Net): nat {
    |n.modeToSafety| + |n.modeToArbiter| + |n.modeToLoco| + |n.modeToGate|
    + |n.safetyToMode| + |n.safetyToArbiter| + |n.safetyToLoco| + |n.safetyToGate| + |n.mrmToGate|
    + |n.approvedToSafety| + |n.approvedToLoco| + |n.approvedToGate| + |n.outputToGate|
  }

  /** A link on which something is in flight. */
  function Busy(n: Net): Link
    requires InFlight(n) > 0
  {
    if n.modeToSafety != [] then ModeToSafety else if n.modeToArbiter != [] then ModeToArbiter
    else if n.modeToLoco != [] then ModeToLoco else if n.modeToGate != [] then ModeToGate
    else if n.safetyToMode != [] then SafetyToMode else if n.safetyToArbiter != [] then SafetyToArbiter
    else if n.safetyToLoco != [] then SafetyToLoco else if n.safetyToGate != [] then SafetyToGate
    else if n.mrmToGate != [] then MrmToGate
    else if n.approvedToSafety != [] then ApprovedToSafety else if n.approvedToLoco != [] then ApprovedToLoco
    else if n.approvedToGate != [] then ApprovedToGate else OutputToGate
  }

  /** What a round delivers: everything, or everything but the commands on their way to the watchdog. */
  function Due(n: Net, hold: bool): Net {
    if hold then n.(approvedToSafety := []) else n
  }

  lemma DeliveryDrains(c: Config, s: State, hold: bool)
    requires InFlight(Due(s.net, hold)) > 0
    ensures var link := Busy(Due(s.net, hold));
      (hold ==> link != ApprovedToSafety) && InFlight(Due(Delivered(c, s, link).net, hold)) < InFlight(Due(s.net, hold))
  {}

  /** The run continued by delivering all that is due. */
  ghost function Drained(w: World, h: History, hold: bool): History
    decreases InFlight(Due(At(w, h).net, hold))
  {
    if InFlight(Due(At(w, h).net, hold)) == 0 then h
    else
      DeliveryDrains(w.cfg, At(w, h), hold);
      Drained(w, Then(h, Deliver(Busy(Due(At(w, h).net, hold)))), hold)
  }

  /** The run continued by firing every timer, the arbiter's only if asked to. */
  function Fired(h: History, arbiter: bool): History {
    var fired := Then(Then(Then(Then(h, ModeTimer), SafetyTimer), LocoTimer), GateTimer);
    if arbiter then Then(fired, ArbiterTimer) else fired
  }

  /** The events of a round. */
  predicate InRound(e: Event, hold: bool, arbiter: bool) {
    match e
    case ModeTimer => true
    case SafetyTimer => true
    case LocoTimer => true
    case GateTimer => true
    case ArbiterTimer => arbiter
    case Deliver(link) => hold ==> link != ApprovedToSafety
    case _ => false
  }

  /** No event of a round leaves `inv`. */
  ghost predicate RoundKeeps(c: Config, hold: bool, arbiter: bool, inv: State -> bool) {
    forall s, e | inv(s) && InRound(e, hold, arbiter) :: inv(Apply(c, s, e))
  }

  /** The run is punctual, and has reached `inv` at `now` with the given timers. */
  ghost predicate Reached(w: World, h: History, inv: State -> bool, now: Time, timers: Timers) {
    Punctual(w, h) && inv(At(w, h)) && At(w, h).now == now && At(w, h).timers == timers
  }

  lemma TimersStep(c: Config, s: State, e: Event)
    ensures Apply(c, s, e).timers == match e
            case ModeTimer => s.timers.(mode := s.now)
            case SafetyTimer => s.timers.(safety := s.now)
            case ArbiterTimer => s.timers.(arbiter := s.now)
            case LocoTimer => s.timers.(loco := s.now)
            case GateTimer => s.timers.(gate := s.now)
            case _ => s.timers
  {}

  lemma {:induction false} RoundStep(
    w: World, h: History, e: Event, hold: bool, arbiter: bool, inv: State -> bool, now: Time, timers: Timers)
    returns (timers': Timers)
    requires RoundKeeps(w.cfg, hold, arbiter, inv) && InRound(e, hold, arbiter)
    requires Reached(w, h, inv, now, timers)
    ensures timers' == match e
      case ModeTimer => timers.(mode := now)
      case SafetyTimer => timers.(safety := now)
      case ArbiterTimer => timers.(arbiter := now)
      case LocoTimer => timers.(loco := now)
      case GateTimer => timers.(gate := now)
      case _ => timers
    ensures Reached(w, Then(h, e), inv, now, timers')
  {
    TimersStep(w.cfg, At(w, h), e);
    StepNow(w.cfg, At(w, h), e);
    timers' := At(w, Then(h, e)).timers;
  }

  lemma {:induction false} FiringReaches(
    w: World, h: History, hold: bool, arbiter: bool, inv: State -> bool, now: Time, timers: Timers)
    requires RoundKeeps(w.cfg, hold, arbiter, inv) && Reached(w, h, inv, now, timers)
    ensures Reached(w, Fired(h, arbiter), inv, now, Timers(now, now, if arbiter then now else timers.arbiter, now, now))
  {
    var h1 := Then(h, ModeTimer);
    var h2 := Then(h1, SafetyTimer);
    var h3 := Then(h2, LocoTimer);
    var t := RoundStep(w, h, ModeTimer, hold, arbiter, inv, now, timers);
    t := RoundStep(w, h1, SafetyTimer, hold, arbiter, inv, now, t);
    t := RoundStep(w, h2, LocoTimer, hold, arbiter, inv, now, t);
    t := RoundStep(w, h3, GateTimer, hold, arbiter, inv, now, t);
    if arbiter { t := RoundStep(w, Then(h3, GateTimer), ArbiterTimer, hold, arbiter, inv, now, t); }
  }

  lemma {:induction false} DrainingReaches(
    w: World, h: History, hold: bool, arbiter: bool, inv: State -> bool, now: Time, timers: Timers)
    requires RoundKeeps(w.cfg, hold, arbiter, inv) && Reached(w, h, inv, now, timers)
    ensures Reached(w, Drained(w, h, hold), inv, now, timers)
    ensures InFlight(Due(At(w, Drained(w, h, hold)).net, hold)) == 0
    decreases InFlight(Due(At(w, h).net, hold))
  {
    if InFlight(Due(At(w, h).net, hold)) == 0 {
    } else {
      DeliveryDrains(w.cfg, At(w, h), hold);
      var e := Deliver(Busy(Due(At(w, h).net, hold)));
      var _ := RoundStep(w, h, e, hold, arbiter, inv, now, timers);
      DrainingReaches(w, Then(h, e), hold, arbiter, inv, now, timers);
    }
  }

  /** The run continued by firing the timers and delivering what is due, all at once. */
  ghost function Round(w: World, h: History, hold: bool, arbiter: bool): History {
    Drained(w, Fired(h, arbiter), hold)
  }

  /** A round keeps what each of its events keeps; all that is due has been delivered, and the timers fired. */
  lemma {:induction false} RoundReaches(w: World, h: History, hold: bool, arbiter: bool, inv: State -> bool)
    requires RoundKeeps(w.cfg, hold, arbiter, inv) && Punctual(w, h) && inv(At(w, h))
    ensures var now := At(w, h).now;
      Reached(w, Round(w, h, hold, arbiter), inv, now,
              Timers(now, now, if arbiter then now else At(w, h).timers.arbiter, now, now))
    ensures InFlight(Due(At(w, Round(w, h, hold, arbiter)).net, hold)) == 0
  {
    var now, timers := At(w, h).now, At(w, h).timers;
    FiringReaches(w, h, hold, arbiter, inv, now, timers);
    DrainingReaches(w, Fired(h, arbiter), hold, arbiter, inv, now,
                    Timers(now, now, if arbiter then now else timers.arbiter, now, now));
  }

  lemma {:induction false} DrainedExtends(w: World, h: History, hold: bool)
    ensures Extends(Drained(w, h, hold), h)
    decreases InFlight(Due(At(w, h).net, hold))
  {
    if InFlight(Due(At(w, h).net, hold)) == 0 {
    } else {
      DeliveryDrains(w.cfg, At(w, h), hold);
      var next := Then(h, Deliver(Busy(Due(At(w, h).net, hold))));
      DrainedExtends(w, next, hold);
      ExtendsTransitive(Drained(w, h, hold), next, h);
    }
  }

  lemma {:induction false} FiredExtends(h: History, arbiter: bool)
    ensures Extends(Fired(h, arbiter), h)
  {
    var h1 := Then(h, ModeTimer);
    var h2 := Then(h1, SafetyTimer);
    var h3 := Then(h2, LocoTimer);
    assert Extends(h1, h) && Extends(h2, h) && Extends(h3, h) && Extends(Then(h3, GateTimer), h);
  }

  lemma {:induction false} RoundExtends(w: World, h: History, hold: bool, arbiter: bool)
    ensures Extends(Round(w, h, hold, arbiter), h)
  {
    FiredExtends(h, arbiter);
    DrainedExtends(w, Fired(h, arbiter), hold);
    ExtendsTransitive(Round(w, h, hold, arbiter), Fired(h, arbiter), h);
  }

  /** Every timer has a period in which time can pass. */
  predicate PositivePeriods(b: Bounds) {
    b.delivery >= 0 && b.mode > 0 && b.safety > 0 && b.arbiter > 0 && b.loco > 0 && b.gate > 0
  }

  lemma {:induction false} NanosecondPasses(w: World, h: History, inv: State -> bool, now: Time, timers: Timers)
    requires Reached(w, h, inv, now, timers)
    requires NetOnTime(At(w, h).net, now + 1, w.cfg.bounds.delivery) && TimersOnTime(w.cfg.bounds, timers, now + 1)
    ensures Punctual(w, Then(h, Advance(1)))
    ensures At(w, Then(h, Advance(1))) == At(w, h).(now := now + 1)
  {}

  /** With positive periods, every punctual run has a punctual continuation in which time has passed. */
  lemma {:induction false} TimeCanPass(w: World, h: History)
    requires Punctual(w, h) && PositivePeriods(w.cfg.bounds)
    ensures exists h' :: Extends(h', h) && Punctual(w, h') && At(w, h').now > At(w, h).now
  {
    var now, round, all := At(w, h).now, Round(w, h, false, true), (s: State) => true;
    RoundReaches(w, h, false, true, all);
    NanosecondPasses(w, round, all, now, Timers(now, now, now, now, now));
    RoundExtends(w, h, false, true);
    assert Extends(Then(round, Advance(1)), h);
  }
}
