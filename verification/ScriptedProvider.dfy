/** The scripted policy provider: the waypoint plan, walked only while the candidate gate is open. */
module ScriptedProvider {
  import opened Messages
  import WaypointPlan

  /** `dt` is the timer period in seconds. */
  datatype Config = Config(plan: WaypointPlan.Plan, dt: real)

  predicate ValidConfig(cfg: Config) {
    WaypointPlan.Valid(cfg.plan) && cfg.dt > 0.0
  }

  datatype State = State(activeMode: Mode, safetyState: Safety, safetySeen: bool, progress: WaypointPlan.Progress)

  const INITIAL := State(Inactive, SafetyUnknown, false, WaypointPlan.INITIAL)

  datatype Event = ModeState(mode: Mode) | SafetyState(safety: Safety) | Tick(enabled: bool)

  predicate ShouldEmit(enabled: bool, activeMode: Mode, safetyState: Safety, safetySeen: bool) {
    enabled && safetySeen && IsClear(safetyState) && activeMode == AiPolicy
  }

  function Command(plan: WaypointPlan.Plan, p: WaypointPlan.Progress): Option<Twist> {
    match WaypointPlan.CurrentCommand(plan, p)
    case None => None
    case Some(wp) => Some(Twist(wp.linear, 0.0, 0.0, 0.0, 0.0, wp.angular))
  }

  function OnTick(cfg: Config, s: State, enabled: bool): (State, Option<Twist>)
    requires ValidConfig(cfg)
  {
    if !ShouldEmit(enabled, s.activeMode, s.safetyState, s.safetySeen) then (s, None)
    else
      var p := WaypointPlan.Advance(cfg.plan, s.progress, cfg.dt);
      (s.(progress := p), Command(cfg.plan, p))
  }

  function Step(cfg: Config, s: State, e: Event): (State, Option<Twist>)
    requires ValidConfig(cfg)
  {
    match e
    case ModeState(mode) => (s.(activeMode := mode), None)
    case SafetyState(safety) => (s.(safetyState := safety, safetySeen := true), None)
    case Tick(enabled) => OnTick(cfg, s, enabled)
  }

  /** The state a run leads to, and the commands it published. */
  function Run(cfg: Config, es: seq<Event>): (State, seq<Twist>)
    requires ValidConfig(cfg)
  {
    if es == [] then (INITIAL, [])
    else
      var (s, log) := Run(cfg, es[..|es| - 1]);
      var (s', out) := Step(cfg, s, es[|es| - 1]);
      (s', if out.Some? then log + [out.value] else log)
  }

  predicate OpenTick(cfg: Config, es: seq<Event>)
    requires ValidConfig(cfg) && es != []
  {
    var s := Run(cfg, es[..|es| - 1]).0;
    var e := es[|es| - 1];
    e.Tick? && ShouldEmit(e.enabled, s.activeMode, s.safetyState, s.safetySeen)
  }

  /** How many ticks of the run found the gate open. */
  function OpenTicks(cfg: Config, es: seq<Event>): nat
    requires ValidConfig(cfg)
  {
    if es == [] then 0 else OpenTicks(cfg, es[..|es| - 1]) + if OpenTick(cfg, es) then 1 else 0
  }

  /** The progress after `k` periods without any pause. */
  function After(cfg: Config, k: nat): WaypointPlan.Progress
    requires ValidConfig(cfg)
  {
    if k == 0 then WaypointPlan.INITIAL
    else WaypointPlan.Advance(cfg.plan, WaypointPlan.INITIAL, WaypointPlan.Times(k, cfg.dt))
  }

  /** What a provider publishes over `k` periods without any pause. */
  function Script(cfg: Config, k: nat): seq<Twist>
    requires ValidConfig(cfg)
  {
    if k == 0 then []
    else
      var out := Command(cfg.plan, After(cfg, k));
      Script(cfg, k - 1) + if out.Some? then [out.value] else []
  }

  /** One more period, from wherever `k` periods have led. */
  lemma AfterOneMore(cfg: Config, k: nat)
    requires ValidConfig(cfg)
    ensures After(cfg, k + 1) == WaypointPlan.Advance(cfg.plan, After(cfg, k), cfg.dt)
  {
    WaypointPlan.AdvanceAdds(cfg.plan, WaypointPlan.INITIAL, WaypointPlan.Times(k, cfg.dt), cfg.dt);
  }

  /**
   Pauses leave no trace: whatever modes, safety states and closed ticks lie between, a run with `k` open
   ticks has published the first `k` periods of the script and stands where they lead.
   */
  lemma {:induction false} PausesAreTransparent(cfg: Config, es: seq<Event>)
    requires ValidConfig(cfg)
    ensures Run(cfg, es).0.progress == After(cfg, OpenTicks(cfg, es))
    ensures Run(cfg, es).1 == Script(cfg, OpenTicks(cfg, es))
  {
    if es == [] {
    } else {
      var before := es[..|es| - 1];
      PausesAreTransparent(cfg, before);
      AfterOneMore(cfg, OpenTicks(cfg, before));
    }
  }

  /** The newest mode and safety state heard of. */
  function LastMode(es: seq<Event>): Mode {
    if es == [] then Inactive
    else var e := es[|es| - 1]; if e.ModeState? then e.mode else LastMode(es[..|es| - 1])
  }

  function LastSafety(es: seq<Event>): Option<Safety> {
    if es == [] then None
    else var e := es[|es| - 1]; if e.SafetyState? then Some(e.safety) else LastSafety(es[..|es| - 1])
  }

  lemma {:induction false} ViewsAreNewest(cfg: Config, es: seq<Event>)
    requires ValidConfig(cfg)
    ensures var s := Run(cfg, es).0;
      && s.activeMode == LastMode(es) && s.safetySeen == LastSafety(es).Some?
      && (s.safetySeen ==> s.safetyState == LastSafety(es).value)
  {
    if es == [] {
    } else {
      ViewsAreNewest(cfg, es[..|es| - 1]);
    }
  }

  /** The gate is open to a tick: enabled, in AI_POLICY, with safety heard of as OK or WARN. */
  predicate GateOpen(es: seq<Event>, enabled: bool) {
    enabled && LastMode(es) == AiPolicy && LastSafety(es) in {Some(Ok), Some(Warn)}
  }

  /**
   In any run a tick publishes exactly under an open gate, while the plan lasts: the forward and turning
   velocity of the waypoint that the progress, one period on, points to.
   */
  lemma {:induction false} TicksPublishExactly(cfg: Config, es: seq<Event>, enabled: bool)
    requires ValidConfig(cfg)
    ensures var p := After(cfg, OpenTicks(cfg, es) + 1);
      Step(cfg, Run(cfg, es).0, Tick(enabled)).1
      == match WaypointPlan.CurrentCommand(cfg.plan, p)
         case None => None
         case Some(wp) => if GateOpen(es, enabled) then Some(Twist(wp.linear, 0.0, 0.0, 0.0, 0.0, wp.angular)) else None
    ensures OpenTicks(cfg, es + [Tick(enabled)]) == OpenTicks(cfg, es) + if GateOpen(es, enabled) then 1 else 0
  {
    ViewsAreNewest(cfg, es);
    PausesAreTransparent(cfg, es);
    AfterOneMore(cfg, OpenTicks(cfg, es));
    assert (es + [Tick(enabled)])[..|es|] == es;
  }

  class ScriptedProviderNode {
    const cfg: Config
    var activeMode: Mode
    var safetyState: Safety
    var safetySeen: bool
    var progress: WaypointPlan.Progress

    ghost function View(): State
      reads this
    {
      State(activeMode, safetyState, safetySeen, progress)
    }

    ghost predicate Valid()
      reads this
    {
      ValidConfig(cfg)
    }

    constructor (cfg: Config)
      requires ValidConfig(cfg)
      ensures this.cfg == cfg && Valid() && View() == INITIAL
    {
      this.cfg := cfg;
      activeMode, safetyState, safetySeen := Inactive, SafetyUnknown, false;
      progress := WaypointPlan.INITIAL;
    }

    method OnMode(mode: Mode)
      requires Valid()
      modifies this
      ensures Valid() && View() == Step(cfg, old(View()), ModeState(mode)).0
    {
      activeMode := mode;
    }

    method OnSafety(safety: Safety)
      requires Valid()
      modifies this
      ensures Valid() && View() == Step(cfg, old(View()), SafetyState(safety)).0
    {
      safetyState := safety;
      safetySeen := true;
    }

    method OnTimer(enabled: bool) returns (published: Option<Twist>)
      requires Valid()
      modifies this
      ensures Valid() && (View(), published) == OnTick(cfg, old(View()), enabled)
    {
      if !ShouldEmit(enabled, activeMode, safetyState, safetySeen) { return None; }
      var advanced := WaypointPlan.AdvanceProgress(cfg.plan, progress, cfg.dt);
      progress := advanced.value;
      var waypoint := WaypointPlan.CurrentCommand(cfg.plan, progress);
      if waypoint.None? { return None; }
      published := Some(Twist(waypoint.value.linear, 0.0, 0.0, 0.0, 0.0, waypoint.value.angular));
    }
  }
}
