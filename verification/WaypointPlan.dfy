/**
 The scripted waypoint plan: parsing with its positivity guard, and the walk that consumes segments one
 by one, with its closed form and additivity.
 */
module WaypointPlan {
  import opened Messages

  datatype Result<+T, +E> = Success(value: T) | Failure(error: E)

  datatype Waypoint = Waypoint(linear: real, angular: real, duration: real)

  datatype Plan = Plan(waypoints: seq<Waypoint>, loop: bool)

  datatype Progress = Progress(index: nat, elapsed: real, completed: bool)

  const INITIAL := Progress(0, 0.0, false)

  // ---------------------------------------------------------------- parsing

  /** A raw entry; a missing or non-numeric field is None. */
  datatype RawWaypoint = NotMapping | Mapping(linear: Option<real>, angular: Option<real>, duration: Option<real>)

  datatype RawList = NotList | Entries(entries: seq<RawWaypoint>)

  datatype ParseError = WaypointsNotList | BadWaypoint(index: nat)

  function ParseWaypoint(raw: RawWaypoint, index: nat): Result<Waypoint, ParseError> {
    if raw.NotMapping? || raw.linear.None? || raw.angular.None? || raw.duration.None? then Failure(BadWaypoint(index))
    else if raw.duration.value <= 0.0 then Failure(BadWaypoint(index))
    else Success(Waypoint(raw.linear.value, raw.angular.value, raw.duration.value))
  }

  function ParseEntries(entries: seq<RawWaypoint>, index: nat): Result<seq<Waypoint>, ParseError>
    requires index <= |entries|
    decreases |entries| - index
  {
    if index == |entries| then Success([])
    else
      match ParseWaypoint(entries[index], index)
      case Failure(e) => Failure(e)
      case Success(wp) =>
        match ParseEntries(entries, index + 1)
        case Failure(e) => Failure(e)
        case Success(rest) => Success([wp] + rest)
  }

  function ParsePlan(waypoints: RawList, loop: bool): Result<Plan, ParseError> {
    match waypoints
    case NotList => Failure(WaypointsNotList)
    case Entries(entries) =>
      match ParseEntries(entries, 0)
      case Failure(e) => Failure(e)
      case Success(wps) => Success(Plan(wps, loop))
  }

  /** Every segment takes time. */
  predicate Valid(plan: Plan) {
    forall i | 0 <= i < |plan.waypoints| :: plan.waypoints[i].duration > 0.0
  }

  /** An entry that can be read: all three fields there, and a duration above zero. */
  predicate Readable(raw: RawWaypoint) {
    raw.Mapping? && raw.linear.Some? && raw.angular.Some? && raw.duration.Some? && raw.duration.value > 0.0
  }

  /** The waypoint of an entry, field by field. */
  predicate Reads(raw: RawWaypoint, wp: Waypoint) {
    && Readable(raw)
    && wp.linear == raw.linear.value && wp.angular == raw.angular.value && wp.duration == raw.duration.value
  }

  lemma {:induction false} ParseEntriesIsExact(entries: seq<RawWaypoint>, index: nat)
    requires index <= |entries|
    ensures match ParseEntries(entries, index)
            case Success(wps) =>
              && |wps| == |entries| - index
              && (forall i | index <= i < |entries| :: Reads(entries[i], wps[i - index]))
            case Failure(e) =>
              exists i | index <= i < |entries| ::
                && e == BadWaypoint(i) && !Readable(entries[i])
                && (forall j | index <= j < i :: Readable(entries[j]))
    decreases |entries| - index
  {
    if index == |entries| {
    } else {
      ParseEntriesIsExact(entries, index + 1);
    }
  }

  /** A plan is parsed entry by entry, field by field; a failure names the first entry that cannot be read. */
  lemma ParsedPlansAreValid(entries: seq<RawWaypoint>, loop: bool)
    ensures match ParsePlan(Entries(entries), loop)
            case Success(plan) =>
              && Valid(plan) && plan.loop == loop && |plan.waypoints| == |entries|
              && (forall i | 0 <= i < |entries| :: Reads(entries[i], plan.waypoints[i]))
            case Failure(e) =>
              exists i | 0 <= i < |entries| ::
                && e == BadWaypoint(i) && !Readable(entries[i])
                && (forall j | 0 <= j < i :: Readable(entries[j]))
    ensures ParsePlan(NotList, loop) == Failure(WaypointsNotList)
  {
    ParseEntriesIsExact(entries, 0);
    match ParseEntries(entries, 0)
    case Failure(_) =>
    case Success(wps) =>
      forall i | 0 <= i < |wps| ensures Reads(entries[i], wps[i]) {
        assert Reads(entries[i], wps[i - 0]);
      }
  }

  // ---------------------------------------------------------------- positions

  /** Time from the start of the plan to the start of waypoint `i`. */
  function Prefix(plan: Plan, i: nat): real
    requires i <= |plan.waypoints|
  {
    if i == 0 then 0.0 else Prefix(plan, i - 1) + plan.waypoints[i - 1].duration
  }

  function Total(plan: Plan): real {
    Prefix(plan, |plan.waypoints|)
  }

  /** The progress points into the plan. */
  predicate Located(plan: Plan, p: Progress) {
    !p.completed && p.index < |plan.waypoints| && 0.0 <= p.elapsed < plan.waypoints[p.index].duration
  }

  function Position(plan: Plan, p: Progress): real
    requires p.index <= |plan.waypoints|
  {
    Prefix(plan, p.index) + p.elapsed
  }

  lemma {:induction false} PrefixGrows(plan: Plan, i: nat, j: nat)
    requires Valid(plan) && i <= j <= |plan.waypoints|
    ensures i < j ==> Prefix(plan, i) + plan.waypoints[i].duration <= Prefix(plan, j)
    ensures Prefix(plan, i) <= Prefix(plan, j)
    decreases j
  {
    if i == j {
    } else {
      PrefixGrows(plan, i, j - 1);
    }
  }

  lemma PositionInPlan(plan: Plan, p: Progress)
    requires Valid(plan) && Located(plan, p)
    ensures 0.0 <= Position(plan, p) < Total(plan)
  {
    PrefixGrows(plan, 0, p.index);
    PrefixGrows(plan, p.index, |plan.waypoints|);
  }

  /** A position belongs to one place of the plan only. */
  lemma PositionDetermines(plan: Plan, p: Progress, q: Progress)
    requires Valid(plan) && Located(plan, p) && Located(plan, q)
    requires Position(plan, p) == Position(plan, q)
    ensures p == q
  {
    if p.index < q.index { PrefixGrows(plan, p.index, q.index); }
    if q.index < p.index { PrefixGrows(plan, q.index, p.index); }
  }

  // ---------------------------------------------------------------- the walk

  function MinDuration(plan: Plan): (m: real)
    requires Valid(plan) && plan.waypoints != []
    ensures m > 0.0
    ensures forall i | 0 <= i < |plan.waypoints| :: m <= plan.waypoints[i].duration
  {
    MinOver(plan.waypoints)
  }

  function MinOver(wps: seq<Waypoint>): (m: real)
    requires wps != [] && forall i | 0 <= i < |wps| :: wps[i].duration > 0.0
    ensures m > 0.0
    ensures forall i | 0 <= i < |wps| :: m <= wps[i].duration
  {
    var d := wps[0].duration;
    if |wps| == 1 then d
    else
      var rest := MinOver(wps[1..]);
      assert forall i | 1 <= i < |wps| :: wps[i] == wps[1..][i - 1];
      if d <= rest then d else rest
  }

  /** How many more segments the walk can consume: the termination measure of the loop. */
  function Fuel(plan: Plan, elapsed: real): nat
    requires Valid(plan)
  {
    if plan.waypoints == [] || elapsed < 0.0 then 0
    else
      FuelIsNatural(MinDuration(plan), elapsed);
      (elapsed / MinDuration(plan)).Floor
  }

  lemma FuelIsNatural(m: real, elapsed: real)
    requires m > 0.0 && elapsed >= 0.0
    ensures (elapsed / m).Floor >= 0
  {}

  lemma FuelDrops(plan: Plan, elapsed: real, i: nat)
    requires Valid(plan) && i < |plan.waypoints| && elapsed >= plan.waypoints[i].duration
    ensures Fuel(plan, elapsed - plan.waypoints[i].duration) < Fuel(plan, elapsed)
  {
    var m, d := MinDuration(plan), plan.waypoints[i].duration;
    QuotientDrops(elapsed, d, m);
  }

  lemma QuotientDrops(elapsed: real, d: real, m: real)
    requires 0.0 < m <= d
    ensures (elapsed - d) / m <= elapsed / m - 1.0
  {
    assert (elapsed - d) / m == elapsed / m - d / m;
    assert d / m >= m / m by { assert d / m - m / m == (d - m) / m; }
  }

  /** Consuming segments from waypoint `index`, with `elapsed` to spend. */
  function Walk(plan: Plan, index: nat, elapsed: real): Progress
    requires Valid(plan)
    decreases Fuel(plan, elapsed)
  {
    if index >= |plan.waypoints| || elapsed < plan.waypoints[index].duration then Progress(index, elapsed, false)
    else
      FuelDrops(plan, elapsed, index);
      var rest := elapsed - plan.waypoints[index].duration;
      if index + 1 < |plan.waypoints| then Walk(plan, index + 1, rest)
      else if plan.loop then Walk(plan, 0, rest)
      else Progress(|plan.waypoints|, 0.0, true)
  }

  /** The states a progress can be in under a plan. */
  predicate WellFormed(plan: Plan, p: Progress) {
    plan.waypoints == [] || p.completed || Located(plan, p)
  }

  function Advance(plan: Plan, p: Progress, dt: real): Progress
    requires Valid(plan)
  {
    if plan.waypoints == [] then Progress(0, 0.0, true)
    else if p.completed then p
    else Walk(plan, p.index, p.elapsed + dt)
  }

  function CurrentCommand(plan: Plan, p: Progress): Option<Waypoint> {
    if p.completed || plan.waypoints == [] || p.index >= |plan.waypoints| then None
    else Some(plan.waypoints[p.index])
  }

  /** The loop that consumes segments, against the recursive walk; a negative step is refused. */
  method AdvanceProgress(plan: Plan, p: Progress, dt: real) returns (r: Result<Progress, ()>)
    requires Valid(plan)
    ensures r == if dt < 0.0 then Failure(()) else Success(Advance(plan, p, dt))
  {
    if dt < 0.0 { return Failure(()); }
    if plan.waypoints == [] { return Success(Progress(0, 0.0, true)); }
    if p.completed { return Success(p); }
    var index: nat, elapsed := p.index, p.elapsed + dt;
    while index < |plan.waypoints| && elapsed >= plan.waypoints[index].duration
      invariant Walk(plan, index, elapsed) == Walk(plan, p.index, p.elapsed + dt)
      decreases Fuel(plan, elapsed)
    {
      FuelDrops(plan, elapsed, index);
      elapsed := elapsed - plan.waypoints[index].duration;
      index := index + 1;
      if index >= |plan.waypoints| {
        if plan.loop {
          index := 0;
        } else {
          return Success(Progress(|plan.waypoints|, 0.0, true));
        }
      }
    }
    return Success(Progress(index, elapsed, false));
  }

  /** An empty plan is not left unchanged: whatever the progress, the result is the completed one. */
  lemma EmptyPlanCompletes(plan: Plan, p: Progress, dt: real)
    requires plan.waypoints == []
    ensures Advance(plan, p, dt) == p <==> p == Progress(0, 0.0, true)
    ensures CurrentCommand(plan, p).None? && Advance(plan, p, dt).completed
  {}

  /** What is left of a walk is a walk from where it stopped. */
  lemma {:induction false} WalkAdds(plan: Plan, index: nat, elapsed: real, b: real)
    requires Valid(plan) && b >= 0.0
    ensures var q := Walk(plan, index, elapsed);
      Walk(plan, index, elapsed + b) == if q.completed then q else Walk(plan, q.index, q.elapsed + b)
    decreases Fuel(plan, elapsed)
  {
    if index >= |plan.waypoints| || elapsed < plan.waypoints[index].duration {
    } else {
      var rest := elapsed - plan.waypoints[index].duration;
      FuelDrops(plan, elapsed, index);
      assert (elapsed + b) - plan.waypoints[index].duration == rest + b;
      if index + 1 < |plan.waypoints| {
        WalkAdds(plan, index + 1, rest, b);
      } else if plan.loop {
        WalkAdds(plan, 0, rest, b);
      }
    }
  }

  /**
   Advancing twice is advancing once by the sum, through any number of segments, rounds, or the end, from
   whatever progress.
   */
  lemma {:induction false} AdvanceAdds(plan: Plan, p: Progress, a: real, b: real)
    requires Valid(plan) && a >= 0.0 && b >= 0.0
    ensures Advance(plan, Advance(plan, p, a), b) == Advance(plan, p, a + b)
  {
    if plan.waypoints == [] || p.completed {
    } else {
      WalkAdds(plan, p.index, p.elapsed + a, b);
      assert p.elapsed + (a + b) == (p.elapsed + a) + b;
    }
  }

  // ---------------------------------------------------------------- closed form

  /** `k` times `x`. */
  function Times(k: nat, x: real): (r: real)
    ensures x >= 0.0 ==> r >= 0.0
  {
    if k == 0 then 0.0 else Times(k - 1, x) + x
  }

  /** `q` lies `k` whole rounds and some remainder after position `x`. */
  predicate RoundsTo(plan: Plan, x: real, k: nat, q: Progress) {
    Located(plan, q) && x == Times(k, Total(plan)) + Position(plan, q)
  }

  /** Where a walk from position `x` ends: modulo the plan when looping, cut off at its end otherwise. */
  ghost predicate EndsAt(plan: Plan, x: real, q: Progress) {
    if plan.loop then exists k :: RoundsTo(plan, x, k, q)
    else if x >= Total(plan) then q == Progress(|plan.waypoints|, 0.0, true)
    else Located(plan, q) && Position(plan, q) == x
  }

  lemma {:induction false} WalkEnds(plan: Plan, index: nat, elapsed: real)
    requires Valid(plan) && index < |plan.waypoints| && elapsed >= 0.0
    ensures EndsAt(plan, Prefix(plan, index) + elapsed, Walk(plan, index, elapsed))
    decreases Fuel(plan, elapsed)
  {
    var d, x, q := plan.waypoints[index].duration, Prefix(plan, index) + elapsed, Walk(plan, index, elapsed);
    if elapsed < d {
      PositionInPlan(plan, q);
      assert plan.loop ==> RoundsTo(plan, x, 0, q);
    } else {
      FuelDrops(plan, elapsed, index);
      if index + 1 < |plan.waypoints| {
        WalkEnds(plan, index + 1, elapsed - d);
      } else if plan.loop {
        WalkEnds(plan, 0, elapsed - d);
        OneMoreRound(plan, elapsed - d, q);
      }
    }
  }

  lemma OneMoreRound(plan: Plan, x: real, q: Progress)
    requires plan.loop && EndsAt(plan, x, q)
    ensures EndsAt(plan, x + Total(plan), q)
  {
    var k: nat :| RoundsTo(plan, x, k, q);
    assert RoundsTo(plan, x + Total(plan), k + 1, q);
  }

  /** The closed form names one progress only. */
  lemma EndIsUnique(plan: Plan, x: real, q: Progress, r: Progress)
    requires Valid(plan) && plan.waypoints != []
    requires EndsAt(plan, x, q) && EndsAt(plan, x, r)
    ensures q == r
  {
    if plan.loop {
      var k: nat :| RoundsTo(plan, x, k, q);
      var l: nat :| RoundsTo(plan, x, l, r);
      PositionInPlan(plan, q);
      PositionInPlan(plan, r);
      SameRound(k, l, Total(plan), Position(plan, q), Position(plan, r));
      PositionDetermines(plan, q, r);
    } else if x < Total(plan) {
      PositionDetermines(plan, q, r);
    }
  }

  lemma {:induction false} TimesApart(k: nat, l: nat, total: real)
    requires k < l && total > 0.0
    ensures Times(l, total) >= Times(k, total) + total
    decreases l
  {
    if k + 1 == l {
    } else {
      TimesApart(k, l - 1, total);
    }
  }

  lemma SameRound(k: nat, l: nat, total: real, a: real, b: real)
    requires 0.0 <= a < total && 0.0 <= b < total
    requires Times(k, total) + a == Times(l, total) + b
    ensures k == l
  {}

  lemma {:induction false} TimesIsProduct(k: nat, total: real)
    ensures Times(k, total) == (k as real) * total
  {
    if k == 0 {
    } else {
      TimesIsProduct(k - 1, total);
      assert (k as real) * total == ((k - 1) as real) * total + total;
    }
  }

  /** Advancing is exactly the closed form: the walk does it, and nothing else does. */
  lemma AdvanceClosedForm(plan: Plan, p: Progress, dt: real, q: Progress)
    requires Valid(plan) && Located(plan, p) && dt >= 0.0
    ensures q == Advance(plan, p, dt) <==> EndsAt(plan, Position(plan, p) + dt, q)
  {
    WalkEnds(plan, p.index, p.elapsed + dt);
    if EndsAt(plan, Position(plan, p) + dt, q) {
      EndIsUnique(plan, Position(plan, p) + dt, q, Advance(plan, p, dt));
    }
  }

  lemma AdvanceWellFormed(plan: Plan, p: Progress, dt: real)
    requires Valid(plan) && WellFormed(plan, p) && dt >= 0.0
    ensures WellFormed(plan, Advance(plan, p, dt))
  {
    if plan.waypoints != [] && !p.completed { WalkEnds(plan, p.index, p.elapsed + dt); }
  }

  /** The command in force is the waypoint whose time interval holds the position, and no other's does. */
  lemma CommandHoldsPosition(plan: Plan, p: Progress, i: nat)
    requires Valid(plan) && Located(plan, p) && i < |plan.waypoints|
    ensures Prefix(plan, i) <= Position(plan, p) < Prefix(plan, i + 1) <==> i == p.index
    ensures CurrentCommand(plan, p) == Some(plan.waypoints[p.index])
  {
    if i < p.index { PrefixGrows(plan, i + 1, p.index); }
    if p.index < i { PrefixGrows(plan, p.index + 1, i); }
  }

  /** A plan that does not loop ends exactly when its total time has been spent. */
  lemma CompletesExactly(plan: Plan, p: Progress, dt: real)
    requires Valid(plan) && Located(plan, p) && dt >= 0.0
    ensures Advance(plan, p, dt).completed <==> !plan.loop && Position(plan, p) + dt >= Total(plan)
    ensures CurrentCommand(plan, Advance(plan, p, dt)).None? <==> Advance(plan, p, dt).completed
  {
    AdvanceClosedForm(plan, p, dt, Advance(plan, p, dt));
  }
}
