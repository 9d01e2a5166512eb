/** routes.py: `reroute_around_obstacle` and `create_route`, the loop that
    keeps replacing the first crossing segment by the shorter way around
    the obstacle's hull, then simplifies the route. */
module Planner {
  import opened Common
  import opened Polygons
  import opened Concavity
  import opened Routes
  import opened HullRepair

  /** The last step of `reroute_around_obstacle`: `route[:route.index(k)]
      + sub + route[route.index(l) + 1:]`. When `l` does not come right
      after `k`, `route.add_route_to_plot` is looked up on a list before
      the ValueError is built, and raises AttributeError. */
  function Splice(route: seq<Pid>, k: Pid, l: Pid, sub: seq<Pid>): Result<seq<Pid>>
  {
    if k !in route || l !in route then Err(ValueError)
    else if IndexOf(route, l) - IndexOf(route, k) != 1 then Err(AttributeError)
    else Ok(route[..IndexOf(route, k)] + sub + route[IndexOf(route, l) + 1..])
  }

  /** `reroute_around_obstacle` once the hull `create_convex_hull` built
      (or the error it raised) is known. */
  function RerouteWith(env: Env, k: Pid, l: Pid, hull: Result<seq<Pid>>, route: seq<Pid>): Result<seq<Pid>>
  {
    if hull.Err? then Err(hull.error)
    else
      match ExtractRoute(env, k, l, hull.value)
      case Err(e) => Err(e)
      case Ok(sub) => Splice(route, k, l, sub)
  }

  /** The route after `reroute_around_obstacle(point_k, point_l, obstacle,
      route)`, with the `force_maintain` flags afterwards. */
  function Reroute(env: Env, k: Pid, l: Pid, obstacle: seq<Pid>, route: seq<Pid>, forced: set<Pid>): (Result<seq<Pid>>, set<Pid>)
  {
    var o := ConvexHull(env, obstacle, PointList([k, l]), forced);
    (RerouteWith(env, k, l, o.hull, route), o.forced)
  }

  /** `reroute_around_obstacle` as written. */
  method RerouteAroundObstacle(env: Env, pointK: Pid, pointL: Pid, obstacle: seq<Pid>, route: seq<Pid>, forced: set<Pid>)
    returns (r: Result<seq<Pid>>, forcedAfter: set<Pid>)
    ensures (r, forcedAfter) == Reroute(env, pointK, pointL, obstacle, route, forced)
  {
    var ch, flags, hullInput := CreateConvexHull(env, obstacle, PointList([pointK, pointL]), forced);
    forcedAfter := flags;
    if ch.Err? {
      return Err(ch.error), forcedAfter;
    }
    var newSubRoute := ExtractRoute(env, pointK, pointL, ch.value);
    if newSubRoute.Err? {
      return Err(newSubRoute.error), forcedAfter;
    }
    if pointK !in route || pointL !in route {
      return Err(ValueError), forcedAfter;
    }
    var routePart1 := route[..IndexOf(route, pointK)];
    var routePart2 := route[IndexOf(route, pointL) + 1..];
    if IndexOf(route, pointL) - IndexOf(route, pointK) != 1 {
      return Err(AttributeError), forcedAfter;
    }
    r := Ok(routePart1 + newSubRoute.value + routePart2);
  }

  /** Splicing a sub-route from `k` to `l` in place of the segment `k, l`
      keeps every point before and after it, and so the route's ends. */
  lemma SpliceShape(route: seq<Pid>, k: Pid, l: Pid, sub: seq<Pid>)
    requires |sub| >= 2 && sub[0] == k && sub[|sub| - 1] == l
    ensures var r := Splice(route, k, l, sub);
      r.Ok? ==> (
        k in route && l in route && IndexOf(route, l) == IndexOf(route, k) + 1 &&
        r.value == route[..IndexOf(route, k)] + sub + route[IndexOf(route, k) + 2..] &&
        |r.value| == |route| + |sub| - 2 &&
        r.value[0] == route[0] && r.value[|r.value| - 1] == route[|route| - 1])
  {
    var r := Splice(route, k, l, sub);
    if r.Ok? {
      var i := IndexOf(route, k);
      var v := route[..i] + sub + route[i + 2..];
      assert r.value == v;
      if i == 0 {
        assert v[0] == sub[0];
      } else {
        assert v[0] == route[..i][0];
      }
      if i + 2 == |route| {
        assert v[|v| - 1] == sub[|sub| - 1];
      } else {
        assert v[|v| - 1] == route[i + 2..][|route| - i - 3];
      }
    }
  }

  /** A successful reroute splices in the sub-route extracted from the
      hull, which runs from `point_k` to `point_l`. */
  lemma RerouteSplices(env: Env, k: Pid, l: Pid, hull: Result<seq<Pid>>, route: seq<Pid>)
    ensures var r := RerouteWith(env, k, l, hull, route);
      r.Ok? ==> (
        hull.Ok? && ExtractRoute(env, k, l, hull.value).Ok? &&
        var sub := ExtractRoute(env, k, l, hull.value).value;
        |sub| >= 2 && sub[0] == k && sub[|sub| - 1] == l && r == Splice(route, k, l, sub))
  {
    var r := RerouteWith(env, k, l, hull, route);
    if r.Ok? {
      ExtractRouteErrors(env, k, l, hull.value);
      ExtractRouteIsArc(env, k, l, hull.value);
    }
  }

  /** The `while obstacle_on_route` loop from a route and an iteration
      count, with `find` standing for `line_crosses_any_polygon` and
      `step` for `reroute_around_obstacle` at the crossing found: reroute
      around the first crossing, until none is left. The check on
      `iterations` runs after every pass, the last clean one included; on
      that pass `point_k` is the integer 0 that `line_crosses_any_polygon`
      returns, and calling a plot method on it raises AttributeError
      instead of TimeoutError. */
  function LoopFrom(find: seq<Pid> -> Option<Crossing>,
                    step: (Crossing, seq<Pid>, set<Pid>) -> (Result<seq<Pid>>, set<Pid>),
                    route: seq<Pid>, forced: set<Pid>, iterations: nat): (Result<seq<Pid>>, set<Pid>)
    requires iterations <= ITERATION_LIMIT
    decreases ITERATION_LIMIT - iterations
  {
    match find(route)
    case None => (if iterations + 1 > ITERATION_LIMIT then Err(AttributeError) else Ok(route), forced)
    case Some(c) =>
      var (r, f) := step(c, route, forced);
      if r.Err? then (r, f)
      else if iterations + 1 > ITERATION_LIMIT then (Err(TimeoutError), f)
      else LoopFrom(find, step, r.value, f, iterations + 1)
  }

  /** The hull `create_convex_hull` builds around the obstacle of a
      crossing, from its two points. */
  function HullFor(env: Env, polys: seq<seq<Pid>>): (Crossing, set<Pid>) -> HullOutcome
  {
    (c: Crossing, forced: set<Pid>) =>
      if c.obstacle < |polys| then ConvexHull(env, polys[c.obstacle], PointList([c.k, c.l]), forced)
      else HullOutcome(Err(IndexError), forced, [])
  }

  /** `reroute_around_obstacle` at a crossing, given how hulls are built. */
  function StepWith(env: Env, hullFor: (Crossing, set<Pid>) -> HullOutcome): (Crossing, seq<Pid>, set<Pid>) -> (Result<seq<Pid>>, set<Pid>)
  {
    (c: Crossing, route: seq<Pid>, forced: set<Pid>) =>
      (RerouteWith(env, c.k, c.l, hullFor(c, forced).hull, route), hullFor(c, forced).forced)
  }

  /** `reroute_around_obstacle` at a crossing, as a function value. */
  function RerouteStep(env: Env, polys: seq<seq<Pid>>): (Crossing, seq<Pid>, set<Pid>) -> (Result<seq<Pid>>, set<Pid>)
  {
    StepWith(env, HullFor(env, polys))
  }

  /** One rerouting pass of `create_route`. */
  method RerouteAt(env: Env, polys: seq<seq<Pid>>, c: Crossing, route: seq<Pid>, forced: set<Pid>)
    returns (r: Result<seq<Pid>>, forcedAfter: set<Pid>)
    requires c.obstacle < |polys|
    ensures (r, forcedAfter) == RerouteStep(env, polys)(c, route, forced)
  {
    r, forcedAfter := RerouteAroundObstacle(env, c.k, c.l, polys[c.obstacle], route, forced);
    assert HullFor(env, polys)(c, forced) == ConvexHull(env, polys[c.obstacle], PointList([c.k, c.l]), forced);
  }

  /** The loop of `create_route` from `[point_a, point_b]`. */
  function RouteLoop(env: Env, polys: seq<seq<Pid>>, a: Pid, b: Pid, forced: set<Pid>): (Result<seq<Pid>>, set<Pid>)
    requires AllRings(polys)
  {
    LoopFrom((route: seq<Pid>) => FirstCrossing(env, polys, route, 0), RerouteStep(env, polys), [a, b], forced, 0)
  }

  /** `create_route(point_a, point_b, polygons_to_avoid)`: the points of
      the returned Route, and the flags afterwards. */
  function CreateRouteSpec(env: Env, a: Pid, b: Pid, polys: seq<seq<Pid>>, forced: set<Pid>): (Result<seq<Pid>>, set<Pid>)
    requires AllRings(polys)
  {
    var (r, f) := RouteLoop(env, polys, a, b, forced);
    if r.Err? then (r, f) else (MaximizeConcavity(env, r.value, polys), f)
  }

  /** One unfolding of `LoopFrom` at a crossing whose reroute succeeded
      within the iteration bound. */
  lemma LoopFromStep(find: seq<Pid> -> Option<Crossing>,
                     step: (Crossing, seq<Pid>, set<Pid>) -> (Result<seq<Pid>>, set<Pid>),
                     route: seq<Pid>, forced: set<Pid>, iterations: nat, c: Crossing)
    requires iterations + 1 <= ITERATION_LIMIT && find(route) == Some(c) && step(c, route, forced).0.Ok?
    ensures LoopFrom(find, step, route, forced, iterations) ==
            LoopFrom(find, step, step(c, route, forced).0.value, step(c, route, forced).1, iterations + 1)
  {
  }

  /** The `while obstacle_on_route` loop of `create_route` as written. */
  method RerouteUntilClear(env: Env, pointA: Pid, pointB: Pid, polygonsToAvoid: seq<seq<Pid>>, forced: set<Pid>)
    returns (r: Result<seq<Pid>>, forcedAfter: set<Pid>)
    requires AllRings(polygonsToAvoid)
    ensures (r, forcedAfter) == RouteLoop(env, polygonsToAvoid, pointA, pointB, forced)
  {
    ghost var find := (route: seq<Pid>) => FirstCrossing(env, polygonsToAvoid, route, 0);
    ghost var step := RerouteStep(env, polygonsToAvoid);
    ghost var goal := LoopFrom(find, step, [pointA, pointB], forced, 0);
    assert goal == RouteLoop(env, polygonsToAvoid, pointA, pointB, forced);
    var route := [pointA, pointB];
    forcedAfter := forced;
    var iterations := 0;
    while true
      invariant iterations <= ITERATION_LIMIT
      invariant LoopFrom(find, step, route, forcedAfter, iterations) == goal
      decreases ITERATION_LIMIT - iterations
    {
      var crossing := LineCrossesAnyPolygon(env, polygonsToAvoid, route);
      assert crossing == find(route);
      if crossing.None? {
        if iterations + 1 > ITERATION_LIMIT {
          return Err(AttributeError), forcedAfter;
        }
        return Ok(route), forcedAfter;
      }
      var c := crossing.value;
      var rerouted, flags := RerouteAt(env, polygonsToAvoid, c, route, forcedAfter);
      assert (rerouted, flags) == step(c, route, forcedAfter);
      if rerouted.Err? {
        return Err(rerouted.error), flags;
      }
      if iterations + 1 > ITERATION_LIMIT {
        return Err(TimeoutError), flags;
      }
      LoopFromStep(find, step, route, forcedAfter, iterations, c);
      route, forcedAfter := rerouted.value, flags;
      iterations := iterations + 1;
    }
  }

  /** `create_route` as written. */
  method CreateRoute(env: Env, pointA: Pid, pointB: Pid, polygonsToAvoid: seq<seq<Pid>>, forced: set<Pid>)
    returns (r: Result<Route>, forcedAfter: set<Pid>)
    requires AllRings(polygonsToAvoid)
    ensures var (spec, f) := CreateRouteSpec(env, pointA, pointB, polygonsToAvoid, forced);
      forcedAfter == f && r.Ok? == spec.Ok? &&
      (r.Err? ==> r.error == spec.error) &&
      (r.Ok? ==> (fresh(r.value) && r.value.points == spec.value &&
        r.value.length == Routes.RouteLength(env, r.value.points)))
  {
    var route;
    route, forcedAfter := RerouteUntilClear(env, pointA, pointB, polygonsToAvoid, forced);
    if route.Err? {
      return Err(route.error), forcedAfter;
    }
    var shorterRoute := MaximizeConcavityLoop(env, route.value, polygonsToAvoid);
    if shorterRoute.Err? {
      return Err(shorterRoute.error), forcedAfter;
    }
    var created := new Route(env, shorterRoute.value, None);
    r := Ok(created);
  }

  /** A step whose successful result keeps the ends of a route. */
  ghost predicate StepKeepsEnds(step: (Crossing, seq<Pid>, set<Pid>) -> (Result<seq<Pid>>, set<Pid>))
  {
    forall c, route, f :: |route| >= 2 && step(c, route, f).0.Ok? ==>
      |step(c, route, f).0.value| >= 2 &&
      step(c, route, f).0.value[0] == route[0] &&
      step(c, route, f).0.value[|step(c, route, f).0.value| - 1] == route[|route| - 1]
  }

  lemma {:induction false} LoopFromEnds(find: seq<Pid> -> Option<Crossing>,
                                        step: (Crossing, seq<Pid>, set<Pid>) -> (Result<seq<Pid>>, set<Pid>),
                                        route: seq<Pid>, forced: set<Pid>, iterations: nat, a: Pid, b: Pid)
    requires iterations <= ITERATION_LIMIT && StepKeepsEnds(step)
    requires |route| >= 2 && route[0] == a && route[|route| - 1] == b
    ensures var r := LoopFrom(find, step, route, forced, iterations).0;
      r.Ok? ==> |r.value| >= 2 && r.value[0] == a && r.value[|r.value| - 1] == b && find(r.value).None?
    decreases ITERATION_LIMIT - iterations
  {
    match find(route)
    case None =>
    case Some(c) =>
      var (r, f) := step(c, route, forced);
      if r.Ok? && iterations + 1 <= ITERATION_LIMIT {
        LoopFromEnds(find, step, r.value, f, iterations + 1, a, b);
      }
  }

  lemma StepWithKeepsEnds(env: Env, hullFor: (Crossing, set<Pid>) -> HullOutcome)
    ensures StepKeepsEnds(StepWith(env, hullFor))
  {
    var step := StepWith(env, hullFor);
    forall c, route, f | |route| >= 2 && step(c, route, f).0.Ok?
      ensures |step(c, route, f).0.value| >= 2 &&
        step(c, route, f).0.value[0] == route[0] &&
        step(c, route, f).0.value[|step(c, route, f).0.value| - 1] == route[|route| - 1]
    {
      StepWithApplies(env, hullFor, c, route, f);
      RerouteKeepsEnds(env, c.k, c.l, hullFor(c, f).hull, route);
    }
  }

  /** Applying the step reroutes around the hull `hullFor` gives. */
  lemma StepWithApplies(env: Env, hullFor: (Crossing, set<Pid>) -> HullOutcome, c: Crossing, route: seq<Pid>, f: set<Pid>)
    ensures StepWith(env, hullFor)(c, route, f) == (RerouteWith(env, c.k, c.l, hullFor(c, f).hull, route), hullFor(c, f).forced)
  {
  }

  /** A successful reroute keeps the route's two ends. */
  lemma RerouteKeepsEnds(env: Env, k: Pid, l: Pid, hull: Result<seq<Pid>>, route: seq<Pid>)
    requires |route| >= 2
    ensures var r := RerouteWith(env, k, l, hull, route);
      r.Ok? ==> |r.value| >= 2 && r.value[0] == route[0] && r.value[|r.value| - 1] == route[|route| - 1]
  {
    var r := RerouteWith(env, k, l, hull, route);
    if r.Ok? {
      RerouteSplices(env, k, l, hull, route);
      SpliceShape(route, k, l, ExtractRoute(env, k, l, hull.value).value);
    }
  }

  /** A route `create_route` returns runs from `point_a` to `point_b`, and
      none of its segments crosses any of the polygons to avoid. */
  lemma CreateRouteSpecProps(env: Env, a: Pid, b: Pid, polys: seq<seq<Pid>>, forced: set<Pid>)
    requires AllRings(polys)
    ensures var r := CreateRouteSpec(env, a, b, polys, forced).0;
      r.Ok? ==> |r.value| >= 2 && r.value[0] == a && r.value[|r.value| - 1] == b &&
                forall o: nat, t: nat :: !SegmentCrosses(env, polys, r.value, o, t)
  {
    RouteLoopClear(env, a, b, polys, forced);
    var route := RouteLoop(env, polys, a, b, forced).0;
    if route.Ok? {
      var p := route.value;
      MaximizeConcavityEnds(env, p, polys);
      MaximizeConcavityKeepsClear(env, p, polys);
      var r := MaximizeConcavity(env, p, polys);
      assert CreateRouteSpec(env, a, b, polys, forced).0 == r;
      if r.Ok? {
        ClearNoSegmentCrosses(env, polys, r.value);
      }
    }
  }

  /** The rerouting loop ends, when it succeeds, with a route from `a` to
      `b` whose every hop is unobstructed. */
  lemma RouteLoopClear(env: Env, a: Pid, b: Pid, polys: seq<seq<Pid>>, forced: set<Pid>)
    requires AllRings(polys)
    ensures var r := RouteLoop(env, polys, a, b, forced).0;
      r.Ok? ==> |r.value| >= 2 && r.value[0] == a && r.value[|r.value| - 1] == b &&
                forall k :: 0 <= k < |r.value| - 1 ==> !Obstructed(env, polys, r.value[k], r.value[k + 1])
  {
    var find := (route: seq<Pid>) => FirstCrossing(env, polys, route, 0);
    StepWithKeepsEnds(env, HullFor(env, polys));
    LoopFromEnds(find, RerouteStep(env, polys), [a, b], forced, 0, a, b);
    var route := RouteLoop(env, polys, a, b, forced).0;
    if route.Ok? {
      assert FirstCrossing(env, polys, route.value, 0).None?;
      NoCrossingClear(env, polys, route.value);
    }
  }

  /** A route with no obstructed hop has no segment crossing a polygon. */
  lemma ClearNoSegmentCrosses(env: Env, polys: seq<seq<Pid>>, q: seq<Pid>)
    requires AllRings(polys)
    requires forall k :: 0 <= k < |q| - 1 ==> !Obstructed(env, polys, q[k], q[k + 1])
    ensures forall o: nat, t: nat :: !SegmentCrosses(env, polys, q, o, t)
  {
    forall o: nat, t: nat ensures !SegmentCrosses(env, polys, q, o, t) {
      if SegmentCrosses(env, polys, q, o, t) {
        assert Obstructed(env, polys, q[t], q[t + 1]);
      }
    }
  }

  lemma NoCrossingClear(env: Env, polys: seq<seq<Pid>>, p: seq<Pid>)
    requires AllRings(polys) && FirstCrossing(env, polys, p, 0).None?
    ensures forall k :: 0 <= k < |p| - 1 ==> !Obstructed(env, polys, p[k], p[k + 1])
  {
    FirstCrossingSpec(env, polys, p, 0);
    forall k | 0 <= k < |p| - 1
      ensures !Obstructed(env, polys, p[k], p[k + 1])
    {
      forall o | 0 <= o < |polys| ensures !Crosses(env, polys[o], p[k], p[k + 1]) {
        assert !SegmentCrosses(env, polys, p, o, k);
      }
    }
  }

  /** An unobstructed direct line is kept as it is: the route is just the
      two points, and no flag changes. */
  lemma DirectRoute(env: Env, a: Pid, b: Pid, polys: seq<seq<Pid>>, forced: set<Pid>)
    requires AllRings(polys)
    requires !Obstructed(env, polys, a, b)
    ensures CreateRouteSpec(env, a, b, polys, forced) == (Ok([a, b]), forced)
  {
    var route := [a, b];
    FirstCrossingSpec(env, polys, route, 0);
    forall q: nat, t: nat ensures !SegmentCrosses(env, polys, route, q, t) {
      if q < |polys| && t == 0 {
        assert !Crosses(env, polys[q], a, b);
      }
    }
    assert FirstCrossing(env, polys, route, 0).None?;
    DirectHop(env, route, polys);
  }
}
