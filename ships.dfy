/** ships.py: a merchant ship sailing a planned route through the area of
    interest, the damage UAV attacks do to it and the retreat that damage
    sets off. Route points are point ids whose coordinates the `Env`
    gives; the ship's own `location` point is mutated in place and has
    the identity `locationId`. */
module Ships {
  import opened Common
  import Polygons
  import Geometry
  import Routes
  import Planner

  const SHIP_HEALTH: int := 100
  /** `MAX_LAT`: ships enter on this latitude. */
  const MAX_LAT: real := 150.0
  /** The extra damage every level of `damage_penalty` adds. */
  const PENALTY_DAMAGE: int := 10

  /** The `model` literal of the constructor. */
  datatype ShipModel = Cargo | Bulk | Container

  datatype Particulars = Particulars(speed: real, load: real, rcs: real)

  /** `initiate_parameters`: the average speed, load and radar cross
      section of each model. */
  function ModelParticulars(m: ShipModel): (p: Particulars)
    ensures p.speed > 0.0 && p.load > 0.0 && p.rcs > 0.0
  {
    match m
    case Cargo => Particulars(0.5, 1.0, 1.0)
    case Bulk => Particulars(0.7, 1.0, 1.25)
    case Container => Particulars(0.4, 1.0, 1.5)
  }

  // ------------------------------------------------------------------
  // Damage

  /** What `receive_damage` does after lowering the health: nothing,
      start a retreat, or sink the ship. */
  datatype Reaction = Unaffected | Retreat | Sink

  datatype Damage = Damage(health: int, penalty: int, ctl: bool, reaction: Reaction)

  /** The health bands of `receive_damage`: the hit costs `damage` plus 10
      per penalty level; 81 and above changes nothing; 71 to 80 only
      retreats; 47 to 70 sets penalty 1; 21 to 46 penalty 2; 9 to 20 also
      sets CTL; below 9 the ship sinks and no flag changes. */
  function ApplyDamage(health: int, penalty: int, ctl: bool, damage: int): (o: Damage)
    ensures o.health == health - (damage + PENALTY_DAMAGE * penalty)
    ensures o.reaction == Unaffected <==> o.health >= 81
    ensures o.reaction == Sink <==> o.health < 9
    ensures (o.health >= 71 || o.health < 9) ==> o.penalty == penalty && o.ctl == ctl
    ensures 47 <= o.health < 71 ==> o.penalty == 1 && o.ctl == ctl
    ensures 21 <= o.health < 47 ==> o.penalty == 2 && o.ctl == ctl
    ensures 9 <= o.health < 21 ==> o.penalty == 2 && o.ctl
  {
    var h := health - (damage + PENALTY_DAMAGE * penalty);
    if h >= 81 then Damage(h, penalty, ctl, Unaffected)
    else if h >= 71 then Damage(h, penalty, ctl, Retreat)
    else if h >= 47 then Damage(h, 1, ctl, Retreat)
    else if h >= 21 then Damage(h, 2, ctl, Retreat)
    else if h >= 9 then Damage(h, 2, true, Retreat)
    else Damage(h, penalty, ctl, Sink)
  }

  /** The penalty level the health of an afloat ship implies. */
  function Band(health: int): int
  {
    if health >= 71 then 0 else if health >= 47 then 1 else 2
  }

  /** The damage state of an afloat ship: the penalty matches the health
      band and the ship is a constructive total loss exactly below 21. */
  predicate DamageConsistent(health: int, penalty: int, ctl: bool)
  {
    penalty == Band(health) && (ctl <==> health < 21)
  }

  /** Starting from full health with no penalty, and taking non-negative
      damage, the ship stays consistent while afloat; the penalty and the
      CTL flag never go back. */
  lemma DamageKeepsConsistent(health: int, penalty: int, ctl: bool, damage: int)
    requires DamageConsistent(health, penalty, ctl) && damage >= 0 && penalty >= 0
    ensures var o := ApplyDamage(health, penalty, ctl, damage);
      o.health <= health &&
      (o.reaction != Sink ==> DamageConsistent(o.health, o.penalty, o.ctl)) &&
      o.penalty >= penalty && (ctl ==> o.ctl)
  {
    var o := ApplyDamage(health, penalty, ctl, damage);
    assert PENALTY_DAMAGE * penalty >= 0;
  }

  /** A ship at full health is consistent; penalty 2 makes every later hit
      cost 20 more. */
  lemma PenaltyRaisesDamage(health: int, damage: int)
    requires DamageConsistent(health, 2, health < 21)
    ensures ApplyDamage(health, 2, health < 21, damage).health == health - damage - 20
    ensures DamageConsistent(SHIP_HEALTH, 0, false)
  {
  }

  // ------------------------------------------------------------------
  // Sailing

  /** The part of the ship's state `move` works on. */
  datatype Voyage = Voyage(location: Coord, past: seq<Pid>, next: Pid, remaining: seq<Pid>, arrived: bool)

  /** Where `move` stops: the voyage at that moment and the exception, if
      one was raised. */
  datatype Sailed = Sailed(voyage: Voyage, error: Option<Error>)

  /** One pass of the loop of `move`: travel `min(d, distance to next)`;
      on reaching the next point take its coordinates and move on to the
      following one, or arrive at the end; otherwise move that fraction of
      the way towards it. Returns the voyage and the distance left. */
  function SailStep(env: Env, v: Voyage, d: real): (Voyage, real)
    requires d > 0.0
  {
    var target := env.loc(v.next);
    var dn := env.dist(v.location, target);
    var t := Geometry.Min(d, dn);
    if dn <= t then
      var at := v.(past := v.past + [v.next], location := target);
      if |v.remaining| > 0 then (at.(next := v.remaining[0], remaining := v.remaining[1..]), d - t)
      else (at.(arrived := true), d - t)
    else
      var f := t / dn;
      (v.(location := Coord(v.location.x * (1.0 - f) + target.x * f, v.location.y * (1.0 - f) + target.y * f)), d - t)
  }

  /** The loop of `move` from its `iterations`-th pass: it runs while
      distance is left and the ship has not arrived, raises `TimeoutError`
      on the pass after `ITERATION_LIMIT`, and `ValueError` when asked for
      the direction from the location to itself. */
  function Sail(env: Env, locationId: Pid, v: Voyage, d: real, iterations: nat): Sailed
    requires iterations <= ITERATION_LIMIT
    decreases ITERATION_LIMIT - iterations
  {
    if !(d > 0.0 && !v.arrived) then Sailed(v, None)
    else if iterations + 1 > ITERATION_LIMIT then Sailed(v, Some(TimeoutError))
    else if v.next == locationId then Sailed(v, Some(ValueError))
    else
      var (w, d') := SailStep(env, v, d);
      Sail(env, locationId, w, d', iterations + 1)
  }

  lemma FractionOfLonger(a: real, b: real)
    requires 0.0 < a < b
    ensures 0.0 < a / b < 1.0
  {
    calc {
      a / b;
    < { assert a < b; }
      b / b;
    ==
      1.0;
    }
  }

  /** The route still ahead together with the route behind. */
  function Trail(v: Voyage): seq<Pid>
  {
    v.past + [v.next] + v.remaining
  }

  /** A pass leaves between none and all of the distance: it either reaches
      the next point, or uses up the distance moving a fraction `f` in
      (0, 1) of the way along the segment towards it. */
  lemma SailStepProgress(env: Env, v: Voyage, d: real)
    requires EnvOk(env) && d > 0.0 && !v.arrived
    ensures var (w, d') := SailStep(env, v, d);
      0.0 <= d' <= d &&
      (w.location == env.loc(v.next) || d' == 0.0) &&
      (w.location != env.loc(v.next) ==>
        w.past == v.past && w.next == v.next && w.remaining == v.remaining && !w.arrived &&
        Geometry.IsBetweenPoints(v.location, env.loc(v.next), w.location))
  {
    var target := env.loc(v.next);
    var dn := env.dist(v.location, target);
    assert dn >= 0.0;
    var t := Geometry.Min(d, dn);
    if !(dn <= t) {
      var f := t / dn;
      assert t == d && 0.0 < d < dn;
      FractionOfLonger(d, dn);
      var w := SailStep(env, v, d).0;
      assert w.location == Coord(v.location.x + f * (target.x - v.location.x), v.location.y + f * (target.y - v.location.y));
      Geometry.FractionIsBetween(v.location, target, f);
    }
  }

  /** The loop consumes the route in order: while sailing the points behind
      and ahead make up the same route; on arrival every point is behind
      and the ship lies on the last one. */
  lemma {:induction false} SailFollowsRoute(env: Env, locationId: Pid, v: Voyage, d: real, iterations: nat)
    requires iterations <= ITERATION_LIMIT && !v.arrived
    ensures var w := Sail(env, locationId, v, d, iterations).voyage;
      (!w.arrived ==> Trail(w) == Trail(v)) &&
      (w.arrived ==> w.past == Trail(v) && w.remaining == [] && w.location == env.loc(w.next))
    decreases ITERATION_LIMIT - iterations
  {
    if d > 0.0 && iterations + 1 <= ITERATION_LIMIT && v.next != locationId {
      var (w, d') := SailStep(env, v, d);
      if |v.remaining| > 0 && env.dist(v.location, env.loc(v.next)) <= Geometry.Min(d, env.dist(v.location, env.loc(v.next))) {
        assert Trail(w) == Trail(v) by {
          assert v.remaining == [v.remaining[0]] + v.remaining[1..];
        }
      }
      if !w.arrived {
        SailFollowsRoute(env, locationId, w, d', iterations + 1);
      } else {
        assert Sail(env, locationId, v, d, iterations) == Sail(env, locationId, w, d', iterations + 1);
      }
    }
  }

  /** `move` never times out on a route with fewer points left than the
      iteration limit: every pass either reaches a point or uses up the
      distance. */
  lemma {:induction false} ShortRouteNoTimeout(env: Env, locationId: Pid, v: Voyage, d: real, iterations: nat)
    requires EnvOk(env) && d >= 0.0
    requires iterations + |v.remaining| + 1 <= ITERATION_LIMIT
    ensures Sail(env, locationId, v, d, iterations).error != Some(TimeoutError)
    decreases ITERATION_LIMIT - iterations
  {
    if d > 0.0 && !v.arrived && v.next != locationId {
      var (w, d') := SailStep(env, v, d);
      SailStepProgress(env, v, d);
      if d' == 0.0 {
        assert Sail(env, locationId, w, d', iterations + 1).error == None;
      } else {
        assert |w.remaining| + 1 == |v.remaining| || w.arrived;
        if w.arrived {
          assert Sail(env, locationId, w, d', iterations + 1).error == None;
        } else {
          ShortRouteNoTimeout(env, locationId, w, d', iterations + 1);
        }
      }
    }
  }

  // ------------------------------------------------------------------
  // Trailing UAVs

  /** `for uav in self.trailing_UAVs: uav.stop_trailing()` as written in
      `reached_end_point`: each UAV removes itself from the very list
      being iterated, so the iteration index skips the UAV that moves into
      the freed slot. */
  function StopTrailingAsWritten(uavs: seq<nat>, i: nat): seq<nat>
    decreases |uavs| - i
  {
    if i >= |uavs| then uavs
    else StopTrailingAsWritten(RemoveFirst(uavs, uavs[i]), i + 1)
  }

  /** `x` heads `s` and occurs nowhere else in it. */
  predicate OnlyAtFront(s: seq<nat>, x: nat)
  {
    |s| > 0 && s[0] == x && forall k :: 1 <= k < |s| ==> s[k] != x
  }

  /** Removing a later element keeps `x` alone at the front. */
  lemma RemoveLaterKeepsFront(s: seq<nat>, p: nat, x: nat)
    requires OnlyAtFront(s, x) && p in s && p != x
    ensures OnlyAtFront(RemoveFirst(s, p), x)
  {
    var j := IndexOf(s, p);
    var r := s[..j] + s[j + 1..];
    assert RemoveFirst(s, p) == r;
    assert j >= 1;
    forall k | 1 <= k < |r|
      ensures r[k] != x
    {
      if k < j {
        assert r[k] == s[k];
      } else {
        assert r[k] == s[k + 1];
      }
    }
  }

  lemma {:induction false} StopTrailingKeepsFirst(uavs: seq<nat>, i: nat, x: nat)
    requires i >= 1 && OnlyAtFront(uavs, x)
    ensures OnlyAtFront(StopTrailingAsWritten(uavs, i), x)
    decreases |uavs| - i
  {
    if i < |uavs| {
      var next := RemoveFirst(uavs, uavs[i]);
      assert StopTrailingAsWritten(uavs, i) == StopTrailingAsWritten(next, i + 1);
      RemoveLaterKeepsFront(uavs, uavs[i], x);
      StopTrailingKeepsFirst(next, i + 1, x);
    } else {
      assert StopTrailingAsWritten(uavs, i) == uavs;
    }
  }

  /** With two or more distinct UAVs trailing, the loop as written leaves
      the second one trailing a ship that has already arrived. */
  lemma StopTrailingAsWrittenLeavesOne(uavs: seq<nat>)
    requires |uavs| >= 2 && forall k :: 2 <= k < |uavs| ==> uavs[k] != uavs[1]
    ensures uavs[1] in StopTrailingAsWritten(uavs, 0)
  {
    var rest := RemoveFirst(uavs, uavs[0]);
    assert IndexOf(uavs, uavs[0]) == 0;
    assert rest == uavs[1..];
    assert OnlyAtFront(rest, uavs[1]);
    StopTrailingKeepsFirst(rest, 1, uavs[1]);
    assert StopTrailingAsWritten(uavs, 0) == StopTrailingAsWritten(rest, 1);
  }

  /** With at most one UAV trailing, as in every state `observe_area`
      allows, the loop as written stops them all. */
  lemma StopTrailingAsWrittenSingle(uavs: seq<nat>)
    requires |uavs| <= 1
    ensures StopTrailingAsWritten(uavs, 0) == []
  {
    if |uavs| == 1 {
      assert IndexOf(uavs, uavs[0]) == 0;
      assert RemoveFirst(uavs, uavs[0]) == [];
    }
  }

  // ------------------------------------------------------------------
  // The ship

  /** What the planner promises of a route from `from` to `dest`: it
      starts and ends there and no segment of it crosses a polygon. */
  ghost predicate Planned(env: Env, polygons: seq<seq<Pid>>, from: Pid, dest: Pid, ps: seq<Pid>)
    requires Polygons.AllRings(polygons)
  {
    |ps| >= 2 && ps[0] == from && ps[|ps| - 1] == dest &&
    forall o: nat, t: nat :: !Routes.SegmentCrosses(env, polygons, ps, o, t)
  }

  /** A call of `create_route` from `from` to `dest`: the route it plans
      and its length, and the force-maintain flags it leaves on the
      polygons' points. */
  method PlanRoute(env: Env, polygons: seq<seq<Pid>>, forced: set<Pid>, from: Pid, dest: Pid)
    returns (r: Result<Routes.Route>, forcedAfter: set<Pid>)
    requires Polygons.AllRings(polygons)
    ensures r.Ok? ==> (fresh(r.value) && Planned(env, polygons, from, dest, r.value.points) &&
      r.value.length == Routes.RouteLength(env, r.value.points))
  {
    r, forcedAfter := Planner.CreateRoute(env, from, dest, polygons, forced);
    Planner.CreateRouteSpecProps(env, from, dest, polygons, forced);
  }

  /** The loop of `move` on the voyage it works on; see `Sail`. */
  method SailLoop(env: Env, locationId: Pid, start: Voyage, distance: real) returns (v: Voyage, error: Option<Error>)
    ensures Sailed(v, error) == Sail(env, locationId, start, distance, 0)
  {
    v := start;
    var d := distance;
    var iterations := 0;
    while d > 0.0 && !v.arrived
      invariant 0 <= iterations <= ITERATION_LIMIT
      invariant Sail(env, locationId, v, d, iterations) == Sail(env, locationId, start, distance, 0)
      decreases ITERATION_LIMIT - iterations
    {
      if iterations + 1 > ITERATION_LIMIT {
        return v, Some(TimeoutError);
      }
      if v.next == locationId {
        return v, Some(ValueError);
      }
      ghost var before, d0 := v, d;
      iterations := iterations + 1;
      var target := env.loc(v.next);
      var toNext := env.dist(v.location, target);
      var travelled := Geometry.Min(d, toNext);
      d := d - travelled;
      if toNext <= travelled {
        v := v.(past := v.past + [v.next], location := target);
        if |v.remaining| > 0 {
          v := v.(next := v.remaining[0], remaining := v.remaining[1..]);
        } else {
          v := v.(arrived := true);
        }
      } else {
        var part := travelled / toNext;
        v := v.(location := Coord(v.location.x * (1.0 - part) + target.x * part, v.location.y * (1.0 - part) + target.y * part));
      }
      assert SailStep(env, before, d0).1 == d;
      assert SailStep(env, before, d0).0 == v;
    }
    error := None;
  }

  /** The module-level `ship_id`. */
  class ShipCounter {
    var next: nat

    constructor()
      ensures next == 0
    {
      next := 0;
    }
  }

  class Ship {
    const shipId: nat
    /** The identity of the ship's `location` point. */
    const locationId: Pid
    const model: ShipModel
    const speed: real
    var location: Option<Coord>
    var entryPoint: Option<Pid>
    var nextPoint: Option<Pid>
    var remainingPoints: seq<Pid>
    var pastPoints: seq<Pid>
    var destination: Option<Pid>
    var route: Option<Routes.Route>
    var healthPoints: int
    /** The ids of the UAVs trailing the ship. */
    var trailingUAVs: seq<nat>
    var retreating: bool
    var ctl: bool
    var sunk: bool
    var reachedDestination: bool
    var damagePenalty: int

    /** The damage state of an afloat ship. */
    predicate Consistent()
      reads this
    {
      damagePenalty >= 0 && DamageConsistent(healthPoints, damagePenalty, ctl)
    }

    /** `Ship(model, world)`: takes the next ship id, full health, no
        position yet. */
    constructor(counter: ShipCounter, model: ShipModel, locationId: Pid)
      modifies counter
      ensures shipId == old(counter.next) && counter.next == old(counter.next) + 1
      ensures this.model == model && this.locationId == locationId && speed == ModelParticulars(model).speed
      ensures location.None? && entryPoint.None? && nextPoint.None? && destination.None? && route.None?
      ensures pastPoints == [] && remainingPoints == [] && trailingUAVs == []
      ensures healthPoints == SHIP_HEALTH && damagePenalty == 0
      ensures !retreating && !ctl && !sunk && !reachedDestination
      ensures Consistent()
    {
      shipId := counter.next;
      this.locationId := locationId;
      this.model := model;
      speed := ModelParticulars(model).speed;
      location, entryPoint, nextPoint, destination, route := None, None, None, None, None;
      pastPoints, remainingPoints, trailingUAVs := [], [], [];
      healthPoints := SHIP_HEALTH;
      damagePenalty := 0;
      retreating, ctl, sunk, reachedDestination := false, false, false, false;
      new;
      counter.next := counter.next + 1;
    }

    /** `generate_ship_entry_point`: the ship enters on the top latitude at
        the drawn longitude; its location is a copy of the entry point. */
    method GenerateShipEntryPoint(longitude: real, entryId: Pid)
      modifies this
      ensures entryPoint == Some(entryId) && location == Some(Coord(MAX_LAT, longitude))
      ensures pastPoints == old(pastPoints) && nextPoint == old(nextPoint) && remainingPoints == old(remainingPoints)
      ensures healthPoints == old(healthPoints) && damagePenalty == old(damagePenalty) && ctl == old(ctl)
      ensures retreating == old(retreating) && sunk == old(sunk) && reachedDestination == old(reachedDestination)
      ensures destination == old(destination) && route == old(route) && trailingUAVs == old(trailingUAVs)
    {
      entryPoint := Some(entryId);
      location := Some(Coord(MAX_LAT, longitude));
    }

    /** `generate_route`: a new destination, when given, replaces the old
        one; the route from the ship's location to the destination is
        planned around the polygons (deep copies, so the planner's
        force-maintain flags do not outlive the call) and split into the
        point behind, the next point and the points ahead. Without a
        location or a destination the planner raises `AttributeError`;
        its own exceptions pass through and leave the route as it was. */
    method GenerateRoute(env: Env, polygons: seq<seq<Pid>>, forced: set<Pid>, newDestination: Option<Pid>)
      returns (r: Result<()>)
      requires Polygons.AllRings(polygons)
      modifies this
      ensures destination == if newDestination.Some? then newDestination else old(destination)
      ensures (old(location).None? || destination.None?) ==> r == Err(AttributeError)
      ensures r.Err? ==> (pastPoints == old(pastPoints) && nextPoint == old(nextPoint) &&
        remainingPoints == old(remainingPoints) && route == old(route))
      ensures r.Ok? ==> (old(location).Some? && destination.Some? && route.Some? && fresh(route.value) &&
        Planned(Placed(env, locationId, old(location).value), polygons, locationId, destination.value, route.value.points) &&
        pastPoints == old(pastPoints) + [locationId] && nextPoint == Some(route.value.points[1]) &&
        remainingPoints == route.value.points[2..])
      ensures location == old(location) && healthPoints == old(healthPoints) && damagePenalty == old(damagePenalty)
      ensures ctl == old(ctl) && retreating == old(retreating) && sunk == old(sunk)
      ensures reachedDestination == old(reachedDestination) && trailingUAVs == old(trailingUAVs)
      ensures entryPoint == old(entryPoint)
    {
      if newDestination.Some? {
        destination := newDestination;
      }
      if location.None? || destination.None? {
        return Err(AttributeError);
      }
      // the planner works on deep copies: the flags it sets are dropped
      var planned, _ := PlanRoute(Placed(env, locationId, location.value), polygons, forced, locationId, destination.value);
      if planned.Err? {
        return Err(planned.error);
      }
      var ps := planned.value.points;
      assert |ps| >= 2 && ps[0] == locationId;
      route, pastPoints, nextPoint, remainingPoints := Some(planned.value), pastPoints + [ps[0]], Some(ps[1]), ps[2..];
      assert route.value.points == ps;
      r := Ok(());
    }

    /** `set_destination`: records the destination and plans the route. */
    method SetDestination(env: Env, polygons: seq<seq<Pid>>, forced: set<Pid>, dest: Pid) returns (r: Result<()>)
      requires Polygons.AllRings(polygons)
      modifies this
      ensures destination == Some(dest)
      ensures r.Ok? ==> (route.Some? && location.Some? && Planned(Placed(env, locationId, location.value), polygons, locationId, dest, route.value.points) &&
        nextPoint == Some(route.value.points[1]))
    {
      r := GenerateRoute(env, polygons, forced, Some(dest));
    }

    /** `reached_end_point`: every trailing UAV stops trailing (each removes
        itself from the list; here the list is walked as a copy, so none is
        skipped) and the ship has reached its destination. */
    method ReachedEndPoint()
      modifies this
      ensures trailingUAVs == [] && reachedDestination
      ensures location == old(location) && pastPoints == old(pastPoints) && nextPoint == old(nextPoint)
      ensures remainingPoints == old(remainingPoints) && healthPoints == old(healthPoints)
      ensures damagePenalty == old(damagePenalty) && ctl == old(ctl) && retreating == old(retreating)
      ensures sunk == old(sunk) && route == old(route) && destination == old(destination) && entryPoint == old(entryPoint)
    {
      var uavs := trailingUAVs;
      var i := 0;
      while i < |uavs|
        invariant 0 <= i <= |uavs| && trailingUAVs == uavs[i..]
        invariant location == old(location) && pastPoints == old(pastPoints) && nextPoint == old(nextPoint)
        invariant remainingPoints == old(remainingPoints) && healthPoints == old(healthPoints)
        invariant damagePenalty == old(damagePenalty) && ctl == old(ctl) && retreating == old(retreating)
        invariant sunk == old(sunk) && route == old(route) && destination == old(destination)
        invariant entryPoint == old(entryPoint)
      {
        assert IndexOf(trailingUAVs, uavs[i]) == 0;
        trailingUAVs := RemoveFirst(trailingUAVs, uavs[i]);
        i := i + 1;
      }
      reachedDestination := true;
    }

    /** The voyage `move` starts from. */
    function CurrentVoyage(): Voyage
      requires location.Some? && nextPoint.Some?
      reads this
    {
      Voyage(location.value, pastPoints, nextPoint.value, remainingPoints, reachedDestination)
    }

    /** `move`: sails `time_delta * speed` along the route, as `Sail`
        describes; the loop needs a location and a next point once it
        runs (`AttributeError` otherwise). On arrival the trailing UAVs are
        released. Health and flags are untouched. */
    method Move(env: Env, timeDelta: real) returns (r: Result<()>)
      modifies this
      ensures !(timeDelta * speed > 0.0 && !old(reachedDestination)) ==> r == Ok(()) && unchanged(this)
      ensures (timeDelta * speed > 0.0 && !old(reachedDestination) && (old(location).None? || old(nextPoint).None?)) ==>
        r == Err(AttributeError) && unchanged(this)
      ensures (timeDelta * speed > 0.0 && !old(reachedDestination) && old(location).Some? && old(nextPoint).Some?) ==>
        var s := Sail(env, locationId, old(CurrentVoyage()), timeDelta * speed, 0);
        location.Some? && nextPoint.Some? && CurrentVoyage() == s.voyage &&
        (r.Err? <==> s.error.Some?) && (r.Err? ==> r.error == s.error.value) &&
        trailingUAVs == (if reachedDestination then [] else old(trailingUAVs))
      ensures healthPoints == old(healthPoints) && damagePenalty == old(damagePenalty) && ctl == old(ctl)
      ensures retreating == old(retreating) && sunk == old(sunk) && route == old(route)
      ensures destination == old(destination) && entryPoint == old(entryPoint)
    {
      var d := timeDelta * speed;
      if !(d > 0.0 && !reachedDestination) {
        return Ok(());
      }
      if location.None? || nextPoint.None? {
        return Err(AttributeError);
      }
      var v, error := SailLoop(env, locationId, CurrentVoyage(), d);
      location, pastPoints, nextPoint, remainingPoints := Some(v.location), v.past, Some(v.next), v.remaining;
      if v.arrived {
        ReachedEndPoint();
      }
      r := if error.Some? then Err(error.value) else Ok(());
    }

    /** `sinking`: the opening message reads the location's coordinates,
        so a ship with no location raises `AttributeError`; telling the
        trailing UAVs calls `perceive_ship_sunk`, which no UAV defines, so
        a trailed ship raises `AttributeError` before it is marked;
        otherwise the ship is sunk and loses its route. */
    method Sinking() returns (r: Result<()>)
      modifies this
      ensures (old(location).None? || |old(trailingUAVs)| > 0) ==> r == Err(AttributeError) && unchanged(this)
      ensures (old(location).Some? && |old(trailingUAVs)| == 0) ==> r == Ok(()) && sunk && route.None?
      ensures healthPoints == old(healthPoints) && damagePenalty == old(damagePenalty) && ctl == old(ctl)
      ensures retreating == old(retreating) && trailingUAVs == old(trailingUAVs) && location == old(location)
    {
      if location.None? || |trailingUAVs| > 0 {
        return Err(AttributeError);
      }
      sunk := true;
      route := None;
      r := Ok(());
    }

    /** `start_retreat`: the first call sets `retreating` and plans a route
        back to the entry point; every later call changes nothing. */
    method StartRetreat(env: Env, polygons: seq<seq<Pid>>, forced: set<Pid>) returns (r: Result<()>)
      requires Polygons.AllRings(polygons)
      modifies this
      ensures old(retreating) ==> r == Ok(()) && unchanged(this)
      ensures retreating
      ensures (!old(retreating) && r.Ok?) ==> (route.Some? && destination.Some? &&
        destination == (if old(entryPoint).Some? then old(entryPoint) else old(destination)) &&
        location.Some? && Planned(Placed(env, locationId, location.value), polygons, locationId, destination.value, route.value.points))
      ensures healthPoints == old(healthPoints) && damagePenalty == old(damagePenalty) && ctl == old(ctl)
      ensures sunk == old(sunk) && trailingUAVs == old(trailingUAVs)
    {
      if retreating {
        return Ok(());
      }
      retreating := true;
      r := GenerateRoute(env, polygons, forced, entryPoint);
    }

    /** `receive_damage`: applies `ApplyDamage`; a ship still above 80
        does nothing more, a sinking ship sinks, every other one updates
        its penalty and CTL flag and starts (or keeps) its retreat. */
    method ReceiveDamage(env: Env, polygons: seq<seq<Pid>>, forced: set<Pid>, damage: int) returns (r: Result<()>)
      requires Polygons.AllRings(polygons)
      modifies this
      ensures var o := ApplyDamage(old(healthPoints), old(damagePenalty), old(ctl), damage);
        healthPoints == o.health && damagePenalty == o.penalty && ctl == o.ctl &&
        (o.reaction == Unaffected ==> r == Ok(()) && retreating == old(retreating) && route == old(route)) &&
        (o.reaction == Retreat ==> retreating && (old(retreating) ==> r == Ok(()) && route == old(route))) &&
        (o.reaction == Sink ==> (retreating == old(retreating) &&
          (old(location).Some? && |old(trailingUAVs)| == 0 ==> r == Ok(()) && sunk && route.None?) &&
          (old(location).None? || |old(trailingUAVs)| > 0 ==> r == Err(AttributeError))))
      ensures (damage >= 0 && old(Consistent()) && healthPoints >= 9) ==> Consistent()
    {
      var o := ApplyDamage(healthPoints, damagePenalty, ctl, damage);
      if damage >= 0 && Consistent() {
        DamageKeepsConsistent(healthPoints, damagePenalty, ctl, damage);
      }
      healthPoints := o.health;
      if o.reaction == Unaffected {
        return Ok(());
      }
      if o.reaction == Sink {
        r := Sinking();
        return;
      }
      damagePenalty := o.penalty;
      ctl := o.ctl;
      r := StartRetreat(env, polygons, forced);
    }
  }
}
