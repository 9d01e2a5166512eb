/** drones.py: a UAV that flies planned routes between its airbase, a
    patrol start and the ship it trails, turns by compass headings on
    patrol, and lands for maintenance. Route points are point ids whose
    coordinates the `Env` gives; the UAV's own location point, a fresh
    copy after every arrival, is planned from under the identity
    `locationId`. */
module Drones {
  import opened Common
  import Polygons
  import Geometry
  import Routes
  import Receptors
  import Ships

  const SAFETY_ENDURANCE: real := 0.1
  /** A trailing UAV this close to its ship stops chasing for the step. */
  const TRAIL_CONTACT: real := 0.01

  // ------------------------------------------------------------------
  // Headings

  /** The `direction` attribute. */
  datatype Heading = North | East | South | West

  function HeadingName(h: Heading): string
  {
    match h
    case North => "north"
    case East => "east"
    case South => "south"
    case West => "west"
  }

  /** Position of a heading going clockwise from north. */
  function Clockwise(h: Heading): (n: nat)
    ensures n < 4
  {
    match h
    case North => 0
    case East => 1
    case South => 2
    case West => 3
  }

  /** `report_new_direction`: the heading after turning "left", "right",
      "straight" or "turn" (around); any other change is a `ValueError`.
      Right is a quarter turn clockwise, left three quarters, around
      two. */
  function ReportNewDirection(direction: Heading, change: string): (r: Result<Heading>)
    ensures r.Err? <==> change != "left" && change != "straight" && change != "right" && change != "turn"
    ensures r.Err? ==> r.error == ValueError
    ensures change == "straight" ==> r == Ok(direction)
    ensures change == "right" ==> r.Ok? && Clockwise(r.value) == (Clockwise(direction) + 1) % 4
    ensures change == "turn" ==> r.Ok? && Clockwise(r.value) == (Clockwise(direction) + 2) % 4
    ensures change == "left" ==> r.Ok? && Clockwise(r.value) == (Clockwise(direction) + 3) % 4
  {
    if change == "left" then
      Ok(match direction
        case North => West
        case East => North
        case South => East
        case West => South)
    else if change == "straight" then Ok(direction)
    else if change == "right" then
      Ok(match direction
        case North => East
        case East => South
        case South => West
        case West => North)
    else if change == "turn" then
      Ok(match direction
        case North => South
        case East => West
        case South => North
        case West => East)
    else Err(ValueError)
  }

  /** Headings are determined by their clockwise position. */
  lemma ClockwiseInjective(a: Heading, b: Heading)
    requires Clockwise(a) == Clockwise(b)
    ensures a == b
  {
  }

  /** Left and right undo each other; turning around twice, or turning
      left twice, is what it should be. */
  lemma {:induction false} TurnsCompose(h: Heading)
    ensures ReportNewDirection(ReportNewDirection(h, "left").value, "right") == Ok(h)
    ensures ReportNewDirection(ReportNewDirection(h, "right").value, "left") == Ok(h)
    ensures ReportNewDirection(ReportNewDirection(h, "turn").value, "turn") == Ok(h)
    ensures ReportNewDirection(ReportNewDirection(h, "left").value, "left") == ReportNewDirection(h, "turn")
  {
    var l := ReportNewDirection(h, "left").value;
    var r := ReportNewDirection(h, "right").value;
    var t := ReportNewDirection(h, "turn").value;
    ClockwiseInjective(ReportNewDirection(l, "right").value, h);
    ClockwiseInjective(ReportNewDirection(r, "left").value, h);
    ClockwiseInjective(ReportNewDirection(t, "turn").value, h);
    ClockwiseInjective(ReportNewDirection(l, "left").value, t);
  }

  /** `move_in_direction`: the point `distance` away along a compass
      direction ("reverse" goes west; None means the current heading);
      any other direction is a `ValueError`. Exactly one coordinate
      changes, by plus or minus the distance. */
  function MoveInDirection(location: Coord, current: Heading, distance: real, direction: Option<string>): (r: Result<Coord>)
    ensures var name := if direction.None? then HeadingName(current) else direction.value;
      (r.Err? <==> name != "north" && name != "east" && name != "south" && name != "west" && name != "reverse") &&
      (r.Err? ==> r.error == ValueError)
    ensures r.Ok? ==> ((r.value.x == location.x && (r.value.y == location.y + distance || r.value.y == location.y - distance)) ||
      (r.value.y == location.y && (r.value.x == location.x + distance || r.value.x == location.x - distance)))
  {
    var name := if direction.None? then HeadingName(current) else direction.value;
    if name == "north" then Ok(Coord(location.x, location.y + distance))
    else if name == "east" then Ok(Coord(location.x + distance, location.y))
    else if name == "south" then Ok(Coord(location.x, location.y - distance))
    else if name == "west" then Ok(Coord(location.x - distance, location.y))
    else if name == "reverse" then Ok(Coord(location.x - distance, location.y))
    else Err(ValueError)
  }

  /** "reverse" is west; no direction is the current heading; and going
      back the opposite way returns to the start. */
  lemma MoveInDirectionProps(location: Coord, current: Heading, distance: real, h: Heading)
    ensures MoveInDirection(location, current, distance, Some("reverse")) ==
      MoveInDirection(location, current, distance, Some("west"))
    ensures MoveInDirection(location, current, distance, None) ==
      MoveInDirection(location, current, distance, Some(HeadingName(current)))
    ensures var there := MoveInDirection(location, current, distance, Some(HeadingName(h)));
      there.Ok? &&
      MoveInDirection(there.value, current, distance, Some(HeadingName(ReportNewDirection(h, "turn").value))) == Ok(location)
  {
  }

  // ------------------------------------------------------------------
  // Models

  /** The parameters `make` sets; `abilityToTarget` stays None for the
      models that do not set it. */
  datatype Specs = Specs(speed: real, vulnerability: int, abilityToTarget: Option<bool>,
                         maxAmmunition: nat, radius: real, endurance: real, range: real)

  const MODELS: set<string> := {"WLI_GJ1", "WLI_WD1", "BZK-007", "CH-4", "BZK-005", "TB-001", "WLII",
                                "WZ-7", "WLIII", "WZ-10", "Y-8", "Y-9", "test"}

  /** `make`: the model table. An unknown model sets nothing (None); the
      "test" model's endurance is drawn uniformly from [150, 300] and is
      given here. */
  function Make(model: string, testEndurance: real): (s: Option<Specs>)
    ensures s.Some? <==> model in MODELS
    ensures s.Some? ==> (s.value.speed > 0.0 && s.value.radius > 0.0 && s.value.range > 0.0 &&
      1 <= s.value.vulnerability <= 3)
    ensures s.Some? && model != "test" ==> s.value.endurance >= 10.0
    ensures s.Some? && model == "test" ==> s.value.endurance == testEndurance
  {
    if model == "WLI_GJ1" then Some(Specs(210.0, 3, Some(true), 6, 11.0, 20.0, 1250.0))
    else if model == "WLI_WD1" then Some(Specs(210.0, 3, Some(true), 0, 11.0, 20.0, 1250.0))
    else if model == "BZK-007" then Some(Specs(210.0, 3, Some(true), 0, 11.0, 16.0, 250.0))
    else if model == "CH-4" then Some(Specs(210.0, 3, Some(true), 6, 11.0, 40.0, 1700.0))
    else if model == "BZK-005" then Some(Specs(210.0, 2, Some(false), 0, 83.0, 40.0, 2000.0))
    else if model == "TB-001" then Some(Specs(210.0, 2, Some(true), 6, 11.0, 35.0, 2000.0))
    else if model == "WLII" then Some(Specs(210.0, 2, Some(true), 6, 11.0, 32.0, 2000.0))
    else if model == "WZ-7" then Some(Specs(750.0, 1, Some(false), 0, 83.0, 10.0, 2000.0))
    else if model == "WLIII" then Some(Specs(210.0, 2, None, 6, 83.0, 27.0, 2000.0))
    else if model == "WZ-10" then Some(Specs(750.0, 2, None, 6, 83.0, 10.0, 2000.0))
    else if model == "Y-8" then Some(Specs(210.0, 2, None, 6, 83.0, 10.0, 2000.0))
    else if model == "Y-9" then Some(Specs(210.0, 2, None, 6, 83.0, 20.0, 2000.0))
    else if model == "test" then Some(Specs(1.0, 2, None, 0, 1.0, testEndurance, 2000.0))
    else None
  }

  // ------------------------------------------------------------------
  // Endurance and maintenance

  /** The test of `can_continue`: the UAV must head home once the
      endurance it has left, less a safety margin of 10% of its
      endurance, no longer exceeds the whole time steps the way home
      takes. */
  predicate MustReturn(endurance: real, airborne: real, length: real, speed: real)
    requires speed > 0.0
  {
    endurance - airborne - endurance * SAFETY_ENDURANCE <= Receptors.Ceil(length / speed) as real
  }

  /** A UAV that has used 90% of its endurance must return, however short
      the way home; staying up longer never lifts the need to return. */
  lemma MustReturnProps(endurance: real, airborne: real, later: real, length: real, speed: real)
    requires speed > 0.0 && length >= 0.0 && airborne <= later
    ensures airborne >= endurance * (1.0 - SAFETY_ENDURANCE) ==> MustReturn(endurance, airborne, length, speed)
    ensures MustReturn(endurance, airborne, length, speed) ==> MustReturn(endurance, later, length, speed)
  {
    assert length / speed >= 0.0;
  }

  /** When `start_maintenance` expects the maintenance to end: 3.4 hours
      in time steps plus 0.68 of the endurance after now. */
  function MaintenanceEnd(worldTime: real, timeDelta: real, endurance: real): (t: real)
    requires timeDelta != 0.0
    ensures timeDelta > 0.0 && endurance >= 0.0 ==> t > worldTime
  {
    worldTime + 3.4 * (60.0 / timeDelta) + 0.68 * endurance
  }

  // ------------------------------------------------------------------
  // Flying a route

  /** The part of the UAV's state `move_through_route` works on;
      `landed` records that `land` ran. */
  datatype Flight = Flight(location: Coord, past: seq<Pid>, next: Option<Pid>, remaining: seq<Pid>,
                           toStart: bool, toBase: bool, patrolling: bool, landed: bool)

  /** Where `move_through_route` stops, and the exception if one was
      raised. */
  datatype Flown = Flown(flight: Flight, error: Option<Error>)

  /** `reached_end_of_route`: at the patrol start the UAV starts
      patrolling; back at base it lands (which empties `past_points`); a
      trailing UAV carries on. */
  function ReachedEndOfRoute(f: Flight): (g: Flight)
    ensures g.location == f.location && g.next == f.next && g.remaining == f.remaining
    ensures f.toStart ==> !g.toStart && g.patrolling && g.toBase == f.toBase && g.past == f.past && g.landed == f.landed
    ensures !f.toStart && f.toBase ==> !g.toBase && g.landed && g.past == [] && g.patrolling == f.patrolling
    ensures !f.toStart && !f.toBase ==> g == f
  {
    if f.toStart then f.(toStart := false, patrolling := true)
    else if f.toBase then f.(toBase := false, past := [], landed := true)
    else f
  }

  /** One pass of the loop of `move_through_route`: travel
      `min(d, distance to next)`; on reaching the next point record it,
      stand on it and move on to the following one, or end the route;
      otherwise fly that far along `heading` (the unit direction vector
      towards the next point). Returns the flight and the distance
      left. */
  function FlyStep(env: Env, heading: (Coord, Coord) -> Coord, f: Flight, d: real): (Flight, real)
    requires d > 0.0 && f.next.Some?
  {
    var target := env.loc(f.next.value);
    var dn := env.dist(f.location, target);
    var t := Geometry.Min(d, dn);
    if dn <= t then
      var at := f.(past := f.past + [f.next.value], location := target);
      if |f.remaining| > 0 then (at.(next := Some(f.remaining[0]), remaining := f.remaining[1..]), d - t)
      else (ReachedEndOfRoute(at), d - t)
    else
      var u := heading(f.location, target);
      (f.(location := Coord(f.location.x + t * u.x, f.location.y + t * u.y)), d - t)
  }

  /** One pass of `Fly` that neither stops nor fails. */
  lemma FlyUnfold(env: Env, heading: (Coord, Coord) -> Coord, routed: bool, located: bool,
                  ship: Option<Coord>, chasing: bool, f: Flight, d: real, iterations: nat)
    requires iterations + 1 <= ITERATION_LIMIT && d > 0.0 && (f.toStart || f.toBase || chasing) && f.next.Some?
    requires chasing ==> ship.Some? && env.dist(f.location, ship.value) >= TRAIL_CONTACT
    ensures Fly(env, heading, routed, located, ship, chasing, f, d, iterations) ==
            Fly(env, heading, routed, located, ship, chasing, FlyStep(env, heading, f, d).0, FlyStep(env, heading, f, d).1, iterations + 1)
  { }

  /** The exception of the pass after `ITERATION_LIMIT`: a UAV with a
      route (`routed`) first plots its next point, which fails without
      one; the message then names the located ship, which fails when
      there is none (`located` false); only then is it `TimeoutError`. */
  function LimitError(routed: bool, located: bool, f: Flight): Error
  {
    if routed && f.next.None? then AttributeError
    else if !located then AttributeError
    else TimeoutError
  }

  /** The loop of `move_through_route` from its `iterations`-th pass: it
      runs while distance is left and the UAV is routing to its start, to
      base, or chasing; the pass after `ITERATION_LIMIT` raises
      `LimitError`; a chasing UAV within `TRAIL_CONTACT` of its ship
      (`ship`, its location) stops; a missing ship or next point is an
      `AttributeError`. */
  function Fly(env: Env, heading: (Coord, Coord) -> Coord, routed: bool, located: bool,
               ship: Option<Coord>, chasing: bool, f: Flight, d: real, iterations: nat): Flown
    requires iterations <= ITERATION_LIMIT
    decreases ITERATION_LIMIT - iterations
  {
    if !(d > 0.0 && (f.toStart || f.toBase || chasing)) then Flown(f, None)
    else if iterations + 1 > ITERATION_LIMIT then Flown(f, Some(LimitError(routed, located, f)))
    else if chasing && ship.None? then Flown(f, Some(AttributeError))
    else if chasing && env.dist(f.location, ship.value) < TRAIL_CONTACT then Flown(f, None)
    else if f.next.None? then Flown(f, Some(AttributeError))
    else
      var (g, d') := FlyStep(env, heading, f, d);
      Fly(env, heading, routed, located, ship, chasing, g, d', iterations + 1)
  }

  /** The route behind, at and ahead of the UAV. */
  function Trail(f: Flight): seq<Pid>
    requires f.next.Some?
  {
    f.past + [f.next.value] + f.remaining
  }

  /** Heading either to the patrol start or to base, not both: the state
      `launch` and `return_to_base` leave. */
  predicate OneErrand(f: Flight)
  {
    !(f.toStart && f.toBase) && !f.landed && f.next.Some?
  }

  /** A pass leaves between none and all of the distance, and either
      reaches the next point or uses the distance up. */
  lemma FlyStepProgress(env: Env, heading: (Coord, Coord) -> Coord, f: Flight, d: real)
    requires EnvOk(env) && d > 0.0 && f.next.Some?
    ensures var (g, d') := FlyStep(env, heading, f, d);
      0.0 <= d' <= d && g.next.Some? &&
      (d' == 0.0 || (g.location == env.loc(f.next.value) && g.past == f.past + [f.next.value]) ||
       (g.location == env.loc(f.next.value) && g.landed))
  {
    assert env.dist(f.location, env.loc(f.next.value)) >= 0.0;
  }

  /** A UAV that is not chasing follows its route in order: until the end
      the points behind and ahead make up the same route; at the patrol
      start every point is behind it and it patrols; back at base it has
      landed on the last point. */
  lemma {:induction false} FlightFollowsRoute(env: Env, heading: (Coord, Coord) -> Coord, routed: bool, located: bool,
                                              ship: Option<Coord>, f: Flight, d: real, iterations: nat)
    requires iterations <= ITERATION_LIMIT && OneErrand(f)
    ensures var w := Fly(env, heading, routed, located, ship, false, f, d, iterations).flight;
      w.next.Some? &&
      (w.toStart == f.toStart && w.toBase == f.toBase ==> Trail(w) == Trail(f) && !w.landed) &&
      (f.toStart && !w.toStart ==> (w.patrolling && w.past == Trail(f) && w.remaining == [] &&
        w.location == env.loc(w.next.value))) &&
      (f.toBase && !w.toBase ==> (w.landed && w.past == [] && w.remaining == [] &&
        w.location == env.loc(w.next.value)))
    decreases ITERATION_LIMIT - iterations
  {
    if d > 0.0 && (f.toStart || f.toBase) && iterations + 1 <= ITERATION_LIMIT {
      var (g, d') := FlyStep(env, heading, f, d);
      if g.toStart == f.toStart && g.toBase == f.toBase {
        assert Trail(g) == Trail(f) by {
          if |f.remaining| > 0 && g.location == env.loc(f.next.value) && g.past == f.past + [f.next.value] {
            assert f.remaining == [f.remaining[0]] + f.remaining[1..];
          }
        }
        FlightFollowsRoute(env, heading, routed, located, ship, g, d', iterations + 1);
      } else {
        assert Fly(env, heading, routed, located, ship, false, g, d', iterations + 1).flight == g;
      }
    }
  }

  /** A UAV that is not chasing, on a route with fewer points left than
      the iteration limit, never reaches the limit and raises nothing:
      every pass reaches a point or uses the distance up. */
  lemma {:induction false} ShortFlightCompletes(env: Env, heading: (Coord, Coord) -> Coord, routed: bool, located: bool,
                                                ship: Option<Coord>, f: Flight, d: real, iterations: nat)
    requires EnvOk(env) && OneErrand(f) && d >= 0.0
    requires iterations + |f.remaining| + 1 <= ITERATION_LIMIT
    ensures Fly(env, heading, routed, located, ship, false, f, d, iterations).error == None
    decreases ITERATION_LIMIT - iterations
  {
    if d > 0.0 && (f.toStart || f.toBase) {
      var (g, d') := FlyStep(env, heading, f, d);
      FlyStepProgress(env, heading, f, d);
      if d' == 0.0 {
        assert Fly(env, heading, routed, located, ship, false, g, d', iterations + 1).error == None;
      } else if g.toStart == f.toStart && g.toBase == f.toBase {
        assert |g.remaining| + 1 == |f.remaining|;
        ShortFlightCompletes(env, heading, routed, located, ship, g, d', iterations + 1);
      } else {
        assert !(g.toStart || g.toBase);
        assert Fly(env, heading, routed, located, ship, false, g, d', iterations + 1).error == None;
      }
    }
  }

  /** The loop of `move_through_route` on the flight it works on; see
      `Fly`. */
  method FlyLoop(env: Env, heading: (Coord, Coord) -> Coord, routed: bool, located: bool,
                 ship: Option<Coord>, chasing: bool, start: Flight, distance: real) returns (f: Flight, error: Option<Error>)
    ensures Flown(f, error) == Fly(env, heading, routed, located, ship, chasing, start, distance, 0)
  {
    f := start;
    var d := distance;
    var iterations := 0;
    while d > 0.0 && (f.toStart || f.toBase || chasing)
      invariant 0 <= iterations <= ITERATION_LIMIT
      invariant Fly(env, heading, routed, located, ship, chasing, f, d, iterations) == Fly(env, heading, routed, located, ship, chasing, start, distance, 0)
      decreases ITERATION_LIMIT - iterations
    {
      iterations := iterations + 1;
      if iterations > ITERATION_LIMIT {
        if routed && f.next.None? {
          return f, Some(AttributeError);
        }
        if !located {
          return f, Some(AttributeError);
        }
        return f, Some(TimeoutError);
      }
      if chasing {
        if ship.None? {
          return f, Some(AttributeError);
        }
        if env.dist(f.location, ship.value) < TRAIL_CONTACT {
          return f, None;
        }
      }
      if f.next.None? {
        return f, Some(AttributeError);
      }
      FlyUnfold(env, heading, routed, located, ship, chasing, f, d, iterations - 1);
      f, d := FlyStep(env, heading, f, d).0, FlyStep(env, heading, f, d).1;
    }
    error := None;
  }

  // ------------------------------------------------------------------
  // The UAV

  /** The module-level `uav_id`. */
  class DroneCounter {
    var next: nat

    constructor()
      ensures next == 0
    {
      next := 0;
    }
  }

  class Drone {
    const uavId: nat
    /** The identity under which the UAV's location point is planned from. */
    const locationId: Pid
    /** The airbase's location point and its coordinates. */
    const baseId: Pid
    const baseLocation: Coord
    const model: string
    /** The drawn endurance of a "test" UAV. */
    const testEndurance: real
    const specs: Option<Specs> := Make(model, testEndurance)
    var location: Coord
    var direction: Heading
    var timeSpentAirborne: real
    var routingToStart: bool
    var routingToBase: bool
    var patrolling: bool
    var trailing: bool
    var grounded: bool
    var underMaintenance: bool
    var estimatedFinishMaintenance: Option<real>
    var pastPoints: seq<Pid>
    var nextPoint: Option<Pid>
    var remainingPoints: seq<Pid>
    var route: Option<Routes.Route>
    var locatedShip: Option<Ships.Ship>
    var healthPoints: int

    /** `Drone(model, world, airbase)`: takes the next UAV id, stands on a
        copy of the airbase location facing east, grounded, with the
        model's parameters. */
    constructor(counter: DroneCounter, model: string, testEndurance: real, locationId: Pid, baseId: Pid, baseLocation: Coord)
      modifies counter
      ensures uavId == old(counter.next) && counter.next == old(counter.next) + 1
      ensures this.model == model && specs == Make(model, testEndurance)
      ensures this.locationId == locationId && this.baseId == baseId && this.baseLocation == baseLocation
      ensures location == baseLocation && direction == East && timeSpentAirborne == 0.0
      ensures !routingToStart && !routingToBase && !patrolling && !trailing && grounded && !underMaintenance
      ensures estimatedFinishMaintenance.None? && pastPoints == [] && nextPoint.None? && remainingPoints == []
      ensures route.None? && locatedShip.None? && healthPoints == 100
    {
      uavId := counter.next;
      this.model := model;
      this.testEndurance := testEndurance;
      this.locationId := locationId;
      this.baseId := baseId;
      this.baseLocation := baseLocation;
      location := baseLocation;
      direction := East;
      timeSpentAirborne := 0.0;
      routingToStart, routingToBase, patrolling, trailing := false, false, false, false;
      grounded, underMaintenance := true, false;
      estimatedFinishMaintenance := None;
      pastPoints, nextPoint, remainingPoints := [], None, [];
      route, locatedShip := None, None;
      healthPoints := 100;
      new;
      counter.next := counter.next + 1;
    }

    /** The ship object the UAV trails, as a frame. */
    function TrailedShip(): set<object>
      reads this
    {
      if locatedShip.Some? then {locatedShip.value} else {}
    }

    /** `generate_route`: plans from the UAV's location to `destination`
        around the world's polygons, which are not copied, so the
        force-maintain flags the planner sets stay (`forcedAfter`); the
        route is split into the point behind, the next point and the
        points ahead. A planner exception changes nothing. */
    method GenerateRoute(env: Env, polygons: seq<seq<Pid>>, forced: set<Pid>, destination: Pid)
      returns (r: Result<()>, forcedAfter: set<Pid>)
      requires Polygons.AllRings(polygons)
      modifies this
      ensures r.Err? ==> unchanged(this)
      ensures r.Ok? ==> (route.Some? && fresh(route.value) &&
        Ships.Planned(Placed(env, locationId, location), polygons, locationId, destination, route.value.points) &&
        pastPoints == old(pastPoints) + [locationId] && nextPoint == Some(route.value.points[1]) &&
        remainingPoints == route.value.points[2..])
      ensures location == old(location) && direction == old(direction) && timeSpentAirborne == old(timeSpentAirborne)
      ensures routingToStart == old(routingToStart) && routingToBase == old(routingToBase)
      ensures patrolling == old(patrolling) && trailing == old(trailing) && grounded == old(grounded)
      ensures underMaintenance == old(underMaintenance) && locatedShip == old(locatedShip)
    {
      var planned;
      planned, forcedAfter := Ships.PlanRoute(Placed(env, locationId, location), polygons, forced, locationId, destination);
      if planned.Err? {
        return Err(planned.error), forcedAfter;
      }
      var ps := planned.value.points;
      route, pastPoints, nextPoint, remainingPoints := Some(planned.value), pastPoints + [ps[0]], Some(ps[1]), ps[2..];
      assert route.value.points == ps;
      r := Ok(());
    }

    /** `can_continue`: at the airbase's coordinates the UAV may always go
        on, without planning; otherwise it plans the way home and may go
        on unless `MustReturn`. An unknown model has no endurance
        (`TypeError`). */
    method CanContinue(env: Env, polygons: seq<seq<Pid>>, forced: set<Pid>)
      returns (r: Result<bool>, forcedAfter: set<Pid>, ghost home: seq<Pid>)
      requires Polygons.AllRings(polygons)
      ensures location == baseLocation ==> r == Ok(true) && forcedAfter == forced
      ensures location != baseLocation && specs.None? ==> r == Err(TypeError) && forcedAfter == forced
      ensures location != baseLocation && r.Ok? ==> (specs.Some? &&
        Ships.Planned(Placed(env, locationId, location), polygons, locationId, baseId, home) &&
        (r.value <==> !MustReturn(specs.value.endurance, timeSpentAirborne,
          Routes.RouteLength(Placed(env, locationId, location), home), specs.value.speed)))
    {
      home := [];
      if location == baseLocation {
        return Ok(true), forced, home;
      }
      if specs.None? {
        return Err(TypeError), forced, home;
      }
      var planned;
      planned, forcedAfter := Ships.PlanRoute(Placed(env, locationId, location), polygons, forced, locationId, baseId);
      if planned.Err? {
        return Err(planned.error), forcedAfter, home;
      }
      home := planned.value.points;
      var remainingEndurance := specs.value.endurance - timeSpentAirborne;
      var timeRequired := Receptors.Ceil(planned.value.length / specs.value.speed);
      r := Ok(!(remainingEndurance - specs.value.endurance * SAFETY_ENDURANCE <= timeRequired as real));
    }

    /** `start_maintenance`: marks the UAV under maintenance and, for a
        known model, records when it ends; an unknown model has no
        endurance (`TypeError`, after the flag is set). */
    method StartMaintenance(worldTime: real, timeDelta: real) returns (r: Result<()>)
      requires timeDelta != 0.0
      modifies this
      ensures underMaintenance
      ensures specs.Some? ==> (r == Ok(()) &&
        estimatedFinishMaintenance == Some(MaintenanceEnd(worldTime, timeDelta, specs.value.endurance)))
      ensures specs.None? ==> r == Err(TypeError) && estimatedFinishMaintenance == old(estimatedFinishMaintenance)
      ensures location == old(location) && pastPoints == old(pastPoints) && nextPoint == old(nextPoint)
      ensures remainingPoints == old(remainingPoints) && routingToStart == old(routingToStart)
      ensures routingToBase == old(routingToBase) && patrolling == old(patrolling) && trailing == old(trailing)
      ensures grounded == old(grounded) && timeSpentAirborne == old(timeSpentAirborne)
      ensures direction == old(direction) && route == old(route) && locatedShip == old(locatedShip)
    {
      underMaintenance := true;
      if specs.None? {
        return Err(TypeError);
      }
      estimatedFinishMaintenance := Some(MaintenanceEnd(worldTime, timeDelta, specs.value.endurance));
      r := Ok(());
    }

    /** `land`: grounded, no points behind, no time airborne, and into
        maintenance. */
    method Land(worldTime: real, timeDelta: real) returns (r: Result<()>)
      requires timeDelta != 0.0
      modifies this
      ensures grounded && pastPoints == [] && timeSpentAirborne == 0.0 && underMaintenance
      ensures specs.Some? ==> (r == Ok(()) &&
        estimatedFinishMaintenance == Some(MaintenanceEnd(worldTime, timeDelta, specs.value.endurance)))
      ensures specs.None? ==> r == Err(TypeError)
      ensures location == old(location) && nextPoint == old(nextPoint) && remainingPoints == old(remainingPoints)
      ensures routingToStart == old(routingToStart) && routingToBase == old(routingToBase)
      ensures patrolling == old(patrolling) && trailing == old(trailing)
      ensures direction == old(direction) && route == old(route) && locatedShip == old(locatedShip)
    {
      grounded := true;
      pastPoints := [];
      timeSpentAirborne := 0.0;
      r := StartMaintenance(worldTime, timeDelta);
    }

    /** The flight `move_through_route` starts from. */
    function CurrentFlight(): Flight
      reads this
    {
      Flight(location, pastPoints, nextPoint, remainingPoints, routingToStart, routingToBase, patrolling, false)
    }

    /** Puts the UAV where the flight `f` left it. */
    method TakeFlight(f: Flight)
      modifies this
      ensures location == f.location && pastPoints == f.past && nextPoint == f.next && remainingPoints == f.remaining
      ensures routingToStart == f.toStart && routingToBase == f.toBase && patrolling == f.patrolling
      ensures grounded == old(grounded) && timeSpentAirborne == old(timeSpentAirborne)
      ensures underMaintenance == old(underMaintenance) && estimatedFinishMaintenance == old(estimatedFinishMaintenance)
      ensures trailing == old(trailing) && direction == old(direction) && route == old(route)
      ensures locatedShip == old(locatedShip)
    {
      location := f.location;
      pastPoints := f.past;
      nextPoint := f.next;
      remainingPoints := f.remaining;
      routingToStart := f.toStart;
      routingToBase := f.toBase;
      patrolling := f.patrolling;
    }

    /** The location of the located ship, if there is one and it has a
        location. */
    function ChasedLocation(): Option<Coord>
      reads this, TrailedShip()
    {
      if locatedShip.Some? then locatedShip.value.location else None
    }

    /** `move_through_route`: flies `distance` as `Fly` describes, chasing
        the located ship when trailing; a UAV that lands on the way is
        grounded and put into maintenance at `worldTime`. Called only for
        a UAV whose model is known. */
    method MoveThroughRoute(env: Env, heading: (Coord, Coord) -> Coord, distance: real,
                            worldTime: real, timeDelta: real) returns (r: Result<()>)
      requires specs.Some? && timeDelta != 0.0
      modifies this
      ensures var s := Fly(env, heading, old(route.Some?), old(locatedShip.Some?), old(ChasedLocation()),
                           old(trailing), old(CurrentFlight()), distance, 0);
        location == s.flight.location && nextPoint == s.flight.next && remainingPoints == s.flight.remaining &&
        routingToStart == s.flight.toStart && routingToBase == s.flight.toBase && patrolling == s.flight.patrolling &&
        (r.Err? <==> s.error.Some?) && (r.Err? ==> r.error == s.error.value) &&
        (s.flight.landed ==> (grounded && pastPoints == [] && timeSpentAirborne == 0.0 && underMaintenance &&
          estimatedFinishMaintenance == Some(MaintenanceEnd(worldTime, timeDelta, specs.value.endurance)))) &&
        (!s.flight.landed ==> (pastPoints == s.flight.past && grounded == old(grounded) &&
          timeSpentAirborne == old(timeSpentAirborne) && underMaintenance == old(underMaintenance)))
      ensures trailing == old(trailing) && direction == old(direction) && route == old(route)
      ensures locatedShip == old(locatedShip)
    {
      var f, error := FlyLoop(env, heading, route.Some?, locatedShip.Some?, ChasedLocation(), trailing, CurrentFlight(), distance);
      TakeFlight(f);
      if f.landed {
        var _ := Land(worldTime, timeDelta);
      }
      r := if error.Some? then Err(error.value) else Ok(());
    }

    /** `stop_trailing`: a trailing UAV stops trailing, takes itself off
        its ship's list and forgets the ship (`ValueError` if it is not on
        the list; `AttributeError` without a ship); a UAV that is not
        trailing only logs a warning. */
    method StopTrailing() returns (r: Result<()>)
      modifies this, TrailedShip()
      ensures !old(trailing) ==> r == Ok(()) && unchanged(this) && unchanged(old(TrailedShip()))
      ensures old(trailing) ==> !trailing
      ensures old(trailing) && old(locatedShip).None? ==> r == Err(AttributeError)
      ensures old(trailing) && old(locatedShip).Some? && uavId in old(locatedShip.value.trailingUAVs) ==>
        (r == Ok(()) && locatedShip.None? &&
        old(locatedShip).value.trailingUAVs == RemoveFirst(old(locatedShip.value.trailingUAVs), uavId))
      ensures old(trailing) && old(locatedShip).Some? && uavId !in old(locatedShip.value.trailingUAVs) ==>
        (r == Err(ValueError) && locatedShip == old(locatedShip) && unchanged(old(TrailedShip())))
      ensures location == old(location) && pastPoints == old(pastPoints) && nextPoint == old(nextPoint)
      ensures remainingPoints == old(remainingPoints) && routingToStart == old(routingToStart)
      ensures routingToBase == old(routingToBase) && patrolling == old(patrolling) && grounded == old(grounded)
      ensures direction == old(direction) && route == old(route)
    {
      if !trailing {
        return Ok(());
      }
      trailing := false;
      if locatedShip.None? {
        return Err(AttributeError);
      }
      var ship := locatedShip.value;
      if uavId !in ship.trailingUAVs {
        return Err(ValueError);
      }
      ship.trailingUAVs := RemoveFirst(ship.trailingUAVs, uavId);
      locatedShip := None;
      r := Ok(());
    }

    /** `return_to_base`: no longer routing to the patrol start; a
        trailing UAV stops trailing first; then plans the way to the
        airbase and routes there. */
    method ReturnToBase(env: Env, polygons: seq<seq<Pid>>, forced: set<Pid>) returns (r: Result<()>, forcedAfter: set<Pid>)
      requires Polygons.AllRings(polygons)
      modifies this, TrailedShip()
      ensures !routingToStart
      ensures r.Ok? ==> (routingToBase && !trailing && route.Some? &&
        Ships.Planned(Placed(env, locationId, location), polygons, locationId, baseId, route.value.points) &&
        nextPoint == Some(route.value.points[1]))
      ensures r.Err? ==> routingToBase == old(routingToBase)
      ensures !old(trailing) ==> location == old(location)
      ensures grounded == old(grounded)
    {
      routingToStart := false;
      forcedAfter := forced;
      if trailing {
        r := StopTrailing();
        if r.Err? {
          return;
        }
      }
      r, forcedAfter := GenerateRoute(env, polygons, forced, baseId);
      if r.Ok? {
        routingToBase := true;
      }
    }
  }
}
