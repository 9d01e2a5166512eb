/** routes.py: the `Route` record, the crossing scan, the cyclic slices
    of a ring and the choice of the shorter way around a hull. */
module Routes {
  import opened Common
  import opened Polygons

  const STANDARD_ROUTE_COLOR: string := "red"

  /** `Route.length`: the summed distance of consecutive pairs. */
  function RouteLength(env: Env, pts: seq<Pid>): real
  {
    if |pts| <= 1 then 0.0
    else RouteLength(env, pts[..|pts| - 1]) + env.dist(env.loc(pts[|pts| - 2]), env.loc(pts[|pts| - 1]))
  }

  /** A route of at most one point has length 0, and with non-negative
      distances no route is shorter than 0. */
  lemma {:induction false} RouteLengthNonNegative(env: Env, pts: seq<Pid>)
    requires EnvOk(env)
    ensures RouteLength(env, pts) >= 0.0
    ensures |pts| <= 1 ==> RouteLength(env, pts) == 0.0
  {
    if |pts| > 1 {
      RouteLengthNonNegative(env, pts[..|pts| - 1]);
    }
  }

  /** Joining two routes adds the hop between them. */
  lemma {:induction false} RouteLengthConcat(env: Env, s: seq<Pid>, t: seq<Pid>)
    requires |s| > 0 && |t| > 0
    ensures RouteLength(env, s + t) ==
      RouteLength(env, s) + env.dist(env.loc(s[|s| - 1]), env.loc(t[0])) + RouteLength(env, t)
    decreases |t|
  {
    var st := s + t;
    if |t| == 1 {
      assert st[..|st| - 1] == s;
    } else {
      var t' := t[..|t| - 1];
      assert st[..|st| - 1] == s + t';
      RouteLengthConcat(env, s, t');
      assert t'[..|t'| - 1] == t[..|t| - 2] || |t'| <= 1;
    }
  }

  /** `class Route`: the points and the length computed from them. */
  class Route {
    var points: seq<Pid>
    var length: real
    var color: string

    constructor(env: Env, points: seq<Pid>, color: Option<string>)
      ensures this.points == points && length == RouteLength(env, points)
      ensures this.color == if color.None? then STANDARD_ROUTE_COLOR else color.value
    {
      this.points := points;
      length := 0.0;
      this.color := if color.None? then STANDARD_ROUTE_COLOR else color.value;
      new;
      CalculateLength(env);
    }

    /** `calculate_length`: resets the length and sums over the pairs. */
    method CalculateLength(env: Env)
      modifies this
      ensures points == old(points) && color == old(color)
      ensures length == RouteLength(env, points)
    {
      length := 0.0;
      if |points| <= 1 {
        return;
      }
      var k := 1;
      while k < |points|
        invariant 1 <= k <= |points| && points == old(points) && color == old(color)
        invariant length == RouteLength(env, points[..k])
      {
        assert points[..k + 1][..k] == points[..k];
        length := length + env.dist(env.loc(points[k - 1]), env.loc(points[k]));
        k := k + 1;
      }
      assert points[..k] == points;
    }
  }

  /** The first crossing `line_crosses_any_polygon` reports: the index of
      the obstacle and of the segment, and the segment's two points. */
  datatype Crossing = Crossing(obstacle: nat, seg: nat, k: Pid, l: Pid)

  predicate SegmentCrosses(env: Env, polys: seq<seq<Pid>>, route: seq<Pid>, o: nat, s: nat)
    requires AllRings(polys)
  {
    o < |polys| && s + 1 < |route| && Crosses(env, polys[o], route[s], route[s + 1])
  }

  /** The first position at or after `s`, below `n - 1`, that `bad`
      holds at: a scan over the segments of an `n`-point route. */
  function FirstFrom(bad: nat -> bool, n: nat, s: nat): (r: Option<nat>)
    ensures r.Some? ==> s <= r.value && r.value + 1 < n
    decreases n - s
  {
    if s + 1 >= n then None
    else if bad(s) then Some(s)
    else FirstFrom(bad, n, s + 1)
  }

  lemma {:induction false} FirstFromSpec(bad: nat -> bool, n: nat, s: nat)
    ensures var r := FirstFrom(bad, n, s);
      (r.None? <==> forall t :: s <= t < n - 1 ==> !bad(t)) &&
      (r.Some? ==> s <= r.value < n - 1 && bad(r.value) && forall t :: s <= t < r.value ==> !bad(t))
    decreases n - s
  {
    if s + 1 < n && !bad(s) {
      FirstFromSpec(bad, n, s + 1);
    }
  }

  /** The first segment at or after `s` that crosses obstacle `o`. */
  function FirstSegment(env: Env, polys: seq<seq<Pid>>, route: seq<Pid>, o: nat, s: nat): (r: Option<nat>)
    requires AllRings(polys) && o < |polys|
    ensures r.Some? ==> s <= r.value && r.value + 1 < |route|
  {
    FirstFrom((t: nat) => SegmentCrosses(env, polys, route, o, t), |route|, s)
  }

  /** None exactly when no segment from `s` on crosses; otherwise the
      segment found crosses and none before it does. */
  lemma FirstSegmentSpec(env: Env, polys: seq<seq<Pid>>, route: seq<Pid>, o: nat, s: nat)
    requires AllRings(polys) && o < |polys|
    ensures var r := FirstSegment(env, polys, route, o, s);
      (r.None? <==> forall t :: s <= t ==> !SegmentCrosses(env, polys, route, o, t)) &&
      (r.Some? ==> (s <= r.value && SegmentCrosses(env, polys, route, o, r.value) &&
        forall t :: s <= t < r.value ==> !SegmentCrosses(env, polys, route, o, t)))
  {
    var bad := (t: nat) => SegmentCrosses(env, polys, route, o, t);
    FirstFromSpec(bad, |route|, s);
    forall t: nat ensures bad(t) == SegmentCrosses(env, polys, route, o, t) && (bad(t) ==> t < |route| - 1) { }
  }

  /** The crossing the obstacle-major, then segment-order scan meets
      first, looking at obstacles from `o` on. */
  function FirstCrossing(env: Env, polys: seq<seq<Pid>>, route: seq<Pid>, o: nat): (r: Option<Crossing>)
    requires AllRings(polys)
    ensures r.Some? ==> o <= r.value.obstacle < |polys| && r.value.seg + 1 < |route| &&
                        r.value.k == route[r.value.seg] && r.value.l == route[r.value.seg + 1]
    decreases |polys| - o
  {
    if o >= |polys| then None
    else
      match FirstSegment(env, polys, route, o, 0)
      case Some(s) => Some(Crossing(o, s, route[s], route[s + 1]))
      case None => FirstCrossing(env, polys, route, o + 1)
  }

  /** None exactly when nothing from obstacle `o` on is crossed;
      otherwise a crossing segment and its two points, with no crossing
      of an earlier obstacle and none of an earlier segment of the same
      obstacle. */
  lemma {:induction false} FirstCrossingSpec(env: Env, polys: seq<seq<Pid>>, route: seq<Pid>, o: nat)
    requires AllRings(polys)
    ensures var r := FirstCrossing(env, polys, route, o);
      (r.None? <==> forall p, t :: o <= p ==> !SegmentCrosses(env, polys, route, p, t)) &&
      (r.Some? ==> (
        var c := r.value;
        o <= c.obstacle && SegmentCrosses(env, polys, route, c.obstacle, c.seg) &&
        c.k == route[c.seg] && c.l == route[c.seg + 1] &&
        (forall p, t :: o <= p < c.obstacle ==> !SegmentCrosses(env, polys, route, p, t)) &&
        (forall t :: 0 <= t < c.seg ==> !SegmentCrosses(env, polys, route, c.obstacle, t))))
    decreases |polys| - o
  {
    if o < |polys| {
      FirstSegmentSpec(env, polys, route, o, 0);
      match FirstSegment(env, polys, route, o, 0)
      case Some(s) =>
        assert FirstCrossing(env, polys, route, o) == Some(Crossing(o, s, route[s], route[s + 1]));
      case None =>
        var r := FirstCrossing(env, polys, route, o + 1);
        assert FirstCrossing(env, polys, route, o) == r;
        FirstCrossingSpec(env, polys, route, o + 1);
        forall p: nat, t: nat | o <= p && (r.Some? ==> p < r.value.obstacle)
          ensures !SegmentCrosses(env, polys, route, p, t)
        {
          if p == o {
            assert !SegmentCrosses(env, polys, route, o, t);
          }
        }
    }
  }

  /** The inner loop of `line_crosses_any_polygon`: the segments of
      `zip(route, route[1:])` against obstacle `o`. */
  method ScanSegments(env: Env, polys: seq<seq<Pid>>, route: seq<Pid>, o: nat) returns (r: Option<nat>)
    requires AllRings(polys) && o < |polys|
    ensures r == FirstSegment(env, polys, route, o, 0)
  {
    var s := 0;
    while s + 1 < |route|
      invariant 0 <= s && (s + 1 < |route| || s == 0 || s + 1 == |route|)
      invariant FirstSegment(env, polys, route, o, s) == FirstSegment(env, polys, route, o, 0)
    {
      var violation := LineThroughPolygon(env, polys[o], route[s], route[s + 1]);
      if violation {
        return Some(s);
      }
      s := s + 1;
    }
    return None;
  }

  /** `line_crosses_any_polygon(polygons, route)`: obstacles in the outer
      loop, segments in the inner one; the first crossing is returned. */
  method LineCrossesAnyPolygon(env: Env, polys: seq<seq<Pid>>, route: seq<Pid>) returns (r: Option<Crossing>)
    requires AllRings(polys)
    ensures r == FirstCrossing(env, polys, route, 0)
  {
    var o := 0;
    while o < |polys|
      invariant 0 <= o <= |polys|
      invariant FirstCrossing(env, polys, route, o) == FirstCrossing(env, polys, route, 0)
    {
      var s := ScanSegments(env, polys, route, o);
      if s.Some? {
        return Some(Crossing(o, s.value, route[s.value], route[s.value + 1]));
      }
      o := o + 1;
    }
    return None;
  }

  /** The forward cyclic slice of a ring from position `i` to position
      `j`, both included. */
  function Arc(c: seq<Pid>, i: nat, j: nat): (r: seq<Pid>)
    requires i < |c| && j < |c|
    ensures |r| == if i <= j then j - i + 1 else |c| - i + j + 1
    ensures r[0] == c[i] && r[|r| - 1] == c[j]
  {
    if i <= j then c[i..j + 1] else c[i..] + c[..j + 1]
  }

  /** Position `t` of the arc is position `i + t` of the ring, wrapping
      round to the start past the end. */
  lemma ArcAt(c: seq<Pid>, i: nat, j: nat, t: nat)
    requires i < |c| && j < |c| && t < |Arc(c, i, j)|
    ensures Arc(c, i, j)[t] == c[if i + t < |c| then i + t else i + t - |c|]
  {
  }

  /** `get_points_between_a_b(a, b, polygon, inclusive)`. */
  function GetPointsBetween(a: Pid, b: Pid, ring: seq<Pid>, inclusive: bool): Result<seq<Pid>>
  {
    if a !in ring || b !in ring then Err(ValueError)
    else
      var ia, ib := IndexOf(ring, a), IndexOf(ring, b);
      if ia > ib then
        Ok(if inclusive then ring[ia..] + ring[..ib + 1] else ring[ia + 1..] + ring[..ib])
      else if ib > ia then
        Ok(if inclusive then ring[ia..ib + 1] else ring[ia + 1..ib])
      else Err(ValueError)
  }

  /** ValueError when either point is missing or both are the same point. */
  lemma GetPointsBetweenErrors(a: Pid, b: Pid, ring: seq<Pid>, inclusive: bool)
    ensures GetPointsBetween(a, b, ring, inclusive).Err? <==> a !in ring || b !in ring || a == b
    ensures GetPointsBetween(a, b, ring, inclusive).Err? ==> GetPointsBetween(a, b, ring, inclusive).error == ValueError
  {
    if a in ring && b in ring && a != b {
      assert IndexOf(ring, a) != IndexOf(ring, b);
    }
  }

  /** The arc between two distinct positions is its first point, the
      points strictly between, and its last point. */
  lemma ArcInterior(ring: seq<Pid>, ia: nat, ib: nat)
    requires ia < |ring| && ib < |ring| && ia != ib
    ensures var mid := if ia > ib then ring[ia + 1..] + ring[..ib] else ring[ia + 1..ib];
      var r := Arc(ring, ia, ib);
      r == [ring[ia]] + mid + [ring[ib]] && r[1..|r| - 1] == mid
  {
    if ia > ib {
      ConcatInterior(ring[ia..], ring[..ib + 1]);
      assert ring[ia..][1..] == ring[ia + 1..];
      assert ring[..ib + 1][..ib] == ring[..ib];
    } else {
      var u := ring[ia..ib + 1];
      assert u == [ring[ia]] + ring[ia + 1..ib] + [ring[ib]];
      assert u[1..|u| - 1] == ring[ia + 1..ib];
    }
  }

  /** Dropping the ends of a joined pair drops the first of the first
      part and the last of the second. */
  lemma ConcatInterior(u: seq<Pid>, v: seq<Pid>)
    requires |u| >= 1 && |v| >= 1
    ensures u + v == [u[0]] + (u[1..] + v[..|v| - 1]) + [v[|v| - 1]]
    ensures (u + v)[1..|u + v| - 1] == u[1..] + v[..|v| - 1]
  {
    assert u == [u[0]] + u[1..];
    assert v == v[..|v| - 1] + [v[|v| - 1]];
  }

  /** The inclusive slice is the forward arc from `a` to `b`, and the
      exclusive one is that arc without its two ends. */
  lemma GetPointsBetweenIsArc(a: Pid, b: Pid, ring: seq<Pid>)
    requires a in ring && b in ring && a != b
    ensures var r := Arc(ring, IndexOf(ring, a), IndexOf(ring, b));
      GetPointsBetween(a, b, ring, true) == Ok(r) &&
      |r| >= 2 && r[0] == a && r[|r| - 1] == b &&
      GetPointsBetween(a, b, ring, false) == Ok(r[1..|r| - 1])
  {
    var ia, ib := IndexOf(ring, a), IndexOf(ring, b);
    assert ia != ib by { assert ring[ia] == a && ring[ib] == b; }
    ArcInterior(ring, ia, ib);
    var r := Arc(ring, ia, ib);
    if ia > ib {
      assert GetPointsBetween(a, b, ring, false) == Ok(ring[ia + 1..] + ring[..ib]);
    } else {
      assert GetPointsBetween(a, b, ring, false) == Ok(ring[ia + 1..ib]);
    }
  }

  /** The two candidate routes of `extract_route_from_convex_hull`,
      written with the source's slices; the first is the one that does not
      wrap past the end of the list. */
  function Candidates(c: seq<Pid>, ik: nat, il: nat): (seq<Pid>, seq<Pid>)
    requires ik < |c| && il < |c| && ik != il
  {
    var k, l := c[ik], c[il];
    if il > ik then ([k] + c[ik + 1..il] + [l], Reverse([l] + c[il + 1..] + c[..ik] + [k]))
    else (Reverse([l] + c[il + 1..ik] + [k]), [k] + c[ik + 1..] + c[..il] + [l])
  }

  /** `extract_route_from_convex_hull(k, l, c_h)`. */
  function ExtractRoute(env: Env, k: Pid, l: Pid, c: seq<Pid>): Result<seq<Pid>>
  {
    if l !in c then Err(IndexError)
    else if k !in c then Err(IndexError)
    else
      var ik, il := IndexOf(c, k), IndexOf(c, l);
      if ik == il then Err(ValueError)
      else
        var (sub1, sub2) := Candidates(c, ik, il);
        if RouteLength(env, sub1) <= RouteLength(env, sub2) then Ok(sub1) else Ok(sub2)
  }

  /** The candidates are the forward arc from `k` to `l` and the reversed
      forward arc from `l` to `k`, in that order when `k` comes first. */
  lemma CandidatesAreArcs(c: seq<Pid>, ik: nat, il: nat)
    requires ik < |c| && il < |c| && ik != il
    ensures var fwd, bwd := Arc(c, ik, il), Reverse(Arc(c, il, ik));
      Candidates(c, ik, il) == if ik < il then (fwd, bwd) else (bwd, fwd)
  {
    if il > ik {
      assert [c[ik]] + c[ik + 1..il] + [c[il]] == c[ik..il + 1];
      assert [c[il]] + c[il + 1..] + c[..ik] + [c[ik]] == c[il..] + c[..ik + 1];
    } else {
      assert [c[il]] + c[il + 1..ik] + [c[ik]] == c[il..ik + 1];
      assert [c[ik]] + c[ik + 1..] + c[..il] + [c[il]] == c[ik..] + c[..il + 1];
    }
  }

  /** IndexError when either point is missing, ValueError when they are
      the same point. */
  lemma ExtractRouteErrors(env: Env, k: Pid, l: Pid, c: seq<Pid>)
    ensures l !in c || k !in c <==> ExtractRoute(env, k, l, c) == Err(IndexError)
    ensures l in c && k in c && k == l <==> ExtractRoute(env, k, l, c) == Err(ValueError)
  {
    if l in c && k in c && k != l {
      assert IndexOf(c, k) != IndexOf(c, l);
    }
  }

  /** The two candidates are the forward arc from `k` to `l` and the
      reversed forward arc from `l` to `k`; the result is the shorter,
      the non-wrapping one on a tie; both start at `k` and end at `l`. */
  lemma ExtractRouteIsArc(env: Env, k: Pid, l: Pid, c: seq<Pid>)
    requires k in c && l in c && k != l
    ensures var ik, il := IndexOf(c, k), IndexOf(c, l);
      var fwd, bwd := Arc(c, ik, il), Reverse(Arc(c, il, ik));
      var first, second := if ik < il then fwd else bwd, if ik < il then bwd else fwd;
      var r := ExtractRoute(env, k, l, c);
      r.Ok? &&
      (r.value == first || r.value == second) &&
      (RouteLength(env, first) <= RouteLength(env, second) ==> r.value == first) &&
      (RouteLength(env, first) > RouteLength(env, second) ==> r.value == second) &&
      |r.value| >= 2 && r.value[0] == k && r.value[|r.value| - 1] == l
  {
    var ik, il := IndexOf(c, k), IndexOf(c, l);
    assert ik != il by { assert c[ik] == k && c[il] == l; }
    CandidatesAreArcs(c, ik, il);
    var sub1, sub2 := Candidates(c, ik, il).0, Candidates(c, ik, il).1;
    assert ExtractRoute(env, k, l, c) == if RouteLength(env, sub1) <= RouteLength(env, sub2) then Ok(sub1) else Ok(sub2);
    var a := Arc(c, il, ik);
    var bwd := Reverse(a);
    assert bwd[0] == a[|a| - 1] && bwd[|bwd| - 1] == a[0];
  }
}
