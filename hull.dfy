/** The hull helpers of general_maths.py: the lowest point, the Graham
    scan (whose polar-angle sort is the environment's `polarSort`), and
    the closest vertex of a polygon that can be reached in a straight
    line. Each loop is a method proved equal to a reference function. */
module Hull {
  import opened Common
  import opened Geometry
  import opened Polygons

  function Ys(env: Env, pts: seq<Pid>): (ys: seq<real>)
    ensures |ys| == |pts| && forall k :: 0 <= k < |pts| ==> ys[k] == env.loc(pts[k]).y
  {
    seq(|pts|, k requires 0 <= k < |pts| => env.loc(pts[k]).y)
  }

  /** `min(points, key=lambda p: p.y)`: the first point of least `y`;
      `min` of an empty list raises ValueError. */
  function FindLowestPoint(env: Env, points: seq<Pid>): (r: Result<Pid>)
    ensures r.Err? <==> |points| == 0
    ensures r.Err? ==> r.error == ValueError
    ensures r.Ok? ==> r.value in points
    ensures r.Ok? ==> forall q :: q in points ==> env.loc(r.value).y <= env.loc(q).y
    ensures r.Ok? ==> forall k :: 0 <= k < IndexOf(points, r.value) ==> env.loc(points[k]).y > env.loc(r.value).y
  {
    if |points| == 0 then Err(ValueError)
    else
      var i := FirstMinIndex(Ys(env, points));
      assert IndexOf(points, points[i]) <= i;
      Ok(points[i])
  }

  /** The test the scan applies to the top two hull points and a new point. */
  predicate TurnsLeft(env: Env, a: Pid, b: Pid, c: Pid)
  {
    NextPointCcw(env.loc(a), env.loc(b), env.loc(c))
  }

  /** The inner `while`: pop the stack until its top two points and `p`
      turn left; reading `convex_hull[-2]` on a one-point stack raises
      IndexError. */
  function PopUntilTurn(env: Env, hull: seq<Pid>, p: Pid): (r: Result<seq<Pid>>)
    ensures r.Err? ==> r.error == IndexError
    ensures r.Ok? ==> 2 <= |r.value| <= |hull| && r.value == hull[..|r.value|]
    ensures r.Ok? ==> TurnsLeft(env, r.value[|r.value| - 2], r.value[|r.value| - 1], p)
    decreases |hull|
  {
    if |hull| < 2 then Err(IndexError)
    else if TurnsLeft(env, hull[|hull| - 2], hull[|hull| - 1], p) then Ok(hull)
    else PopUntilTurn(env, hull[..|hull| - 1], p)
  }

  /** The `for` loop over the sorted points that remain: a stack of more
      than two points is popped first, then the point is pushed. */
  function ScanFrom(env: Env, hull: seq<Pid>, rest: seq<Pid>): Result<seq<Pid>>
    decreases |rest|
  {
    if |rest| == 0 then Ok(hull)
    else
      var popped := if |hull| > 2 then PopUntilTurn(env, hull, rest[0]) else Ok(hull);
      match popped
      case Err(e) => Err(e)
      case Ok(h) => ScanFrom(env, h + [rest[0]], rest[1..])
  }

  /** What `graham_scan(points)` returns, and what it leaves in the
      caller's list. */
  datatype Scan = Scan(hull: seq<Pid>, remaining: seq<Pid>)

  /** The scan as a value: take the anchor out, sort the rest by polar
      angle around it, pop the first sorted point onto the stack, and scan
      the others. */
  function GrahamScan(env: Env, points: seq<Pid>): Result<Scan>
  {
    match FindLowestPoint(env, points)
    case Err(e) => Err(e)
    case Ok(anchor) =>
      var sorted := env.polarSort(env.loc(anchor), RemoveFirst(points, anchor));
      if |sorted| == 0 then Err(IndexError)
      else
        match ScanFrom(env, [anchor, sorted[0]], sorted[1..])
        case Err(e) => Err(e)
        case Ok(h) => Ok(Scan(h, sorted[1..]))
  }

  /** What `graham_scan` leaves in the caller's list, whether it returns
      or raises: the list is untouched when it has no lowest point;
      otherwise the anchor is removed, the rest sorted in place, and the
      first sorted point popped when there is one. */
  function ScanLeftover(env: Env, points: seq<Pid>): seq<Pid>
  {
    match FindLowestPoint(env, points)
    case Err(_) => points
    case Ok(anchor) =>
      var sorted := env.polarSort(env.loc(anchor), RemoveFirst(points, anchor));
      if |sorted| == 0 then sorted else sorted[1..]
  }

  /** `graham_scan` as written. The index tests of the `for` body are
      always false (the index is below the length), so only the last
      branch runs; the TimeoutError the inner loop builds is never raised,
      and its `len(convex_hull) > 0` guard always holds. */
  method GrahamScanLoop(env: Env, points: seq<Pid>) returns (r: Result<Scan>, left: seq<Pid>)
    ensures r == GrahamScan(env, points)
    ensures left == ScanLeftover(env, points)
  {
    var lowest := FindLowestPoint(env, points);
    if lowest.Err? {
      return Err(lowest.error), points;
    }
    var anchor := lowest.value;
    var list := RemoveFirst(points, anchor);
    list := env.polarSort(env.loc(anchor), list);
    if |list| == 0 {
      return Err(IndexError), list;
    }
    var hull := [anchor, list[0]];
    list := list[1..];
    var index := 0;
    while index < |list|
      invariant 0 <= index <= |list|
      invariant ScanFrom(env, hull, list[index..]) == ScanFrom(env, [anchor, env.polarSort(env.loc(anchor), RemoveFirst(points, anchor))[0]], list)
    {
      var point := list[index];
      assert list[index..][1..] == list[index + 1..];
      if |hull| > 2 {
        ghost var before := hull;
        while true
          invariant PopUntilTurn(env, hull, point) == PopUntilTurn(env, before, point)
          decreases |hull|
        {
          if |hull| < 2 {
            return Err(IndexError), list;
          }
          if TurnsLeft(env, hull[|hull| - 2], hull[|hull| - 1], point) {
            break;
          }
          hull := hull[..|hull| - 1];
        }
      }
      hull := hull + [point];
      index := index + 1;
    }
    return Ok(Scan(hull, list)), list;
  }

  /** From the fourth point on, every point of the stack turns left from
      the two below it; the first three are pushed without a test. */
  predicate LeftTurnsFrom3(env: Env, hull: seq<Pid>)
  {
    forall t :: 3 <= t < |hull| ==> TurnsLeft(env, hull[t - 2], hull[t - 1], hull[t])
  }

  lemma {:induction false} ScanFromShape(env: Env, hull: seq<Pid>, rest: seq<Pid>, pool: multiset<Pid>)
    requires |hull| >= 2 && LeftTurnsFrom3(env, hull)
    requires forall q :: q in hull || q in rest ==> q in pool
    ensures var r := ScanFrom(env, hull, rest);
      r.Ok? ==> (|r.value| >= 2 && r.value[0] == hull[0] && LeftTurnsFrom3(env, r.value) &&
                 forall q :: q in r.value ==> q in pool)
    decreases |rest|
  {
    if |rest| > 0 {
      var popped := if |hull| > 2 then PopUntilTurn(env, hull, rest[0]) else Ok(hull);
      if popped.Ok? {
        var h := popped.value;
        PushKeepsTurns(env, hull, h, rest[0]);
        assert forall q :: q in rest[1..] ==> q in rest;
        ScanFromShape(env, h + [rest[0]], rest[1..], pool);
        assert ScanFrom(env, hull, rest) == ScanFrom(env, h + [rest[0]], rest[1..]);
      }
    }
  }

  /** Pushing onto a prefix of the stack whose top two turn left to the
      new point keeps every turn left and the bottom point. */
  lemma PushKeepsTurns(env: Env, hull: seq<Pid>, h: seq<Pid>, p: Pid)
    requires LeftTurnsFrom3(env, hull) && 2 <= |h| <= |hull| && h == hull[..|h|]
    requires |h| >= 3 ==> TurnsLeft(env, h[|h| - 2], h[|h| - 1], p)
    ensures var next := h + [p];
      LeftTurnsFrom3(env, next) && next[0] == hull[0] && forall q :: q in next ==> q in hull || q == p
  {
    var next := h + [p];
    forall t | 3 <= t < |next|
      ensures TurnsLeft(env, next[t - 2], next[t - 1], next[t])
    {
      if t < |h| {
        assert next[t - 2] == hull[t - 2] && next[t - 1] == hull[t - 1] && next[t] == hull[t];
      }
    }
    forall q | q in next ensures q in hull || q == p {
      if q in h {
        assert q in hull;
      }
    }
  }

  /** What the scan promises: the hull starts with the lowest point, has
      at least two points, all taken from the input, and turns left from
      its fourth point on. Whether the scan returns or raises, the
      caller's list keeps all but two of its points (none of an empty or
      single-point list), and on success that list holds neither the
      anchor nor one more input point. An empty input raises ValueError
      and a single point IndexError. */
  lemma GrahamScanShape(env: Env, points: seq<Pid>)
    requires EnvOk(env)
    ensures |points| == 0 ==> GrahamScan(env, points) == Err(ValueError)
    ensures |points| == 1 ==> GrahamScan(env, points) == Err(IndexError)
    ensures var r := GrahamScan(env, points);
      r.Ok? ==> (|r.value.hull| >= 2 && Ok(r.value.hull[0]) == FindLowestPoint(env, points) &&
                 LeftTurnsFrom3(env, r.value.hull) &&
                 (forall q :: q in r.value.hull ==> q in points) &&
                 |r.value.remaining| == |points| - 2 &&
                 multiset(r.value.remaining) + multiset{r.value.hull[0]} <= multiset(points))
    ensures GrahamScan(env, points).Ok? ==> GrahamScan(env, points).value.remaining == ScanLeftover(env, points)
    ensures |ScanLeftover(env, points)| == if |points| <= 1 then 0 else |points| - 2
  {
    if |points| > 0 {
      var anchor := FindLowestPoint(env, points).value;
      var sorted := env.polarSort(env.loc(anchor), RemoveFirst(points, anchor));
      assert multiset(sorted) == multiset(RemoveFirst(points, anchor));
      if |sorted| > 0 {
        var pool := multiset(points);
        SortedFromPool(points, anchor, sorted);
        ScanFromShape(env, [anchor, sorted[0]], sorted[1..], pool);
        assert GrahamScan(env, points) == match ScanFrom(env, [anchor, sorted[0]], sorted[1..])
                                          case Err(e) => Err(e)
                                          case Ok(h) => Ok(Scan(h, sorted[1..]));
      } else {
        assert |points| == 1 by {
          assert |multiset(sorted)| == |multiset(RemoveFirst(points, anchor))|;
        }
      }
    }
  }

  /** The points the sort hands back come from the input, less the
      anchor. */
  lemma SortedFromPool(points: seq<Pid>, anchor: Pid, sorted: seq<Pid>)
    requires anchor in points && |sorted| > 0 && multiset(sorted) == multiset(RemoveFirst(points, anchor))
    ensures |sorted| + 1 == |points|
    ensures forall q :: q in [anchor, sorted[0]] || q in sorted[1..] ==> q in multiset(points)
    ensures multiset(sorted[1..]) + multiset{anchor} <= multiset(points)
  {
    var removed := RemoveFirst(points, anchor);
    assert |sorted| == |removed| by {
      assert |multiset(sorted)| == |multiset(removed)|;
    }
    RemoveFirstMultiset(points, anchor);
    assert multiset(removed) + multiset{anchor} == multiset(points);
    forall q | q in sorted ensures q in multiset(points) {
      assert q in multiset(removed);
    }
    assert sorted == [sorted[0]] + sorted[1..];
    assert multiset(sorted[1..]) <= multiset(sorted);
  }

  /** The vertices among `vs` that `find_closest_reachable_point` keeps:
      those from which the straight line to `target` does not cross the
      polygon. */
  function Reachable(env: Env, poly: seq<Pid>, vs: seq<Pid>, target: Pid): (rs: seq<Pid>)
    requires IsRing(poly)
    ensures forall q :: q in rs <==> q in vs && !Crosses(env, poly, q, target)
  {
    if |vs| == 0 then []
    else
      var tail := Reachable(env, poly, vs[..|vs| - 1], target);
      assert forall q :: q in vs <==> q in vs[..|vs| - 1] || q == vs[|vs| - 1];
      if Crosses(env, poly, vs[|vs| - 1], target) then tail else tail + [vs[|vs| - 1]]
  }

  function Distances(env: Env, target: Pid, rs: seq<Pid>): (ds: seq<real>)
    ensures |ds| == |rs| && forall k :: 0 <= k < |rs| ==> ds[k] == env.dist(env.loc(target), env.loc(rs[k]))
  {
    seq(|rs|, k requires 0 <= k < |rs| => env.dist(env.loc(target), env.loc(rs[k])))
  }

  /** `find_closest_reachable_point(target, polygon)` as a value. */
  function ClosestReachable(env: Env, poly: seq<Pid>, target: Pid): Result<Pid>
    requires IsRing(poly)
  {
    var rs := Reachable(env, poly, poly, target);
    if |rs| == 0 then Err(ValueError) else Ok(rs[FirstMinIndex(Distances(env, target, rs))])
  }

  /** The loop collects the reachable vertices with their distances, then
      `min` picks the first of the closest. */
  method FindClosestReachablePoint(env: Env, poly: seq<Pid>, target: Pid) returns (r: Result<Pid>)
    requires IsRing(poly)
    ensures r == ClosestReachable(env, poly, target)
  {
    var candidates: seq<Pid> := [];
    var k := 0;
    while k < |poly|
      invariant 0 <= k <= |poly|
      invariant candidates == Reachable(env, poly, poly[..k], target)
    {
      var obstructed := LineThroughPolygon(env, poly, poly[k], target);
      if !obstructed {
        candidates := candidates + [poly[k]];
      }
      assert poly[..k + 1][..k] == poly[..k];
      k := k + 1;
    }
    assert poly[..k] == poly;
    if |candidates| == 0 {
      return Err(ValueError);
    }
    r := Ok(candidates[FirstMinIndex(Distances(env, target, candidates))]);
  }

  /** The returned vertex can be reached and no reachable vertex is
      closer; ValueError exactly when every vertex is obstructed. */
  lemma ClosestReachableSpec(env: Env, poly: seq<Pid>, target: Pid)
    requires IsRing(poly)
    ensures var r := ClosestReachable(env, poly, target);
      (r.Err? <==> forall q :: q in poly ==> Crosses(env, poly, q, target)) &&
      (r.Err? ==> r.error == ValueError) &&
      (r.Ok? ==> (r.value in poly && !Crosses(env, poly, r.value, target) &&
                  forall q :: q in poly && !Crosses(env, poly, q, target) ==>
                    env.dist(env.loc(target), env.loc(r.value)) <= env.dist(env.loc(target), env.loc(q))))
  {
    var rs := Reachable(env, poly, poly, target);
    if |rs| > 0 {
      var ds := Distances(env, target, rs);
      var i := FirstMinIndex(ds);
      forall q | q in poly && !Crosses(env, poly, q, target)
        ensures ds[i] <= env.dist(env.loc(target), env.loc(q))
      {
        var m :| 0 <= m < |rs| && rs[m] == q;
        assert ds[i] <= ds[m];
      }
    } else {
      forall q | q in poly ensures Crosses(env, poly, q, target) {
        assert q !in rs;
      }
    }
  }
}
