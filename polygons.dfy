/** polygons.py: the queries a `Polygon` answers about a point or a line.
    A polygon is the ring of its vertex ids; edge i joins vertex i to
    vertex i + 1, and the closing edge joins the last vertex to the first.
    The queries are loops with early returns: each has a reference
    definition (a function) and a method with the loop, proved equal. */
module Polygons {
  import opened Common
  import opened Geometry

  /** A ring the edge loops can walk: `zip(points, points[1:] + [points[0]])`
      raises IndexError on an empty list, and the source's polygons have
      at least three vertices. */
  predicate IsRing(poly: seq<Pid>) { |poly| > 0 }

  predicate AllRings(polys: seq<seq<Pid>>)
  {
    forall i :: 0 <= i < |polys| ==> IsRing(polys[i])
  }

  /** Index of the other end of edge i. */
  function Next(n: nat, i: nat): (j: nat)
    requires i < n
    ensures j < n
    ensures j == (i + 1) % n
  {
    if i + 1 == n then 0 else i + 1
  }

  /** The coordinates handed to Shapely. */
  function Coords(env: Env, poly: seq<Pid>): (cs: seq<Coord>)
    ensures |cs| == |poly|
    ensures forall i :: 0 <= i < |poly| ==> cs[i] == env.loc(poly[i])
  {
    seq(|poly|, i requires 0 <= i < |poly| => env.loc(poly[i]))
  }

  /** Some edge (a, b) of the ring, closing edge included, passes `test`. */
  predicate SomeEdge(poly: seq<Pid>, test: (Pid, Pid) -> bool)
    requires IsRing(poly)
  {
    exists i :: 0 <= i < |poly| && test(poly[i], poly[Next(|poly|, i)])
  }

  /** The edge loop `for a, b in zip(...): if test: return`, shared by
      every query below. */
  method ScanEdges(poly: seq<Pid>, test: (Pid, Pid) -> bool) returns (found: bool)
    requires IsRing(poly)
    ensures found <==> exists i :: 0 <= i < |poly| && test(poly[i], poly[Next(|poly|, i)])
  {
    var i := 0;
    while i < |poly|
      invariant 0 <= i <= |poly|
      invariant forall k :: 0 <= k < i ==> !test(poly[k], poly[Next(|poly|, k)])
    {
      if test(poly[i], poly[Next(|poly|, i)]) {
        return true;
      }
      i := i + 1;
    }
    return false;
  }

  /** `point_is_on_edge`: some ring edge passes `is_between_points`. */
  predicate OnEdge(env: Env, poly: seq<Pid>, c: Coord)
    requires IsRing(poly)
  {
    SomeEdge(poly, (a: Pid, b: Pid) => IsBetweenPoints(env.loc(a), env.loc(b), c))
  }

  method PointIsOnEdge(env: Env, poly: seq<Pid>, c: Coord) returns (r: bool)
    requires IsRing(poly)
    ensures r <==> (exists i :: 0 <= i < |poly| &&
                     IsBetweenPoints(env.loc(poly[i]), env.loc(poly[Next(|poly|, i)]), c))
  {
    r := ScanEdges(poly, (a: Pid, b: Pid) => IsBetweenPoints(env.loc(a), env.loc(b), c));
  }

  /** Every vertex lies on the edge that starts at it. */
  lemma VertexIsOnEdge(env: Env, poly: seq<Pid>, i: nat)
    requires IsRing(poly) && i < |poly|
    ensures OnEdge(env, poly, env.loc(poly[i]))
  {
    EndpointsAreBetween(env.loc(poly[i]), env.loc(poly[Next(|poly|, i)]));
  }

  lemma MemberIsOnEdge(env: Env, poly: seq<Pid>, p: Pid)
    requires IsRing(poly) && p in poly
    ensures OnEdge(env, poly, env.loc(p))
  {
    VertexIsOnEdge(env, poly, IndexOf(poly, p));
  }

  /** `check_if_contains_point`: with `exclude_edges`, a point on any ring
      edge is not contained; otherwise Shapely's `within` decides. */
  predicate Contains(env: Env, poly: seq<Pid>, c: Coord, excludeEdges: bool)
    requires IsRing(poly)
  {
    if excludeEdges && OnEdge(env, poly, c) then false
    else env.within(Coords(env, poly), c)
  }

  method CheckIfContainsPoint(env: Env, poly: seq<Pid>, c: Coord, excludeEdges: bool) returns (r: bool)
    requires IsRing(poly)
    ensures r == Contains(env, poly, c, excludeEdges)
  {
    if excludeEdges {
      var onEdge := PointIsOnEdge(env, poly, c);
      if onEdge {
        return false;
      }
    }
    r := env.within(Coords(env, poly), c);
  }

  /** With `exclude_edges`, no point on an edge (closing edge included) is
      reported as contained, whatever Shapely says. */
  lemma {:induction false} EdgePointsNotContained(env: Env, poly: seq<Pid>, i: nat, c: Coord)
    requires IsRing(poly) && i < |poly|
    requires IsBetweenPoints(env.loc(poly[i]), env.loc(poly[Next(|poly|, i)]), c)
    ensures !Contains(env, poly, c, true)
  {
    var test := (a: Pid, b: Pid) => IsBetweenPoints(env.loc(a), env.loc(b), c);
    assert test(poly[i], poly[Next(|poly|, i)]);
  }

  /** The k-th sample `p_1 * lamb + p_2 * (1 - lamb)` with lamb = k/100. */
  function Sample(c1: Coord, c2: Coord, k: int): Coord
  {
    var lamb := k as real / 100.0;
    Coord(c1.x * lamb + c2.x * (1.0 - lamb), c1.y * lamb + c2.y * (1.0 - lamb))
  }

  /** `check_if_can_connect_edge_points`: none of the 99 samples at
      lamb = 0.01, ..., 0.99 is contained (edges excluded). */
  predicate CanConnect(env: Env, poly: seq<Pid>, p1: Pid, p2: Pid)
    requires IsRing(poly)
  {
    forall k :: 1 <= k <= 99 ==> !Contains(env, poly, Sample(env.loc(p1), env.loc(p2), k), true)
  }

  method CheckIfCanConnectEdgePoints(env: Env, poly: seq<Pid>, p1: Pid, p2: Pid) returns (r: bool)
    requires IsRing(poly)
    ensures !r <==> (exists k :: 1 <= k <= 99 &&
                      Contains(env, poly, Sample(env.loc(p1), env.loc(p2), k), true))
  {
    var k := 1;
    while k < 100
      invariant 1 <= k <= 100
      invariant forall j :: 1 <= j < k ==> !Contains(env, poly, Sample(env.loc(p1), env.loc(p2), j), true)
    {
      var inside := CheckIfContainsPoint(env, poly, Sample(env.loc(p1), env.loc(p2), k), true);
      if inside {
        return false;
      }
      k := k + 1;
    }
    return true;
  }

  lemma SampleMirror(c1: Coord, c2: Coord, k: int)
    ensures Sample(c1, c2, k) == Sample(c2, c1, 100 - k)
  {
    var lamb := k as real / 100.0;
    var mu := (100 - k) as real / 100.0;
    assert mu == 1.0 - lamb;
    assert 1.0 - mu == lamb;
    assert Sample(c2, c1, 100 - k) == Coord(c2.x * mu + c1.x * (1.0 - mu), c2.y * mu + c1.y * (1.0 - mu));
    assert Sample(c1, c2, k) == Coord(c1.x * lamb + c2.x * (1.0 - lamb), c1.y * lamb + c2.y * (1.0 - lamb));
  }

  /** The samples from p2 to p1 are those from p1 to p2, mirrored. */
  lemma CanConnectSymmetric(env: Env, poly: seq<Pid>, p1: Pid, p2: Pid)
    requires IsRing(poly)
    ensures CanConnect(env, poly, p1, p2) == CanConnect(env, poly, p2, p1)
  {
    if CanConnect(env, poly, p1, p2) {
      forall k | 1 <= k <= 99
        ensures !Contains(env, poly, Sample(env.loc(p2), env.loc(p1), k), true)
      {
        SampleMirror(env.loc(p2), env.loc(p1), k);
        assert 1 <= 100 - k <= 99;
      }
    } else if CanConnect(env, poly, p2, p1) {
      forall k | 1 <= k <= 99
        ensures !Contains(env, poly, Sample(env.loc(p1), env.loc(p2), k), true)
      {
        SampleMirror(env.loc(p1), env.loc(p2), k);
        assert 1 <= 100 - k <= 99;
      }
    }
  }

  /** The per-edge test of case 1.3: p1 is an end of the edge and p2 lies
      on it, or the converse, or both lie on it. */
  predicate SharedEdgeVertex(env: Env, p1: Pid, p2: Pid, a: Pid, b: Pid)
  {
    ((p1 == a || p1 == b) && IsBetweenPoints(env.loc(a), env.loc(b), env.loc(p2))) ||
    ((p2 == a || p2 == b) && IsBetweenPoints(env.loc(a), env.loc(b), env.loc(p1))) ||
    (IsBetweenPoints(env.loc(a), env.loc(b), env.loc(p1)) &&
     IsBetweenPoints(env.loc(a), env.loc(b), env.loc(p2)))
  }

  /** The per-edge test of case 1.4a: both points lie on the edge. */
  predicate SharedEdge(env: Env, p1: Pid, p2: Pid, a: Pid, b: Pid)
  {
    IsBetweenPoints(env.loc(a), env.loc(b), env.loc(p1)) &&
    IsBetweenPoints(env.loc(a), env.loc(b), env.loc(p2))
  }

  /** The per-edge test of case 2.1: the line is the edge, either way. */
  predicate IsEdge(p1: Pid, p2: Pid, a: Pid, b: Pid)
  {
    (p1 == a && p2 == b) || (p1 == b && p2 == a)
  }

  /** The per-edge test of case 3: `check_if_lines_intersect`. */
  predicate EdgeIntersects(env: Env, p1: Pid, p2: Pid, a: Pid, b: Pid)
  {
    LinesIntersect(env.loc(a), env.loc(b), env.loc(p1), env.loc(p2))
  }

  /** Cases 2 and 3 of `check_if_line_through_polygon`, reached when no
      earlier case returned. */
  predicate VertexOrCrossingCase(env: Env, poly: seq<Pid>, p1: Pid, p2: Pid)
    requires IsRing(poly)
  {
    if p1 in poly && p2 in poly then
      if SomeEdge(poly, (a: Pid, b: Pid) => IsEdge(p1, p2, a, b)) then false
      else !CanConnect(env, poly, p1, p2)
    else SomeEdge(poly, (a: Pid, b: Pid) => EdgeIntersects(env, p1, p2, a, b))
  }

  /** `check_if_line_through_polygon(p_1, p_2)`: the ordered cascade of
      cases 1.1 (an endpoint contained), 1.2 (the same point), 1.3 (a
      vertex and an edge point), 1.4 (two edge points); when 1.3 or 1.4
      finds the samples free it falls through to cases 2 (two vertices)
      and 3 (the general edge intersection test). */
  predicate Crosses(env: Env, poly: seq<Pid>, p1: Pid, p2: Pid)
    requires IsRing(poly)
  {
    var c1, c2 := env.loc(p1), env.loc(p2);
    if Contains(env, poly, c1, true) || Contains(env, poly, c2, true) then true
    else if p1 == p2 then false
    else if (p1 in poly && OnEdge(env, poly, c2)) || (OnEdge(env, poly, c1) && p2 in poly) then
      EdgeCase(env, poly, p1, p2, SomeEdge(poly, (a: Pid, b: Pid) => SharedEdgeVertex(env, p1, p2, a, b)))
    else if OnEdge(env, poly, c1) && OnEdge(env, poly, c2) then
      EdgeCase(env, poly, p1, p2, SomeEdge(poly, (a: Pid, b: Pid) => SharedEdge(env, p1, p2, a, b)))
    else VertexOrCrossingCase(env, poly, p1, p2)
  }

  /** Cases 1.3 and 1.4 once it is known whether the points share an
      edge: then the line runs along it; otherwise it crosses when a
      sample between the points is inside, else cases 2 and 3 decide. */
  predicate EdgeCase(env: Env, poly: seq<Pid>, p1: Pid, p2: Pid, shared: bool)
    requires IsRing(poly)
  {
    if shared then false
    else if !CanConnect(env, poly, p1, p2) then true
    else VertexOrCrossingCase(env, poly, p1, p2)
  }

  /** The tail of cases 1.3 and 1.4 with its loops. */
  method EdgeCaseLoops(env: Env, poly: seq<Pid>, p1: Pid, p2: Pid, shared: bool) returns (r: bool)
    requires IsRing(poly)
    ensures r == EdgeCase(env, poly, p1, p2, shared)
  {
    if shared {
      return false;
    }
    var free := CheckIfCanConnectEdgePoints(env, poly, p1, p2);
    if !free {
      return true;
    }
    r := VertexOrCrossing(env, poly, p1, p2);
  }

  /** The loops of cases 2 and 3. */
  method VertexOrCrossing(env: Env, poly: seq<Pid>, p1: Pid, p2: Pid) returns (r: bool)
    requires IsRing(poly)
    ensures r == VertexOrCrossingCase(env, poly, p1, p2)
  {
    if p1 in poly && p2 in poly {
      var traversesEdge := ScanEdges(poly, (a: Pid, b: Pid) => IsEdge(p1, p2, a, b));
      if traversesEdge {
        return false;
      }
      var free := CheckIfCanConnectEdgePoints(env, poly, p1, p2);
      return !free;
    }
    r := ScanEdges(poly, (a: Pid, b: Pid) => EdgeIntersects(env, p1, p2, a, b));
  }

  /** The case cascade with its loops, for two given points. */
  method LineThroughPolygon(env: Env, poly: seq<Pid>, p1: Pid, p2: Pid) returns (r: bool)
    requires IsRing(poly)
    ensures r == Crosses(env, poly, p1, p2)
  {
    var in1 := CheckIfContainsPoint(env, poly, env.loc(p1), true);
    var in2 := CheckIfContainsPoint(env, poly, env.loc(p2), true);
    if in1 || in2 {
      return true;
    }
    if p1 == p2 {
      return false;
    }
    var on1 := PointIsOnEdge(env, poly, env.loc(p1));
    var on2 := PointIsOnEdge(env, poly, env.loc(p2));
    if (p1 in poly && on2) || (on1 && p2 in poly) {
      var same := ScanEdges(poly, (a: Pid, b: Pid) => SharedEdgeVertex(env, p1, p2, a, b));
      r := EdgeCaseLoops(env, poly, p1, p2, same);
    } else if on1 && on2 {
      var same := ScanEdges(poly, (a: Pid, b: Pid) => SharedEdge(env, p1, p2, a, b));
      r := EdgeCaseLoops(env, poly, p1, p2, same);
    } else {
      r := VertexOrCrossing(env, poly, p1, p2);
    }
  }

  /** `check_if_line_through_polygon(p_1=None, p_2=None, line=None)`: the
      two points, or else `line[0]` and `line[1]`, or AttributeError. */
  method CheckIfLineThroughPolygon(env: Env, poly: seq<Pid>, p1: Option<Pid>, p2: Option<Pid>,
                                   line: Option<seq<Pid>>) returns (r: Result<bool>)
    requires IsRing(poly)
    ensures (p1.None? || p2.None?) && line.None? ==> r == Err(AttributeError)
    ensures p1.Some? && p2.Some? ==> r == Ok(Crosses(env, poly, p1.value, p2.value))
    ensures (p1.None? || p2.None?) && line.Some? ==>
      r == if |line.value| < 2 then Err(IndexError)
           else Ok(Crosses(env, poly, line.value[0], line.value[1]))
  {
    if (p1.None? || p2.None?) && line.None? {
      return Err(AttributeError);
    }
    var a, b;
    if p1.None? || p2.None? {
      if |line.value| < 2 {
        return Err(IndexError);
      }
      a, b := line.value[0], line.value[1];
    } else {
      a, b := p1.value, p2.value;
    }
    var crosses := LineThroughPolygon(env, poly, a, b);
    r := Ok(crosses);
  }

  /** Case 1.1 and case 1.2. */
  lemma DegenerateLines(env: Env, poly: seq<Pid>, p1: Pid, p2: Pid)
    requires IsRing(poly)
    ensures Contains(env, poly, env.loc(p1), true) ==> Crosses(env, poly, p1, p2)
    ensures Contains(env, poly, env.loc(p2), true) ==> Crosses(env, poly, p1, p2)
    ensures !Contains(env, poly, env.loc(p1), true) ==> !Crosses(env, poly, p1, p1)
  {
  }

  /** Walking along an edge of the ring, in either direction and closing
      edge included, never crosses the polygon (unless an endpoint is
      contained, which on an edge it cannot be). */
  lemma {:induction false} AdjacentVerticesDoNotCross(env: Env, poly: seq<Pid>, i: nat)
    requires IsRing(poly) && i < |poly|
    ensures !Crosses(env, poly, poly[i], poly[Next(|poly|, i)])
    ensures !Crosses(env, poly, poly[Next(|poly|, i)], poly[i])
  {
    var j := Next(|poly|, i);
    var p, q := poly[i], poly[j];
    VertexIsOnEdge(env, poly, i);
    VertexIsOnEdge(env, poly, j);
    EndpointsAreBetween(env.loc(p), env.loc(q));
    assert SharedEdgeVertex(env, p, q, p, q);
    assert SharedEdgeVertex(env, q, p, p, q);
    var t1 := (a: Pid, b: Pid) => SharedEdgeVertex(env, p, q, a, b);
    var t2 := (a: Pid, b: Pid) => SharedEdgeVertex(env, q, p, a, b);
    assert t1(poly[i], poly[j]) && t2(poly[i], poly[j]);
  }

  /** The general case: when neither endpoint is contained and one of
      them lies on no edge, the answer is whether some ring edge meets
      the line by `check_if_lines_intersect`. */
  lemma {:induction false} GeneralCase(env: Env, poly: seq<Pid>, p1: Pid, p2: Pid)
    requires IsRing(poly)
    requires !Contains(env, poly, env.loc(p1), true) && !Contains(env, poly, env.loc(p2), true)
    requires p1 != p2
    requires !OnEdge(env, poly, env.loc(p1)) || !OnEdge(env, poly, env.loc(p2))
    ensures Crosses(env, poly, p1, p2) <==>
      exists i :: 0 <= i < |poly| &&
        LinesIntersect(env.loc(poly[i]), env.loc(poly[Next(|poly|, i)]), env.loc(p1), env.loc(p2))
  {
    if p1 in poly { MemberIsOnEdge(env, poly, p1); }
    if p2 in poly { MemberIsOnEdge(env, poly, p2); }
  }

  /** Reversing the second segment does not change `do_intersect`. */
  lemma DoIntersectReverseSecond(p1: Coord, q1: Coord, p2: Coord, q2: Coord)
    ensures DoIntersect(p1, q1, p2, q2) == DoIntersect(p1, q1, q2, p2)
  {
    CcwSwapFirst(p2, q2, p1);
    CcwSwapFirst(p2, q2, q1);
  }

  lemma ShrinkReversed(a: Coord, b: Coord)
    ensures ShrinkStart(b, a) == ShrinkEnd(a, b) && ShrinkEnd(b, a) == ShrinkStart(a, b)
  {
  }

  /** The classifier does not depend on the direction of the line. */
  lemma {:induction false} CrossesSymmetric(env: Env, poly: seq<Pid>, p1: Pid, p2: Pid)
    requires IsRing(poly)
    ensures Crosses(env, poly, p1, p2) == Crosses(env, poly, p2, p1)
  {
    EdgeTestsSymmetric(env, poly, p1, p2);
    CanConnectSymmetric(env, poly, p1, p2);
    assert VertexOrCrossingCase(env, poly, p1, p2) == VertexOrCrossingCase(env, poly, p2, p1);
    assert EdgeCase(env, poly, p1, p2, true) == EdgeCase(env, poly, p2, p1, true);
    assert EdgeCase(env, poly, p1, p2, false) == EdgeCase(env, poly, p2, p1, false);
  }

  /** Each per-edge test of the classifier gives the same answer on some
      edge for the line in either direction. */
  lemma EdgeTestsSymmetric(env: Env, poly: seq<Pid>, p1: Pid, p2: Pid)
    requires IsRing(poly)
    ensures SomeEdge(poly, (a: Pid, b: Pid) => SharedEdgeVertex(env, p1, p2, a, b))
         == SomeEdge(poly, (a: Pid, b: Pid) => SharedEdgeVertex(env, p2, p1, a, b))
    ensures SomeEdge(poly, (a: Pid, b: Pid) => SharedEdge(env, p1, p2, a, b))
         == SomeEdge(poly, (a: Pid, b: Pid) => SharedEdge(env, p2, p1, a, b))
    ensures SomeEdge(poly, (a: Pid, b: Pid) => IsEdge(p1, p2, a, b))
         == SomeEdge(poly, (a: Pid, b: Pid) => IsEdge(p2, p1, a, b))
    ensures SomeEdge(poly, (a: Pid, b: Pid) => EdgeIntersects(env, p1, p2, a, b))
         == SomeEdge(poly, (a: Pid, b: Pid) => EdgeIntersects(env, p2, p1, a, b))
  {
    var n := |poly|;
    forall i | 0 <= i < n
      ensures SharedEdgeVertex(env, p1, p2, poly[i], poly[Next(n, i)])
          == SharedEdgeVertex(env, p2, p1, poly[i], poly[Next(n, i)])
      ensures SharedEdge(env, p1, p2, poly[i], poly[Next(n, i)])
          == SharedEdge(env, p2, p1, poly[i], poly[Next(n, i)])
      ensures IsEdge(p1, p2, poly[i], poly[Next(n, i)]) == IsEdge(p2, p1, poly[i], poly[Next(n, i)])
      ensures EdgeIntersects(env, p1, p2, poly[i], poly[Next(n, i)])
          == EdgeIntersects(env, p2, p1, poly[i], poly[Next(n, i)])
    {
      var a, b := env.loc(poly[i]), env.loc(poly[Next(n, i)]);
      var c1, c2 := env.loc(p1), env.loc(p2);
      ShrinkReversed(c1, c2);
      DoIntersectReverseSecond(ShrinkStart(a, b), ShrinkEnd(a, b), ShrinkStart(c1, c2), ShrinkEnd(c1, c2));
    }
    SomeEdgeSame(poly, (a: Pid, b: Pid) => SharedEdgeVertex(env, p1, p2, a, b), (a: Pid, b: Pid) => SharedEdgeVertex(env, p2, p1, a, b));
    SomeEdgeSame(poly, (a: Pid, b: Pid) => SharedEdge(env, p1, p2, a, b), (a: Pid, b: Pid) => SharedEdge(env, p2, p1, a, b));
    SomeEdgeSame(poly, (a: Pid, b: Pid) => IsEdge(p1, p2, a, b), (a: Pid, b: Pid) => IsEdge(p2, p1, a, b));
    SomeEdgeSame(poly, (a: Pid, b: Pid) => EdgeIntersects(env, p1, p2, a, b), (a: Pid, b: Pid) => EdgeIntersects(env, p2, p1, a, b));
  }

  lemma SomeEdgeSame(poly: seq<Pid>, t1: (Pid, Pid) -> bool, t2: (Pid, Pid) -> bool)
    requires IsRing(poly)
    requires forall i :: 0 <= i < |poly| ==> t1(poly[i], poly[Next(|poly|, i)]) == t2(poly[i], poly[Next(|poly|, i)])
    ensures SomeEdge(poly, t1) == SomeEdge(poly, t2)
  {
  }

  /** `check_if_point_in_polygons`: some polygon contains the point. */
  predicate InAnyPolygon(env: Env, polys: seq<seq<Pid>>, c: Coord, excludeEdges: bool)
    requires AllRings(polys)
  {
    exists i :: 0 <= i < |polys| && Contains(env, polys[i], c, excludeEdges)
  }

  method CheckIfPointInPolygons(env: Env, polys: seq<seq<Pid>>, c: Coord, excludeEdges: bool) returns (r: bool)
    requires AllRings(polys)
    ensures r <==> exists i :: 0 <= i < |polys| && Contains(env, polys[i], c, excludeEdges)
  {
    var i := 0;
    while i < |polys|
      invariant 0 <= i <= |polys|
      invariant forall k :: 0 <= k < i ==> !Contains(env, polys[k], c, excludeEdges)
    {
      var inside := CheckIfContainsPoint(env, polys[i], c, excludeEdges);
      if inside {
        return true;
      }
      i := i + 1;
    }
    return false;
  }
}
