/** The segment predicates of general_maths.py: the cross-product
    orientation test, the point-on-segment test with its 0.001 tolerance,
    the four-orientation segment intersection test, and the shortening of
    both segments to their 0.1%..99.9% part before that test. */
module Geometry {
  import opened Common

  /** Tolerance on the cross product in `is_between_points`. */
  const COLLINEAR_TOLERANCE: real := 0.001
  /** Fraction cut off each end of a segment before intersecting. */
  const SHRINK: real := 0.001

  /** `ccw(a, b, c)`: twice the signed area of the triangle a, b, c. */
  function Ccw(a: Coord, b: Coord, c: Coord): real
  {
    (b.x - a.x) * (c.y - a.y) - (b.y - a.y) * (c.x - a.x)
  }

  /** `orientation(p, q, r)`: 1, -1 or 0 by the sign of `ccw`. */
  function Orientation(p: Coord, q: Coord, r: Coord): (o: int)
    ensures o == 1 <==> Ccw(p, q, r) > 0.0
    ensures o == -1 <==> Ccw(p, q, r) < 0.0
    ensures o == 0 <==> Ccw(p, q, r) == 0.0
  {
    var v := Ccw(p, q, r);
    if v > 0.0 then 1 else if v < 0.0 then -1 else 0
  }

  lemma CcwSwap(p: Coord, q: Coord, r: Coord)
    ensures Ccw(p, r, q) == -Ccw(p, q, r)
  {
    var a, b := q.x - p.x, q.y - p.y;
    var c, d := r.x - p.x, r.y - p.y;
    assert Ccw(p, q, r) == a * d - b * c;
    assert Ccw(p, r, q) == c * b - d * a;
  }

  lemma CcwSwapFirst(a: Coord, b: Coord, c: Coord)
    ensures Ccw(b, a, c) == -Ccw(a, b, c)
  {
    var dx, dy := b.x - a.x, b.y - a.y;
    var ex, ey := c.x - a.x, c.y - a.y;
    assert Ccw(a, b, c) == dx * ey - dy * ex;
    assert Ccw(b, a, c) == (-dx) * (ey - dy) - (-dy) * (ex - dx);
    assert (-dx) * (ey - dy) == -(dx * ey) + dx * dy;
    assert (-dy) * (ex - dx) == -(dy * ex) + dy * dx;
  }

  /** Swapping the last two points reverses the turn. */
  lemma OrientationSwap(p: Coord, q: Coord, r: Coord)
    ensures Orientation(p, r, q) == -Orientation(p, q, r)
  {
    CcwSwap(p, q, r);
  }

  /** `next_point_ccw`: a strict left turn; collinear counts as not. */
  function NextPointCcw(a: Coord, b: Coord, c: Coord): (left: bool)
    ensures left <==> Orientation(a, b, c) == 1
  {
    Ccw(a, b, c) > 0.0
  }

  function Max(a: real, b: real): real { if a >= b then a else b }
  function Min(a: real, b: real): real { if a <= b then a else b }

  /** `shared_segment(p, q, r)`: q lies in the bounding box of p and r. */
  function SharedSegment(p: Coord, q: Coord, r: Coord): (inBox: bool)
    ensures inBox <==>
      ((p.x <= q.x <= r.x || r.x <= q.x <= p.x) && (p.y <= q.y <= r.y || r.y <= q.y <= p.y))
  {
    Max(p.x, r.x) >= q.x >= Min(p.x, r.x) && Max(p.y, r.y) >= q.y >= Min(p.y, r.y)
  }

  /** `do_intersect(p1, q1, p2, q2)`: the general four-orientation case
      followed by the four collinear bounding-box cases, in that order. */
  function DoIntersect(p1: Coord, q1: Coord, p2: Coord, q2: Coord): bool
  {
    var o1 := Orientation(p1, q1, p2);
    var o2 := Orientation(p1, q1, q2);
    var o3 := Orientation(p2, q2, p1);
    var o4 := Orientation(p2, q2, q1);
    if o1 != o2 && o3 != o4 then true
    else if o1 == 0 && SharedSegment(p1, p2, q1) then true
    else if o2 == 0 && SharedSegment(p1, q2, q1) then true
    else if o3 == 0 && SharedSegment(p2, p1, q2) then true
    else if o4 == 0 && SharedSegment(p2, q1, q2) then true
    else false
  }

  /** The test does not depend on which segment is given first. */
  lemma DoIntersectSymmetric(p1: Coord, q1: Coord, p2: Coord, q2: Coord)
    ensures DoIntersect(p1, q1, p2, q2) == DoIntersect(p2, q2, p1, q1)
  {
  }

  /** Two segments that properly cross (each strictly separates the other's
      endpoints) intersect. */
  lemma ProperCrossingIntersects(p1: Coord, q1: Coord, p2: Coord, q2: Coord)
    requires Ccw(p1, q1, p2) > 0.0 && Ccw(p1, q1, q2) < 0.0
    requires Ccw(p2, q2, p1) * Ccw(p2, q2, q1) < 0.0
    ensures DoIntersect(p1, q1, p2, q2)
  {
    assert Orientation(p2, q2, p1) != Orientation(p2, q2, q1);
  }

  /** The cross and dot products `is_between_points` compares. */
  function SegmentCross(a: Coord, b: Coord, t: Coord): real
  {
    (t.y - a.y) * (b.x - a.x) - (t.x - a.x) * (b.y - a.y)
  }

  function SegmentDot(a: Coord, b: Coord, t: Coord): real
  {
    (t.x - a.x) * (b.x - a.x) + (t.y - a.y) * (b.y - a.y)
  }

  function SquaredLength(a: Coord, b: Coord): real
  {
    (b.x - a.x) * (b.x - a.x) + (b.y - a.y) * (b.y - a.y)
  }

  /** `is_between_points(a, b, t)`: three early-return guards. */
  function IsBetweenPoints(a: Coord, b: Coord, t: Coord): bool
  {
    var cross := SegmentCross(a, b, t);
    if cross > COLLINEAR_TOLERANCE || -cross > COLLINEAR_TOLERANCE then false
    else
      var dot := SegmentDot(a, b, t);
      if dot < 0.0 then false
      else if dot > SquaredLength(a, b) then false
      else true
  }

  /** The guards amount to: |cross| <= 0.001 and 0 <= dot <= |b - a|^2. */
  lemma IsBetweenPointsCharacterised(a: Coord, b: Coord, t: Coord)
    ensures IsBetweenPoints(a, b, t) <==>
      (-COLLINEAR_TOLERANCE <= SegmentCross(a, b, t) <= COLLINEAR_TOLERANCE &&
       0.0 <= SegmentDot(a, b, t) <= SquaredLength(a, b))
  {
  }

  /** A point a fraction `f` in [0, 1] of the way from a to b passes the
      test; in particular both endpoints do. */
  lemma {:induction false} FractionIsBetween(a: Coord, b: Coord, f: real)
    requires 0.0 <= f <= 1.0
    ensures IsBetweenPoints(a, b, Coord(a.x + f * (b.x - a.x), a.y + f * (b.y - a.y)))
  {
    var dx, dy := b.x - a.x, b.y - a.y;
    var t := Coord(a.x + f * dx, a.y + f * dy);
    assert t.x - a.x == f * dx && t.y - a.y == f * dy;
    assert SegmentCross(a, b, t) == (f * dy) * dx - (f * dx) * dy;
    assert (f * dy) * dx == f * (dx * dy) && (f * dx) * dy == f * (dx * dy);
    var sq := SquaredLength(a, b);
    var dot := SegmentDot(a, b, t);
    assert dot == (f * dx) * dx + (f * dy) * dy;
    assert dot == f * sq;
    assert sq >= 0.0;
    assert f * sq <= 1.0 * sq;
  }

  lemma EndpointsAreBetween(a: Coord, b: Coord)
    ensures IsBetweenPoints(a, b, a)
    ensures IsBetweenPoints(a, b, b)
  {
    FractionIsBetween(a, b, 0.0);
    assert Coord(a.x + 0.0 * (b.x - a.x), a.y + 0.0 * (b.y - a.y)) == a;
    FractionIsBetween(a, b, 1.0);
    assert Coord(a.x + 1.0 * (b.x - a.x), a.y + 1.0 * (b.y - a.y)) == b;
  }

  /** The start of a segment moved 0.1% towards its end. */
  function ShrinkStart(a: Coord, b: Coord): Coord
  {
    Coord(a.x * 0.999 + b.x * 0.001, a.y * 0.999 + b.y * 0.001)
  }

  /** The end of a segment moved 0.1% towards its start. */
  function ShrinkEnd(a: Coord, b: Coord): Coord
  {
    Coord(a.x * 0.001 + b.x * 0.999, a.y * 0.001 + b.y * 0.999)
  }

  /** Both shortened endpoints still lie on the original segment, at the
      parameters 0.001 and 0.999. */
  lemma ShrunkEndpointsOnSegment(a: Coord, b: Coord)
    ensures ShrinkStart(a, b) == Coord(a.x + SHRINK * (b.x - a.x), a.y + SHRINK * (b.y - a.y))
    ensures ShrinkEnd(a, b) == Coord(a.x + (1.0 - SHRINK) * (b.x - a.x), a.y + (1.0 - SHRINK) * (b.y - a.y))
    ensures IsBetweenPoints(a, b, ShrinkStart(a, b)) && IsBetweenPoints(a, b, ShrinkEnd(a, b))
  {
    FractionIsBetween(a, b, SHRINK);
    FractionIsBetween(a, b, 1.0 - SHRINK);
  }

  /** `check_if_lines_intersect([l1, l2], [k1, k2])`: works on copies, so
      the caller's points are unchanged; the copies are shortened to
      their 0.001..0.999 parametric range and handed to `do_intersect`. */
  method CheckIfLinesIntersect(l1: Coord, l2: Coord, k1: Coord, k2: Coord) returns (r: bool)
    ensures r == LinesIntersect(l1, l2, k1, k2)
  {
    var a1, a2, b1, b2 := l1, l2, k1, k2;
    a1, a2 := a1.(x := a1.x * 0.999 + a2.x * 0.001), a2.(x := a1.x * 0.001 + a2.x * 0.999);
    a1, a2 := a1.(y := a1.y * 0.999 + a2.y * 0.001), a2.(y := a1.y * 0.001 + a2.y * 0.999);
    b1, b2 := b1.(x := b1.x * 0.999 + b2.x * 0.001), b2.(x := b1.x * 0.001 + b2.x * 0.999);
    b1, b2 := b1.(y := b1.y * 0.999 + b2.y * 0.001), b2.(y := b1.y * 0.001 + b2.y * 0.999);
    r := DoIntersect(a1, a2, b1, b2);
  }

  /** The value `check_if_lines_intersect` computes, for use in functions. */
  function LinesIntersect(l1: Coord, l2: Coord, k1: Coord, k2: Coord): bool
  {
    DoIntersect(ShrinkStart(l1, l2), ShrinkEnd(l1, l2), ShrinkStart(k1, k2), ShrinkEnd(k1, k2))
  }

  /** Which line is passed first does not matter. */
  lemma LinesIntersectSymmetric(l1: Coord, l2: Coord, k1: Coord, k2: Coord)
    ensures LinesIntersect(l1, l2, k1, k2) == LinesIntersect(k1, k2, l1, l2)
  {
    DoIntersectSymmetric(ShrinkStart(l1, l2), ShrinkEnd(l1, l2), ShrinkStart(k1, k2), ShrinkEnd(k1, k2));
  }
}
