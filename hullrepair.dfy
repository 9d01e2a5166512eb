/** routes.py: building the hull around an obstacle, and the helpers that
    re-insert points the hull left out (merging two paths, inserting a
    path into the hull, inserting a point into a polygon's vertex list,
    walking along the polygon towards a point). */
module HullRepair {
  import opened Common
  import opened Polygons
  import opened Concavity
  import opened Hull
  import opened Routes

  // ---------------------------------------------------------------- merge_paths

  /** The list `merge_paths(path_precede, path_follow, target)` returns:
      the preceding path made to end at `target`'s side, then the
      following path made to start there, its first point dropped. */
  function MergedPath(pre: seq<Pid>, fol: seq<Pid>, target: Pid): Result<seq<Pid>>
  {
    if target !in pre || target !in fol then Err(ValueError)
    else
      var a := if IndexOf(pre, target) == 0 then Reverse(pre) else pre;
      var b := if IndexOf(fol, target) == 0 then fol else Reverse(fol);
      Ok(a + b[1..])
  }

  /** `merge_paths` as written: four cases, each reversing some of its
      argument lists in place. */
  method MergePaths(pathPrecede: seq<Pid>, pathFollow: seq<Pid>, target: Pid)
    returns (r: Result<seq<Pid>>, precedeAfter: seq<Pid>, followAfter: seq<Pid>)
    ensures r == MergedPath(pathPrecede, pathFollow, target)
    ensures precedeAfter == if r.Ok? && IndexOf(pathPrecede, target) == 0 then Reverse(pathPrecede) else pathPrecede
    ensures followAfter == if r.Ok? && IndexOf(pathFollow, target) != 0 then Reverse(pathFollow) else pathFollow
  {
    precedeAfter, followAfter := pathPrecede, pathFollow;
    if target !in pathPrecede {
      return Err(ValueError), precedeAfter, followAfter;
    }
    var startOfPrecede := IndexOf(pathPrecede, target) == 0;
    if target !in pathFollow {
      return Err(ValueError), precedeAfter, followAfter;
    }
    var startOfFollow := IndexOf(pathFollow, target) == 0;
    if startOfPrecede && startOfFollow {
      precedeAfter := Reverse(precedeAfter);
    } else if startOfPrecede && !startOfFollow {
      precedeAfter := Reverse(precedeAfter);
      followAfter := Reverse(followAfter);
    } else if !startOfPrecede && !startOfFollow {
      followAfter := Reverse(followAfter);
    }
    r := Ok(precedeAfter + followAfter[1..]);
  }

  /** The merged path has `len(precede) + len(follow) - 1` points: all of
      both paths but the first point of the (possibly reversed) following
      path; ValueError when `target` is missing from either. */
  lemma MergedPathSpec(pre: seq<Pid>, fol: seq<Pid>, target: Pid)
    ensures MergedPath(pre, fol, target).Err? <==> target !in pre || target !in fol
    ensures MergedPath(pre, fol, target).Err? ==> MergedPath(pre, fol, target).error == ValueError
    ensures var r := MergedPath(pre, fol, target);
      r.Ok? ==> (
        var dropped := if IndexOf(fol, target) == 0 then fol[0] else fol[|fol| - 1];
        |r.value| == |pre| + |fol| - 1 &&
        multiset(r.value) + multiset{dropped} == multiset(pre) + multiset(fol))
  {
    if target in pre && target in fol {
      var a := if IndexOf(pre, target) == 0 then Reverse(pre) else pre;
      var b := if IndexOf(fol, target) == 0 then fol else Reverse(fol);
      ReverseMultiset(pre);
      ReverseMultiset(fol);
      assert multiset(a) == multiset(pre) && multiset(b) == multiset(fol);
      assert b[0] == if IndexOf(fol, target) == 0 then fol[0] else fol[|fol| - 1];
      DropFirst(a, b);
    }
  }

  lemma DropFirst(a: seq<Pid>, b: seq<Pid>)
    requires |b| > 0
    ensures |a + b[1..]| == |a| + |b| - 1
    ensures multiset(a + b[1..]) + multiset{b[0]} == multiset(a) + multiset(b)
  {
    assert b == [b[0]] + b[1..];
  }

  lemma {:induction false} ReverseMultiset(s: seq<Pid>)
    ensures multiset(Reverse(s)) == multiset(s)
  {
    if s != [] {
      ReverseMultiset(s[1..]);
      assert s == [s[0]] + s[1..];
    }
  }

  /** When `target` is an end point of both paths, the merged path passes
      through it at the join (position `len(precede) - 1`), starts at the
      other end of the preceding path, and, if the following path has
      another point, ends at the other end of the following path. */
  lemma MergeAtTarget(pre: seq<Pid>, fol: seq<Pid>, target: Pid)
    requires |pre| > 0 && |fol| > 0
    requires pre[0] == target || pre[|pre| - 1] == target
    requires fol[0] == target || fol[|fol| - 1] == target
    ensures var r := MergedPath(pre, fol, target);
      r.Ok? && r.value[|pre| - 1] == target &&
      r.value[0] == (if pre[0] == target then pre[|pre| - 1] else pre[0]) &&
      (|fol| > 1 ==> r.value[|r.value| - 1] == if fol[0] == target then fol[|fol| - 1] else fol[0]) &&
      multiset(r.value) + multiset{target} == multiset(pre) + multiset(fol)
  {
    assert target in pre && target in fol;
    MergedPathSpec(pre, fol, target);
    if fol[0] != target {
      assert IndexOf(fol, target) != 0;
    }
  }

  // ---------------------------------------------------------- insert_path_in_c_h

  /** `list.insert(i, x)` for `0 <= i <= len(list)`. */
  function Insert(s: seq<Pid>, i: nat, x: Pid): (r: seq<Pid>)
    requires i <= |s|
    ensures |r| == |s| + 1 && r[i] == x
    ensures forall q :: q in r <==> q in s || q == x
  {
    assert s == s[..i] + s[i..];
    s[..i] + [x] + s[i..]
  }

  /** `list.insert` adds exactly one occurrence of `x` and keeps every
      other element. */
  lemma InsertMultiset(s: seq<Pid>, i: nat, x: Pid)
    requires i <= |s|
    ensures multiset(Insert(s, i, x)) == multiset(s) + multiset{x}
  {
    assert s == s[..i] + s[i..];
  }

  /** The list with every point of `xs` taken out, order kept. */
  function Without(s: seq<Pid>, xs: set<Pid>): seq<Pid>
  {
    if s == [] then [] else (if s[0] in xs then [] else [s[0]]) + Without(s[1..], xs)
  }

  lemma {:induction false} WithoutInsert(s: seq<Pid>, i: nat, x: Pid, xs: set<Pid>)
    requires i <= |s| && x in xs
    ensures Without(s[..i] + [x] + s[i..], xs) == Without(s, xs)
    decreases i
  {
    var r := s[..i] + [x] + s[i..];
    if i == 0 {
      assert r[0] == x && r[1..] == s;
    } else {
      var t := s[1..];
      assert r[0] == s[0] && r[1..] == t[..i - 1] + [x] + t[i - 1..];
      WithoutInsert(t, i - 1, x, xs);
    }
  }

  lemma {:induction false} WithoutNone(s: seq<Pid>, xs: set<Pid>)
    requires forall q :: q in s ==> q !in xs
    ensures Without(s, xs) == s
  {
    if s != [] {
      WithoutNone(s[1..], xs);
    }
  }

  /** The loop of `insert_path_in_c_h`: walking `pts` from the hull
      index `start`, each point missing from the hull is inserted right
      after the previous one. */
  method InsertAlong(pts: seq<Pid>, ch: seq<Pid>, start: nat, ghost added: set<Pid>)
    returns (hull: seq<Pid>)
    requires start < |ch|
    requires forall p :: p in pts ==> p in ch || p in added
    ensures Without(hull, added) == Without(ch, added)
    ensures forall q :: q in ch ==> q in hull
    ensures forall q :: q in hull ==> q in ch || q in pts
    ensures forall p :: p in pts ==> p in hull
  {
    hull := ch;
    var indexPoint := start;
    var i := 0;
    while i < |pts|
      invariant 0 <= i <= |pts| && 0 <= indexPoint < |hull|
      invariant Without(hull, added) == Without(ch, added)
      invariant forall q :: q in ch ==> q in hull
      invariant forall q :: q in hull ==> q in ch || q in pts
      invariant forall k :: 0 <= k < i ==> pts[k] in hull
    {
      var p := pts[i];
      if p !in hull {
        var next := Insert(hull, indexPoint + 1, p);
        assert next == hull[..indexPoint + 1] + [p] + hull[indexPoint + 1..];
        WithoutInsert(hull, indexPoint + 1, p, added);
        hull := next;
      }
      indexPoint := IndexOf(hull, p);
      i := i + 1;
    }
  }

  /** `insert_path_in_c_h(path, c_h, target)`: the hull after the call
      (the source changes `c_h` in place), and `path`, which the source
      reverses in place when it walks from the following end. */
  method InsertPathInHull(path: seq<Pid>, ch: seq<Pid>, target: Pid)
    returns (r: Result<seq<Pid>>, pathAfter: seq<Pid>)
    ensures |path| == 0 ==> r == Err(IndexError)
    ensures |path| > 0 ==> (r.Err? <==> path[0] !in ch || path[|path| - 1] !in ch)
    ensures r.Err? ==> pathAfter == path
    ensures pathAfter == path || pathAfter == Reverse(path)
    ensures r.Ok? ==> forall p :: p in path ==> p in r.value
    ensures r.Ok? ==> forall p :: p in r.value ==> p in ch || p in path
    ensures r.Ok? ==> Without(r.value, set p | p in path && p !in ch) == ch
  {
    pathAfter := path;
    if |path| == 0 {
      return Err(IndexError), pathAfter;
    }
    var precedingPoint, followingPoint := path[0], path[|path| - 1];
    if precedingPoint !in ch || followingPoint !in ch {
      return Err(ValueError), pathAfter;
    }
    var precedingIndex, followingIndex := IndexOf(ch, precedingPoint), IndexOf(ch, followingPoint);
    var pointsPrecedingFirst, pointsFollowingFirst;
    if precedingIndex < followingIndex {
      pointsPrecedingFirst := ch[precedingIndex..followingIndex + 1];
      pointsFollowingFirst := ch[followingIndex..] + ch[..precedingIndex + 1];
    } else {
      pointsPrecedingFirst := ch[precedingIndex..] + ch[..followingIndex + 1];
      pointsFollowingFirst := ch[followingIndex..precedingIndex + 1];
    }
    var indexPoint;
    if |pointsFollowingFirst| < |pointsPrecedingFirst| {
      pathAfter := Reverse(path);
      indexPoint := followingIndex;
      SameElementsReversed(path);
    } else {
      indexPoint := precedingIndex;
    }
    ghost var added := set p | p in path && p !in ch;
    WithoutNone(ch, added);
    var hull := InsertAlong(pathAfter, ch, indexPoint, added);
    r := Ok(hull);
  }

  lemma SameElementsReversed(s: seq<Pid>)
    ensures forall p :: p in Reverse(s) <==> p in s
  {
    forall p | p in s ensures p in Reverse(s) {
      var i :| 0 <= i < |s| && s[i] == p;
      assert Reverse(s)[|s| - 1 - i] == p;
    }
  }

  // ------------------------------------------------------- add_point_to_poly_points

  /** The pair the loop of `add_point_to_poly_points` looks at for index
      `i`: a point and the next one, the last wrapping to the first. */
  function PairAt(between: seq<Pid>, i: nat): (Pid, Pid)
    requires i < |between|
  {
    (between[i], if i < |between| - 1 then between[i + 1] else between[0])
  }

  /** Both hops, `a` to `l` and `l` to `b`, are clear of the obstacle. */
  predicate FreePair(env: Env, obstacle: seq<Pid>, l: Pid, pair: (Pid, Pid))
    requires IsRing(obstacle)
  {
    !Crosses(env, obstacle, pair.0, l) && !Crosses(env, obstacle, l, pair.1)
  }

  /** The unobstructed pairs among the first `n`, in loop order. */
  function FreePairs(env: Env, obstacle: seq<Pid>, l: Pid, between: seq<Pid>, n: nat): (ps: seq<(Pid, Pid)>)
    requires IsRing(obstacle) && n <= |between|
    ensures forall pr :: pr in ps ==> FreePair(env, obstacle, l, pr) && pr.0 in between && pr.1 in between
    ensures forall i :: 0 <= i < n && FreePair(env, obstacle, l, PairAt(between, i)) ==> PairAt(between, i) in ps
  {
    if n == 0 then []
    else
      var ps := FreePairs(env, obstacle, l, between, n - 1);
      if FreePair(env, obstacle, l, PairAt(between, n - 1)) then ps + [PairAt(between, n - 1)] else ps
  }

  function PairCosts(env: Env, l: Pid, ps: seq<(Pid, Pid)>): (ds: seq<real>)
    ensures |ds| == |ps|
    ensures forall i :: 0 <= i < |ps| ==>
      ds[i] == env.dist(env.loc(l), env.loc(ps[i].0)) + env.dist(env.loc(l), env.loc(ps[i].1))
  {
    seq(|ps|, i requires 0 <= i < |ps| =>
      env.dist(env.loc(l), env.loc(ps[i].0)) + env.dist(env.loc(l), env.loc(ps[i].1)))
  }

  /** `list.insert(i, x)` for `i >= 0`: past the end it appends. */
  function PyInsert(s: seq<Pid>, i: nat, x: Pid): seq<Pid>
  {
    if i >= |s| then s + [x] else Insert(s, i, x)
  }

  /** `list_of_points` after `add_point_to_poly_points(obstacle, k, l, m,
      list_of_points)`. */
  function AddPointToPoly(env: Env, obstacle: seq<Pid>, k: Pid, l: Pid, m: Pid, list: seq<Pid>): Result<seq<Pid>>
    requires IsRing(obstacle)
  {
    if l in obstacle then Ok(list)
    else
      match GetPointsBetween(k, m, obstacle, true)
      case Err(e) => Err(e)
      case Ok(between) =>
        var ps := FreePairs(env, obstacle, l, between, |between|);
        if |ps| == 0 then Ok(list)
        else
          var b := ps[FirstMinIndex(PairCosts(env, l, ps))].1;
          GetPointsBetweenWithin(k, m, obstacle);
          Ok(PyInsert(list, IndexOf(obstacle, b), l))
  }

  lemma GetPointsBetweenWithin(a: Pid, b: Pid, ring: seq<Pid>)
    ensures GetPointsBetween(a, b, ring, true).Ok? ==> forall q :: q in GetPointsBetween(a, b, ring, true).value ==> q in ring
  {
    if a in ring && b in ring && a != b {
      GetPointsBetweenIsArc(a, b, ring);
      var ia, ib := IndexOf(ring, a), IndexOf(ring, b);
      if ia > ib {
        assert forall q :: q in ring[ia..] + ring[..ib + 1] ==> q in ring;
      }
    } else {
      GetPointsBetweenErrors(a, b, ring, true);
    }
  }

  /** The loop of `add_point_to_poly_points`: the pairs whose two hops
      are clear, in the order met. */
  method CollectFreePairs(env: Env, obstacle: seq<Pid>, l: Pid, between: seq<Pid>)
    returns (candidates: seq<(Pid, Pid)>)
    requires IsRing(obstacle)
    ensures candidates == FreePairs(env, obstacle, l, between, |between|)
  {
    candidates := [];
    var index := 0;
    while index < |between|
      invariant 0 <= index <= |between|
      invariant candidates == FreePairs(env, obstacle, l, between, index)
    {
      var a := between[index];
      var b := if index < |between| - 1 then between[index + 1] else between[0];
      var aObstructed := LineThroughPolygon(env, obstacle, a, l);
      var bObstructed := LineThroughPolygon(env, obstacle, l, b);
      if !aObstructed && !bObstructed {
        candidates := candidates + [(a, b)];
      }
      index := index + 1;
    }
  }

  /** `add_point_to_poly_points` as written: `min` over the candidates
      picks the first of the cheapest. */
  method AddPointToPolyPoints(env: Env, obstacle: seq<Pid>, k: Pid, l: Pid, m: Pid, listOfPoints: seq<Pid>)
    returns (r: Result<seq<Pid>>)
    requires IsRing(obstacle)
    ensures r == AddPointToPoly(env, obstacle, k, l, m, listOfPoints)
  {
    if l in obstacle {
      return Ok(listOfPoints);
    }
    var found := GetPointsBetween(k, m, obstacle, true);
    if found.Err? {
      return Err(found.error);
    }
    var candidates := CollectFreePairs(env, obstacle, l, found.value);
    if |candidates| == 0 {
      return Ok(listOfPoints);
    }
    var b := candidates[FirstMinIndex(PairCosts(env, l, candidates))].1;
    GetPointsBetweenWithin(k, m, obstacle);
    r := Ok(PyInsert(listOfPoints, IndexOf(obstacle, b), l));
  }

  /** `l` is inserted at most once: the result is the list, or the list
      with `l` added at one position; nothing changes when `l` is already
      a vertex or no clear pair exists, and an insertion happens only
      next to a pair whose two hops are clear. */
  lemma AddPointToPolySpec(env: Env, obstacle: seq<Pid>, k: Pid, l: Pid, m: Pid, list: seq<Pid>)
    requires IsRing(obstacle)
    ensures var r := AddPointToPoly(env, obstacle, k, l, m, list);
      (l in obstacle ==> r == Ok(list)) &&
      (r.Err? ==> r.error == ValueError) &&
      (r.Ok? ==> r.value == list || exists i :: 0 <= i <= |list| && r.value == list[..i] + [l] + list[i..]) &&
      (r.Ok? && r.value != list ==> (l !in obstacle &&
        exists pr :: pr in FreePairs(env, obstacle, l, GetPointsBetween(k, m, obstacle, true).value,
                                     |GetPointsBetween(k, m, obstacle, true).value|)))
  {
    GetPointsBetweenErrors(k, m, obstacle, true);
    if l !in obstacle {
      var g := GetPointsBetween(k, m, obstacle, true);
      if g.Ok? {
        var ps := FreePairs(env, obstacle, l, g.value, |g.value|);
        if |ps| > 0 {
          var b := ps[FirstMinIndex(PairCosts(env, l, ps))].1;
          GetPointsBetweenWithin(k, m, obstacle);
          var i := IndexOf(obstacle, b);
          assert AddPointToPoly(env, obstacle, k, l, m, list) == Ok(PyInsert(list, i, l));
          PyInsertShape(list, i, l);
          assert ps[0] in ps;
        }
      }
    }
  }

  /** `list.insert` adds `x` at one position, whatever the index. */
  lemma PyInsertShape(s: seq<Pid>, i: nat, x: Pid)
    ensures exists j :: 0 <= j <= |s| && PyInsert(s, i, x) == s[..j] + [x] + s[j..]
  {
    if i >= |s| {
      assert PyInsert(s, i, x) == s[..|s|] + [x] + s[|s|..];
    } else {
      assert PyInsert(s, i, x) == s[..i] + [x] + s[i..];
    }
  }

  // ----------------------------------------- create_path_along_polygon_between_points

  /** The loop of `create_path_along_polygon_between_points` from the
      points `pts` still to try, with `path` built so far; `ob` says
      whether the line between two points is obstructed and `shorten` is
      `maximize_concavity` against the one obstacle. */
  function PathFrom(ob: (Pid, Pid) -> bool, shorten: seq<Pid> -> Result<seq<Pid>>,
                    target: Pid, pts: seq<Pid>, path: seq<Pid>): Result<seq<Pid>>
    decreases |pts|
  {
    if |pts| == 0 then Err(NotImplementedError)
    else if ob(pts[0], target) then
      var p := path + [pts[0]];
      if |p| >= 2 then
        match shorten(p)
        case Err(e) => Err(e)
        case Ok(q) => PathFrom(ob, shorten, target, pts[1..], q)
      else PathFrom(ob, shorten, target, pts[1..], p)
    else shorten(path + [pts[0], target])
  }

  /** `maximize_concavity` keeps the two ends of a path of two or more,
      and raises nothing but IndexError or TimeoutError. */
  ghost predicate KeepsEnds(shorten: seq<Pid> -> Result<seq<Pid>>)
  {
    forall p :: |p| >= 2 ==>
      (shorten(p).Ok? ==>
        |shorten(p).value| >= 2 && shorten(p).value[0] == p[0] &&
        shorten(p).value[|shorten(p).value| - 1] == p[|p| - 1]) &&
      (shorten(p).Err? ==> shorten(p).error == IndexError || shorten(p).error == TimeoutError)
  }

  /** `create_path_along_polygon_between_points(start_point, target,
      routing_points, obstacle)` as a value. */
  function PathAlongPolygon(env: Env, start: Pid, target: Pid, routing: seq<Pid>, obstacle: seq<Pid>): Result<seq<Pid>>
    requires IsRing(obstacle)
  {
    assert AllRings([obstacle]);
    PathFrom((a: Pid, b: Pid) => Crosses(env, obstacle, a, b),
             (p: seq<Pid>) => MaximizeConcavity(env, p, [obstacle]),
             target, [start] + routing, [])
  }

  /** The loop as written. */
  method CreatePathAlongPolygon(env: Env, start: Pid, target: Pid, routing: seq<Pid>, obstacle: seq<Pid>)
    returns (r: Result<seq<Pid>>)
    requires IsRing(obstacle)
    ensures r == PathAlongPolygon(env, start, target, routing, obstacle)
  {
    assert AllRings([obstacle]);
    ghost var ob := (a: Pid, b: Pid) => Crosses(env, obstacle, a, b);
    ghost var shorten := (p: seq<Pid>) => MaximizeConcavity(env, p, [obstacle]);
    var pointsToTravelFrom := [start] + routing;
    var path: seq<Pid> := [];
    var i := 0;
    while i < |pointsToTravelFrom|
      invariant 0 <= i <= |pointsToTravelFrom|
      invariant PathFrom(ob, shorten, target, pointsToTravelFrom[i..], path) ==
                PathAlongPolygon(env, start, target, routing, obstacle)
    {
      var point := pointsToTravelFrom[i];
      assert pointsToTravelFrom[i..][1..] == pointsToTravelFrom[i + 1..];
      var obstructed := LineThroughPolygon(env, obstacle, point, target);
      assert obstructed == ob(point, target);
      if obstructed {
        path := path + [point];
        if |path| >= 2 {
          var shorter := MaximizeConcavityLoop(env, path, [obstacle]);
          assert shorter == shorten(path);
          if shorter.Err? {
            return Err(shorter.error);
          }
          path := shorter.value;
        }
      } else {
        path := path + [point, target];
        r := MaximizeConcavityLoop(env, path, [obstacle]);
        assert r == shorten(path);
        return;
      }
      i := i + 1;
    }
    return Err(NotImplementedError);
  }

  lemma {:induction false} PathFromEnds(ob: (Pid, Pid) -> bool, shorten: seq<Pid> -> Result<seq<Pid>>,
                                        target: Pid, pts: seq<Pid>, path: seq<Pid>, start: Pid)
    requires KeepsEnds(shorten)
    requires (|path| > 0 && path[0] == start) || (|path| == 0 && |pts| > 0 && pts[0] == start)
    ensures var r := PathFrom(ob, shorten, target, pts, path);
      r.Ok? ==> |r.value| >= 2 && r.value[0] == start && r.value[|r.value| - 1] == target
    ensures PathFrom(ob, shorten, target, pts, path) == Err(NotImplementedError) ==>
      forall q :: q in pts ==> ob(q, target)
    ensures (forall q :: q in pts ==> ob(q, target)) ==> PathFrom(ob, shorten, target, pts, path).Err?
    ensures var r := PathFrom(ob, shorten, target, pts, path);
      r.Err? ==> r.error == NotImplementedError || r.error == IndexError || r.error == TimeoutError
    decreases |pts|
  {
    if |pts| > 0 {
      if ob(pts[0], target) {
        var p := path + [pts[0]];
        assert p[0] == start;
        if |p| >= 2 {
          if shorten(p).Ok? {
            PathFromEnds(ob, shorten, target, pts[1..], shorten(p).value, start);
          }
        } else {
          PathFromEnds(ob, shorten, target, pts[1..], p, start);
        }
        assert forall q :: q in pts ==> q == pts[0] || q in pts[1..];
      } else {
        var p := path + [pts[0], target];
        assert p[0] == start && p[|p| - 1] == target;
      }
    }
  }

  lemma MaximizeConcavityKeepsEnds(env: Env, obstacle: seq<Pid>)
    requires IsRing(obstacle)
    ensures AllRings([obstacle])
    ensures KeepsEnds((p: seq<Pid>) => MaximizeConcavity(env, p, [obstacle]))
  {
    assert AllRings([obstacle]);
    forall p | |p| >= 2
      ensures var r := MaximizeConcavity(env, p, [obstacle]);
        (r.Ok? ==> |r.value| >= 2 && r.value[0] == p[0] && r.value[|r.value| - 1] == p[|p| - 1]) &&
        (r.Err? ==> r.error == IndexError || r.error == TimeoutError)
    {
      MaximizeConcavityEnds(env, p, [obstacle]);
      MaximizeConcavityErrors(env, p, [obstacle]);
    }
  }

  /** The path starts at `start_point` and ends at `target`;
      NotImplementedError only when every point tried is obstructed, and
      when every point tried is obstructed the walk fails: with
      NotImplementedError, or with the IndexError or TimeoutError of a
      shortening pass on the way. */
  lemma PathAlongPolygonSpec(env: Env, start: Pid, target: Pid, routing: seq<Pid>, obstacle: seq<Pid>)
    requires IsRing(obstacle)
    ensures var r := PathAlongPolygon(env, start, target, routing, obstacle);
      (r.Ok? ==> |r.value| >= 2 && r.value[0] == start && r.value[|r.value| - 1] == target) &&
      (r == Err(NotImplementedError) ==>
        Crosses(env, obstacle, start, target) && forall q :: q in routing ==> Crosses(env, obstacle, q, target)) &&
      ((Crosses(env, obstacle, start, target) && forall q :: q in routing ==> Crosses(env, obstacle, q, target)) ==>
        r.Err?) &&
      (r.Err? ==> r.error == NotImplementedError || r.error == IndexError || r.error == TimeoutError)
  {
    MaximizeConcavityKeepsEnds(env, obstacle);
    var ob := (a: Pid, b: Pid) => Crosses(env, obstacle, a, b);
    var sh := (p: seq<Pid>) => MaximizeConcavity(env, p, [obstacle]);
    var pts := [start] + routing;
    assert PathAlongPolygon(env, start, target, routing, obstacle) == PathFrom(ob, sh, target, pts, []);
    PathFromEnds(ob, sh, target, pts, [], start);
    if forall q :: q in pts ==> ob(q, target) {
      assert ob(pts[0], target);
      forall q | q in routing ensures ob(q, target) {
        assert q in pts;
      }
    }
    if Crosses(env, obstacle, start, target) && forall q :: q in routing ==> Crosses(env, obstacle, q, target) {
      forall q | q in pts ensures ob(q, target) {
        if q != start {
          assert q in routing;
        }
      }
    }
  }


  // ------------------------------------------------------- re_add_point_to_hull

  /** `re_add_point_to_hull(target, c_h, obstacle)`: the hull itself when
      `target` is on it; otherwise its next statement calls
      `sort_convex_hull`, which the geometry module does not define, so
      the call raises AttributeError before anything is changed. */
  function ReAddPointToHull(target: Pid, ch: seq<Pid>): (r: Result<seq<Pid>>)
    ensures r.Ok? <==> target in ch
    ensures r.Ok? ==> r.value == ch
    ensures r.Err? ==> r.error == AttributeError
  {
    if target in ch then Ok(ch) else Err(AttributeError)
  }

  // --------------------------------------------------------- create_convex_hull

  /** The `points` argument of `create_convex_hull`: None or an empty
      value of any sized type (such as `()`), a non-empty list, a single
      Point, or a value of any other type. */
  datatype PointsArg = NoPoints | PointList(pts: seq<Pid>) | SinglePoint(p: Pid) | OtherValue

  /** `all_points` as the argument handling leaves it. The emptiness test
      `len(points) == 0` comes first, and a Point has no length, so a
      single Point raises TypeError before the branch meant for it. */
  function InitialPoints(points: PointsArg): (r: Result<seq<Pid>>)
    ensures r.Err? <==> points.OtherValue? || points.SinglePoint?
    ensures r.Err? ==> r.error == TypeError
    ensures points.PointList? ==> r == Ok(points.pts)
    ensures points.NoPoints? ==> r == Ok([])
  {
    match points
    case NoPoints => Ok([])
    case PointList(ps) => Ok(ps)
    case SinglePoint(_) => Err(TypeError)
    case OtherValue => Err(TypeError)
  }

  /** The argument handling the docstring describes: a single Point is
      wrapped in a list of one. */
  function InitialPointsIntended(points: PointsArg): (r: Result<seq<Pid>>)
    ensures r.Err? <==> points.OtherValue?
    ensures r.Err? ==> r.error == TypeError
    ensures points.PointList? ==> r == Ok(points.pts)
    ensures points.SinglePoint? ==> r == Ok([points.p])
    ensures points.NoPoints? ==> r == Ok([])
  {
    match points
    case NoPoints => Ok([])
    case PointList(ps) => Ok(ps)
    case SinglePoint(p) => Ok([p])
    case OtherValue => Err(TypeError)
  }

  /** A single Point raises TypeError where the documented handling
      wraps it; on every other argument, the list `reroute_around_obstacle`
      passes included, the two agree. */
  lemma SinglePointRaises(p: Pid, points: PointsArg)
    ensures InitialPoints(SinglePoint(p)) == Err(TypeError)
    ensures InitialPointsIntended(SinglePoint(p)) == Ok([p])
    ensures !points.SinglePoint? ==> InitialPoints(points) == InitialPointsIntended(points)
  {
  }

  /** `all_points` after the obstacle's vertices missing from it are
      appended, in the obstacle's order. */
  function AppendMissing(all: seq<Pid>, obs: seq<Pid>): (r: seq<Pid>)
    ensures |r| >= |all| && r[..|all|] == all
    ensures forall q :: q in r <==> q in all || q in obs
    decreases |obs|
  {
    if |obs| == 0 then all
    else
      var next := if obs[0] in all then all else all + [obs[0]];
      assert forall q :: q in obs <==> q == obs[0] || q in obs[1..];
      var r := AppendMissing(next, obs[1..]);
      assert r[..|all|] == r[..|next|][..|all|];
      r
  }

  /** What `create_convex_hull` leaves behind: its result, the set of
      points whose `force_maintain` flag is up afterwards, and the list
      `all_points` (the caller's own list when a non-empty list was
      passed, since the function appends to it and the scan shortens it). */
  datatype HullOutcome = HullOutcome(hull: Result<seq<Pid>>, forced: set<Pid>, points: seq<Pid>)

  /** A point still flagged that the scan dropped from the hull. */
  predicate Stray(forced: set<Pid>, remaining: seq<Pid>, hull: seq<Pid>)
  {
    exists q :: q in remaining && q in forced && q !in hull
  }

  /** `create_convex_hull(obstacle, points)` with the flags `forced` up on
      entry. The flags of the passed points are raised; only the points
      the scan leaves in `all_points` are lowered again, so the anchor and
      the first point in polar order keep theirs. */
  function ConvexHull(env: Env, obstacle: seq<Pid>, points: PointsArg, forced: set<Pid>): HullOutcome
  {
    match InitialPoints(points)
    case Err(e) => HullOutcome(Err(e), forced, [])
    case Ok(init) =>
      var flagged := forced + (set q | q in init);
      ScanOutcome(env, AppendMissing(init, obstacle), flagged)
  }

  /** The scan of `all_points` and the flag check after it. */
  function ScanOutcome(env: Env, all: seq<Pid>, flagged: set<Pid>): HullOutcome
  {
    match GrahamScan(env, all)
    case Err(e) => HullOutcome(Err(e), flagged, ScanLeftover(env, all))
    case Ok(scan) =>
      if Stray(flagged, scan.remaining, scan.hull) then HullOutcome(Err(AttributeError), flagged, scan.remaining)
      else HullOutcome(Ok(scan.hull), flagged - (set q | q in scan.remaining), scan.remaining)
  }

  /** Raising `force_maintain` on every point of a list. */
  method RaiseFlags(pts: seq<Pid>, forced: set<Pid>) returns (forcedAfter: set<Pid>)
    ensures forcedAfter == forced + (set q | q in pts)
  {
    forcedAfter := forced;
    var i := 0;
    while i < |pts|
      invariant 0 <= i <= |pts|
      invariant forcedAfter == forced + (set q | q in pts[..i])
    {
      assert pts[..i + 1] == pts[..i] + [pts[i]];
      forcedAfter := forcedAfter + {pts[i]};
      i := i + 1;
    }
    assert pts[..i] == pts;
  }

  /** Lowering `force_maintain` on every point of a list. */
  method LowerFlags(pts: seq<Pid>, forced: set<Pid>) returns (forcedAfter: set<Pid>)
    ensures forcedAfter == forced - (set q | q in pts)
  {
    forcedAfter := forced;
    var i := 0;
    while i < |pts|
      invariant 0 <= i <= |pts|
      invariant forcedAfter == forced - (set q | q in pts[..i])
    {
      assert pts[..i + 1] == pts[..i] + [pts[i]];
      forcedAfter := forcedAfter - {pts[i]};
      i := i + 1;
    }
    assert pts[..i] == pts;
  }

  /** Appending the obstacle's vertices that are not yet in the list. */
  method AppendObstaclePoints(all: seq<Pid>, obstacle: seq<Pid>) returns (r: seq<Pid>)
    ensures r == AppendMissing(all, obstacle)
  {
    r := all;
    var j := 0;
    while j < |obstacle|
      invariant 0 <= j <= |obstacle|
      invariant AppendMissing(r, obstacle[j..]) == AppendMissing(all, obstacle)
    {
      assert obstacle[j..][1..] == obstacle[j + 1..];
      if obstacle[j] !in r {
        r := r + [obstacle[j]];
      }
      j := j + 1;
    }
  }

  /** The loop calling `re_add_point_to_hull` on each flagged point the
      scan left out of the hull; the first such call raises. */
  method ReAddForced(remaining: seq<Pid>, forced: set<Pid>, convexHull: seq<Pid>) returns (r: Result<seq<Pid>>)
    ensures r.Err? <==> Stray(forced, remaining, convexHull)
    ensures r.Err? ==> r.error == AttributeError
    ensures r.Ok? ==> r.value == convexHull
  {
    var k := 0;
    while k < |remaining|
      invariant 0 <= k <= |remaining|
      invariant forall t :: 0 <= t < k ==> !(remaining[t] in forced && remaining[t] !in convexHull)
    {
      if remaining[k] in forced && remaining[k] !in convexHull {
        return ReAddPointToHull(remaining[k], convexHull);
      }
      k := k + 1;
    }
    return Ok(convexHull);
  }

  /** `create_convex_hull` as written, flags held in `forced`. On a scan
      error the list is what the scan left of it before raising. */
  method CreateConvexHull(env: Env, obstacle: seq<Pid>, points: PointsArg, forced: set<Pid>)
    returns (r: Result<seq<Pid>>, forcedAfter: set<Pid>, allPoints: seq<Pid>)
    ensures HullOutcome(r, forcedAfter, allPoints) == ConvexHull(env, obstacle, points, forced)
  {
    match points {
      case NoPoints => allPoints := [];
      case PointList(ps) => allPoints := ps;
      case SinglePoint(_) => return Err(TypeError), forced, [];
      case OtherValue => return Err(TypeError), forced, [];
    }
    forcedAfter := RaiseFlags(allPoints, forced);
    allPoints := AppendObstaclePoints(allPoints, obstacle);
    r, forcedAfter, allPoints := ScanAndCheck(env, allPoints, forcedAfter);
  }

  /** The scan and the flag check, on the list with the obstacle's
      vertices appended. */
  method ScanAndCheck(env: Env, all: seq<Pid>, flagged: set<Pid>)
    returns (r: Result<seq<Pid>>, forcedAfter: set<Pid>, allPoints: seq<Pid>)
    ensures HullOutcome(r, forcedAfter, allPoints) == ScanOutcome(env, all, flagged)
  {
    var scan, left := GrahamScanLoop(env, all);
    allPoints, forcedAfter := left, flagged;
    if scan.Err? {
      return Err(scan.error), forcedAfter, allPoints;
    }
    r := ReAddForced(allPoints, forcedAfter, scan.value.hull);
    if r.Err? {
      return;
    }
    forcedAfter := LowerFlags(allPoints, forcedAfter);
  }

  /** Of the points passed in, at most one is missing from a hull that is
      returned: the first point in polar order, the only point neither
      the scan's anchor nor left in `all_points` for the flag check. Every
      hull vertex is a passed point or an obstacle vertex. */
  lemma ConvexHullKeepsPoints(env: Env, obstacle: seq<Pid>, points: PointsArg, forced: set<Pid>)
    requires EnvOk(env)
    ensures var o := ConvexHull(env, obstacle, points, forced);
      o.hull.Ok? ==> (
        (forall q :: q in o.hull.value ==> q in InitialPoints(points).value || q in obstacle) &&
        forall q1, q2 ::
          (q1 in InitialPoints(points).value && q2 in InitialPoints(points).value &&
           q1 !in o.hull.value && q2 !in o.hull.value) ==> q1 == q2)
  {
    var o := ConvexHull(env, obstacle, points, forced);
    if o.hull.Ok? {
      var init := InitialPoints(points).value;
      var all := AppendMissing(init, obstacle);
      assert o == ScanOutcome(env, all, forced + (set q | q in init));
      GrahamScanShape(env, all);
      var scan := GrahamScan(env, all).value;
      forall q1, q2 | q1 in init && q2 in init && q1 !in scan.hull && q2 !in scan.hull
        ensures q1 == q2
      {
        assert q1 !in scan.remaining && q2 !in scan.remaining;
        assert q1 in all && q2 in all;
        AtMostOneLeft(all, scan.remaining, scan.hull[0], q1, q2);
      }
    }
  }

  /** Two items of `all` that are neither `kept` nor in `rest`, where
      `rest` and `kept` take all but one item of `all`, are the same. */
  lemma AtMostOneLeft(all: seq<Pid>, rest: seq<Pid>, kept: Pid, q1: Pid, q2: Pid)
    requires |rest| + 2 == |all| && multiset(rest) + multiset{kept} <= multiset(all)
    requires q1 in all && q2 in all && q1 !in rest && q2 !in rest && q1 != kept && q2 != kept
    ensures q1 == q2
  {
    var m := multiset(rest) + multiset{kept};
    var d := multiset(all) - m;
    assert multiset(all) == m + d;
    assert |d| == 1;
    assert q1 in d && q2 in d;
    if q1 != q2 {
      TwoDistinct(d, q1, q2);
    }
  }

  lemma TwoDistinct(d: multiset<Pid>, a: Pid, b: Pid)
    requires a != b && a in d && b in d
    ensures |d| >= 2
  {
    var e := d - multiset{a};
    assert d == e + multiset{a};
    assert b in e;
    assert e == (e - multiset{b}) + multiset{b};
  }

  /** After a returned hull, no point left in `all_points` is flagged,
      and every flagged point left there is on the hull. */
  lemma ConvexHullFlags(env: Env, obstacle: seq<Pid>, points: PointsArg, forced: set<Pid>)
    ensures var o := ConvexHull(env, obstacle, points, forced);
      o.hull.Ok? ==> (forall q :: q in o.points ==> q !in o.forced) &&
                     (forall q :: q in o.points && (q in forced || q in InitialPoints(points).value) ==> q in o.hull.value)
  {
  }
}
