/** general_maths.py `maximize_concavity`: the greedy two-pointer pass
    that drops waypoints. `i` is the current waypoint, `j` starts at the
    last index and moves back until the hop i -> j is unobstructed; a hop
    of one step is taken even when obstructed. Python subscripts are kept
    exactly: `j` may become negative and then counts from the end. */
module Concavity {
  import opened Common
  import opened Polygons

  /** `any(polygon.check_if_line_through_polygon(p, q) for polygon in ...)`. */
  predicate Obstructed(env: Env, polys: seq<seq<Pid>>, p: Pid, q: Pid)
    requires AllRings(polys)
  {
    exists k :: 0 <= k < |polys| && Crosses(env, polys[k], p, q)
  }

  /** The list comprehension asks every polygon; `any` folds the answers. */
  method AnyPolygonObstructs(env: Env, polys: seq<seq<Pid>>, p: Pid, q: Pid) returns (b: bool)
    requires AllRings(polys)
    ensures b <==> exists k :: 0 <= k < |polys| && Crosses(env, polys[k], p, q)
  {
    b := false;
    var k := 0;
    while k < |polys|
      invariant 0 <= k <= |polys|
      invariant b <==> exists m :: 0 <= m < k && Crosses(env, polys[m], p, q)
    {
      var c := LineThroughPolygon(env, polys[k], p, q);
      b := b || c;
      k := k + 1;
    }
  }

  /** The same question as a function value: the obstruction oracle the
      simplifier consults. */
  function Blocked(env: Env, polys: seq<seq<Pid>>): (ob: (Pid, Pid) -> bool)
    requires AllRings(polys)
    ensures forall p, q :: ob(p, q) == Obstructed(env, polys, p, q)
  {
    (p: Pid, q: Pid) => Obstructed(env, polys, p, q)
  }

  /** A line from a point to itself is obstructed only when the point is
      inside an obstacle, and then every line from it is. */
  ghost predicate SelfBlocking(ob: (Pid, Pid) -> bool)
  {
    forall p, q :: ob(p, p) ==> ob(p, q)
  }

  lemma BlockedIsSelfBlocking(env: Env, polys: seq<seq<Pid>>)
    requires AllRings(polys)
    ensures SelfBlocking(Blocked(env, polys))
  {
    forall p, q | Obstructed(env, polys, p, p)
      ensures Obstructed(env, polys, p, q)
    {
      var k :| 0 <= k < |polys| && Crosses(env, polys[k], p, p);
      DegenerateLines(env, polys[k], p, q);
    }
  }

  /** The list position a Python subscript `j` reads, for -n <= j < n. */
  function Norm(n: nat, j: int): (k: nat)
    requires -(n as int) <= j < n
    ensures k < n
    ensures j >= 0 ==> k == j
  {
    if j < 0 then n + j else j
  }

  predicate Below(idx: seq<nat>, n: nat)
  {
    forall k :: 0 <= k < |idx| ==> idx[k] < n
  }

  /** The rest of the loop from state (i, j, iterations), with `acc` the
      positions of the points appended to `shorter_route` so far; the
      result is the positions of the whole returned list. */
  function Steps(ob: (Pid, Pid) -> bool, path: seq<Pid>, i: int, j: int,
                 acc: seq<nat>, iterations: nat): (r: Result<seq<nat>>)
    requires |path| > 0
    requires i < |path| && j < |path| && iterations <= ITERATION_LIMIT
    requires Below(acc, |path|)
    ensures r.Ok? ==> Below(r.value, |path|) && |r.value| > |acc| && r.value[..|acc|] == acc
    ensures r.Ok? ==> r.value[|r.value| - 1] == |path| - 1
    decreases ITERATION_LIMIT - iterations
  {
    var n: int := |path|;
    if i < -n then Err(IndexError)
    else if iterations + 1 > ITERATION_LIMIT then Err(TimeoutError)
    else if j < -n then Err(IndexError)
    else
      var free := !ob(path[Norm(n, i)], path[Norm(n, j)]);
      if j == n - 1 && free then Ok(acc + [n - 1])
      else if j == i + 1 then Steps(ob, path, j, n - 1, acc + [Norm(n, j)], iterations + 1)
      else if free then Steps(ob, path, j, n - 1, acc + [Norm(n, j)], iterations + 1)
      else Steps(ob, path, i, j - 1, acc, iterations + 1)
  }

  /** The positions `maximize_concavity` keeps; IndexError on an empty path. */
  function ConcavityPositions(ob: (Pid, Pid) -> bool, path: seq<Pid>): (r: Result<seq<nat>>)
    ensures r.Ok? ==> Below(r.value, |path|) && |r.value| >= 2
  {
    if |path| == 0 then Err(IndexError)
    else Steps(ob, path, 0, |path| - 1, [0], 0)
  }

  function Pick(path: seq<Pid>, idx: seq<nat>): (r: seq<Pid>)
    requires Below(idx, |path|)
    ensures |r| == |idx| && forall k :: 0 <= k < |idx| ==> r[k] == path[idx[k]]
  {
    seq(|idx|, k requires 0 <= k < |idx| => path[idx[k]])
  }

  lemma PickAppend(path: seq<Pid>, idx: seq<nat>, k: nat)
    requires Below(idx, |path|) && k < |path|
    ensures Below(idx + [k], |path|) && Pick(path, idx + [k]) == Pick(path, idx) + [path[k]]
  {
    assert Pick(path, idx + [k])[|idx|] == path[k];
  }

  /** The list `maximize_concavity(path, polygons)` returns, or raises. */
  function MaximizeConcavity(env: Env, path: seq<Pid>, polys: seq<seq<Pid>>): Result<seq<Pid>>
    requires AllRings(polys)
  {
    match ConcavityPositions(Blocked(env, polys), path)
    case Err(e) => Err(e)
    case Ok(idx) => Ok(Pick(path, idx))
  }

  /** One pass of the loop that raises nothing. */
  lemma StepsUnfold(ob: (Pid, Pid) -> bool, path: seq<Pid>, i: int, j: int, acc: seq<nat>, iterations: nat)
    requires |path| > 0 && -|path| <= i < |path| && -|path| <= j < |path| && iterations + 1 <= ITERATION_LIMIT
    requires Below(acc, |path|)
    ensures var n := |path|;
      var k := Norm(n, j);
      var free := !ob(path[Norm(n, i)], path[k]);
      Below(acc + [k], n) &&
      Steps(ob, path, i, j, acc, iterations) ==
        if j == n - 1 && free then Ok(acc + [n - 1])
        else if j == i + 1 || free then Steps(ob, path, j, n - 1, acc + [k], iterations + 1)
        else Steps(ob, path, i, j - 1, acc, iterations + 1)
  { }

  /** The loop of `maximize_concavity` as written, asking `ob` whether a
      line is obstructed. */
  method ConcavityLoop(ob: (Pid, Pid) -> bool, path: seq<Pid>) returns (r: Result<seq<Pid>>)
    ensures r == (match ConcavityPositions(ob, path)
                  case Err(e) => Err(e)
                  case Ok(idx) => Ok(Pick(path, idx)))
  {
    if |path| == 0 {
      return Err(IndexError);
    }
    ghost var goal := ConcavityPositions(ob, path);
    var n := |path|;
    var shorterRoute := [path[0]];
    ghost var trace: seq<nat> := [0];
    var i: int, j: int := 0, n - 1;
    var iterations: nat := 0;
    while i < n
      invariant i < n && j < n && iterations <= ITERATION_LIMIT
      invariant Below(trace, n) && shorterRoute == Pick(path, trace)
      invariant Steps(ob, path, i, j, trace, iterations) == goal
      decreases ITERATION_LIMIT - iterations
    {
      var pI := PyAt(path, i);
      if pI.None? {
        assert goal == Err(IndexError);
        return Err(IndexError);
      }
      iterations := iterations + 1;
      if iterations > ITERATION_LIMIT {
        assert goal == Err(TimeoutError);
        return Err(TimeoutError);
      }
      var pJ := PyAt(path, j);
      if pJ.None? {
        assert goal == Err(IndexError);
        return Err(IndexError);
      }
      var obstructed := ob(pI.value, pJ.value);
      ghost var k := Norm(n, j);
      assert pI.value == path[Norm(n, i)] && pJ.value == path[k];
      StepsUnfold(ob, path, i, j, trace, iterations - 1);
      if j == n - 1 && !obstructed {
        assert goal == Ok(trace + [n - 1]);
        PickAppend(path, trace, n - 1);
        shorterRoute := shorterRoute + [path[n - 1]];
        return Ok(shorterRoute);
      }
      if j == i + 1 {
        assert goal == Steps(ob, path, j, n - 1, trace + [k], iterations);
        PickAppend(path, trace, k);
        shorterRoute := shorterRoute + [pJ.value];
        trace := trace + [k];
        i := j;
        j := n - 1;
        continue;
      }
      if !obstructed {
        assert goal == Steps(ob, path, j, n - 1, trace + [k], iterations);
        PickAppend(path, trace, k);
        shorterRoute := shorterRoute + [pJ.value];
        trace := trace + [k];
        i := j;
        j := n - 1;
      } else {
        assert goal == Steps(ob, path, i, j - 1, trace, iterations);
        j := j - 1;
      }
    }
    assert false;
  }

  /** `maximize_concavity(path, polygons)`: the loop above with the
      polygons' obstruction test as its oracle. */
  method MaximizeConcavityLoop(env: Env, path: seq<Pid>, polys: seq<seq<Pid>>) returns (r: Result<seq<Pid>>)
    requires AllRings(polys)
    ensures r == MaximizeConcavity(env, path, polys)
  {
    r := ConcavityLoop(Blocked(env, polys), path);
  }

  /** The kept positions before the final hop: they start at 0, strictly
      increase, and every hop that skips a waypoint is unobstructed. */
  ghost predicate GoodTrace(ob: (Pid, Pid) -> bool, path: seq<Pid>, idx: seq<nat>)
  {
    |idx| >= 1 && idx[0] == 0 && Below(idx, |path|) &&
    (forall k :: 0 <= k < |idx| - 1 ==> idx[k] < idx[k + 1]) &&
    (forall k :: 0 <= k < |idx| - 1 && idx[k + 1] > idx[k] + 1 ==> !ob(path[idx[k]], path[idx[k + 1]]))
  }

  /** The states the loop can be in: i < j, or i = j = n - 1 after a
      forced step onto the last point, or j has passed i because the
      last point is inside an obstacle. */
  ghost predicate LoopState(ob: (Pid, Pid) -> bool, path: seq<Pid>, i: int, j: int, acc: seq<nat>)
  {
    var n := |path|;
    n > 0 && GoodTrace(ob, path, acc) && acc[|acc| - 1] == i && 0 <= i < n && j < n &&
    (i < j || (i == j == n - 1) || (j < i && i == n - 1 && ob(path[i], path[i])))
  }

  /** What the kept positions are, for any self-blocking oracle. */
  ghost predicate ShapeOk(ob: (Pid, Pid) -> bool, path: seq<Pid>, r: seq<nat>)
  {
    var m := |r|;
    m >= 2 && GoodTrace(ob, path, r[..m - 1]) && r[m - 1] == |path| - 1 &&
    Below(r, |path|) && !ob(path[r[m - 2]], path[|path| - 1])
  }

  lemma GoodTraceExtend(ob: (Pid, Pid) -> bool, path: seq<Pid>, acc: seq<nat>, j: nat)
    requires GoodTrace(ob, path, acc) && acc[|acc| - 1] < j < |path|
    requires j > acc[|acc| - 1] + 1 ==> !ob(path[acc[|acc| - 1]], path[j])
    ensures GoodTrace(ob, path, acc + [j]) && (acc + [j])[|acc|] == j
  {
    var v := acc + [j];
    assert forall k :: 0 <= k < |acc| ==> v[k] == acc[k];
  }

  lemma LastHop(ob: (Pid, Pid) -> bool, path: seq<Pid>, acc: seq<nat>)
    requires GoodTrace(ob, path, acc)
    requires !ob(path[acc[|acc| - 1]], path[|path| - 1])
    ensures ShapeOk(ob, path, acc + [|path| - 1])
  {
    var v := acc + [|path| - 1];
    assert v[..|v| - 1] == acc;
  }

  /** Where one pass of the loop leaves its state: a free hop to the last
      point finishes with the expected shape, a free or forced hop moves
      `i` forward, and a blocked one moves `j` back. */
  lemma StepState(ob: (Pid, Pid) -> bool, path: seq<Pid>, i: int, j: int, acc: seq<nat>)
    requires SelfBlocking(ob) && LoopState(ob, path, i, j, acc) && j >= -|path|
    ensures var n := |path|;
      var free := !ob(path[i], path[Norm(n, j)]);
      (j == n - 1 && free ==> ShapeOk(ob, path, acc + [n - 1])) &&
      (!(j == n - 1 && free) && (j == i + 1 || free) ==> 0 <= j && LoopState(ob, path, j, n - 1, acc + [j])) &&
      (!(j == n - 1 && free) && !(j == i + 1 || free) ==> LoopState(ob, path, i, j - 1, acc))
  {
    var n := |path|;
    var free := !ob(path[i], path[Norm(n, j)]);
    if j == n - 1 && free {
      LastHop(ob, path, acc);
    } else if j == i + 1 || free {
      GoodTraceExtend(ob, path, acc, j);
    }
  }

  /** A pass that succeeds had iterations left and both indices in
      Python's range. */
  lemma StepsOkBounds(ob: (Pid, Pid) -> bool, path: seq<Pid>, i: int, j: int,
                      acc: seq<nat>, iterations: nat, r: seq<nat>)
    requires |path| > 0 && i < |path| && j < |path| && iterations <= ITERATION_LIMIT && Below(acc, |path|)
    requires Steps(ob, path, i, j, acc, iterations) == Ok(r)
    ensures iterations + 1 <= ITERATION_LIMIT && -|path| <= i && -|path| <= j
  {
  }

  lemma {:induction false} StepsShape(ob: (Pid, Pid) -> bool, path: seq<Pid>, i: int, j: int,
                                      acc: seq<nat>, iterations: nat, r: seq<nat>)
    requires SelfBlocking(ob) && iterations <= ITERATION_LIMIT
    requires LoopState(ob, path, i, j, acc)
    requires Steps(ob, path, i, j, acc, iterations) == Ok(r)
    ensures ShapeOk(ob, path, r)
    decreases ITERATION_LIMIT - iterations
  {
    var n: int := |path|;
    StepsOkBounds(ob, path, i, j, acc, iterations, r);
    StepsUnfold(ob, path, i, j, acc, iterations);
    StepState(ob, path, i, j, acc);
    var free := !ob(path[i], path[Norm(n, j)]);
    if j == n - 1 && free {
      assert r == acc + [n - 1];
    } else if j == i + 1 || free {
      StepsShape(ob, path, j, n - 1, acc + [j], iterations + 1, r);
    } else {
      StepsShape(ob, path, i, j - 1, acc, iterations + 1, r);
    }
  }

  /** The kept positions, for any self-blocking oracle, have the shape
      above. */
  lemma PositionsShape(ob: (Pid, Pid) -> bool, path: seq<Pid>)
    requires SelfBlocking(ob)
    ensures var r := ConcavityPositions(ob, path);
      r.Ok? ==> |path| > 0 && ShapeOk(ob, path, r.value)
  {
    var r := ConcavityPositions(ob, path);
    if r.Ok? {
      StepsShape(ob, path, 0, |path| - 1, [0], 0, r.value);
    }
  }

  /** The positions `maximize_concavity` keeps: before the last one they
      strictly increase from 0, each hop that skips a waypoint is
      unobstructed, and so is the final hop to the last point; that final
      hop may go from the last point to itself. */
  lemma MaximizeConcavityShape(env: Env, path: seq<Pid>, polys: seq<seq<Pid>>)
    requires AllRings(polys)
    ensures var r := ConcavityPositions(Blocked(env, polys), path);
      r.Ok? ==> ShapeOk(Blocked(env, polys), path, r.value)
  {
    BlockedIsSelfBlocking(env, polys);
    PositionsShape(Blocked(env, polys), path);
  }

  /** What `maximize_concavity` returns starts with `path[0]`, ends with
      `path[-1]` and takes all its points from `path`. */
  lemma MaximizeConcavityEnds(env: Env, path: seq<Pid>, polys: seq<seq<Pid>>)
    requires AllRings(polys)
    ensures var r := MaximizeConcavity(env, path, polys);
      r.Ok? ==> (|path| > 0 && |r.value| >= 2 &&
        r.value[0] == path[0] && r.value[|r.value| - 1] == path[|path| - 1] &&
        forall k :: 0 <= k < |r.value| ==> r.value[k] in path)
  {
    var ob := Blocked(env, polys);
    BlockedIsSelfBlocking(env, polys);
    PositionsShape(ob, path);
    var r := ConcavityPositions(ob, path);
    if r.Ok? {
      ShapeEnds(ob, path, r.value);
      assert MaximizeConcavity(env, path, polys) == Ok(Pick(path, r.value));
    }
  }

  /** The points at kept positions of that shape run from the first point
      of the path to its last, all taken from the path. */
  lemma ShapeEnds(ob: (Pid, Pid) -> bool, path: seq<Pid>, r: seq<nat>)
    requires ShapeOk(ob, path, r)
    ensures var q := Pick(path, r);
      |q| >= 2 && q[0] == path[0] && q[|q| - 1] == path[|path| - 1] &&
      forall k :: 0 <= k < |q| ==> q[k] in path
  {
    assert r[..|r| - 1][0] == r[0];
  }

  /** Each consecutive pair of `path` is unobstructed. */
  ghost predicate ClearHops(ob: (Pid, Pid) -> bool, path: seq<Pid>)
  {
    forall k :: 0 <= k < |path| - 1 ==> !ob(path[k], path[k + 1])
  }

  /** Kept positions of a path whose every hop is clear give a path whose
      every hop is clear: a hop between kept points either skips a
      waypoint, and was then tested free, or is a hop of the path. */
  lemma ShapeKeepsClear(ob: (Pid, Pid) -> bool, path: seq<Pid>, r: seq<nat>)
    requires ShapeOk(ob, path, r) && ClearHops(ob, path)
    ensures ClearHops(ob, Pick(path, r))
  {
    var m := |r|;
    var t := r[..m - 1];
    var q := Pick(path, r);
    forall k | 0 <= k < m - 1
      ensures !ob(q[k], q[k + 1])
    {
      if k < m - 2 {
        assert r[k] == t[k] && r[k + 1] == t[k + 1];
        assert t[k] < t[k + 1];
        if t[k + 1] == t[k] + 1 {
          assert !ob(path[t[k]], path[t[k] + 1]);
        }
      }
    }
  }

  /** A path none of whose hops crosses an obstacle comes back from
      `maximize_concavity` with no hop crossing one either. */
  lemma MaximizeConcavityKeepsClear(env: Env, path: seq<Pid>, polys: seq<seq<Pid>>)
    requires AllRings(polys)
    requires forall k :: 0 <= k < |path| - 1 ==> !Obstructed(env, polys, path[k], path[k + 1])
    ensures var r := MaximizeConcavity(env, path, polys);
      r.Ok? ==> forall k :: 0 <= k < |r.value| - 1 ==> !Obstructed(env, polys, r.value[k], r.value[k + 1])
  {
    var ob := Blocked(env, polys);
    MaximizeConcavityShape(env, path, polys);
    var idx := ConcavityPositions(ob, path);
    if idx.Ok? {
      ShapeKeepsClear(ob, path, idx.value);
    }
  }

  /** `maximize_concavity` raises IndexError (an empty path, or a
      subscript out of range) or TimeoutError (more than
      ITERATION_LIMIT passes), nothing else. */
  lemma MaximizeConcavityErrors(env: Env, path: seq<Pid>, polys: seq<seq<Pid>>)
    requires AllRings(polys)
    ensures var r := MaximizeConcavity(env, path, polys);
      r.Err? ==> r.error == IndexError || r.error == TimeoutError
    ensures |path| == 0 ==> MaximizeConcavity(env, path, polys) == Err(IndexError)
  {
    if |path| > 0 {
      StepsErrors(Blocked(env, polys), path, 0, |path| - 1, [0], 0);
    }
  }

  lemma {:induction false} StepsErrors(ob: (Pid, Pid) -> bool, path: seq<Pid>, i: int, j: int,
                                       acc: seq<nat>, iterations: nat)
    requires |path| > 0 && i < |path| && j < |path| && iterations <= ITERATION_LIMIT
    requires Below(acc, |path|)
    ensures var r := Steps(ob, path, i, j, acc, iterations);
      r.Err? ==> r.error == IndexError || r.error == TimeoutError
    decreases ITERATION_LIMIT - iterations
  {
    var n: int := |path|;
    if i < -n || iterations + 1 > ITERATION_LIMIT || j < -n {
      return;
    }
    var free := !ob(path[Norm(n, i)], path[Norm(n, j)]);
    if j == n - 1 && free {
    } else if j == i + 1 || free {
      StepsErrors(ob, path, j, n - 1, acc + [Norm(n, j)], iterations + 1);
    } else {
      StepsErrors(ob, path, i, j - 1, acc, iterations + 1);
    }
  }

  /** When the direct hop from the first to the last point is free, the
      result is just those two points. */
  lemma DirectHop(env: Env, path: seq<Pid>, polys: seq<seq<Pid>>)
    requires AllRings(polys) && |path| >= 1
    requires !Obstructed(env, polys, path[0], path[|path| - 1])
    ensures MaximizeConcavity(env, path, polys) == Ok([path[0], path[|path| - 1]])
  {
    var ob := Blocked(env, polys);
    var n := |path|;
    assert Norm(n, 0) == 0 && Norm(n, n - 1) == n - 1;
    assert !ob(path[0], path[n - 1]);
    assert Steps(ob, path, 0, n - 1, [0], 0) == Ok([0] + [n - 1]);
    assert [0] + [n - 1] == [0, n - 1];
    assert Pick(path, [0, n - 1]) == [path[0], path[n - 1]];
  }

  /** A two-point path whose only hop is obstructed: the hop is forced,
      then the last point is tested against itself and appended again, so
      the result repeats the destination. */
  lemma ForcedStepRepeatsEnd(env: Env, path: seq<Pid>, polys: seq<seq<Pid>>)
    requires AllRings(polys) && |path| == 2
    requires Obstructed(env, polys, path[0], path[1])
    requires !Obstructed(env, polys, path[1], path[1])
    ensures MaximizeConcavity(env, path, polys) == Ok([path[0], path[1], path[1]])
  {
    var ob := Blocked(env, polys);
    assert Steps(ob, path, 1, 1, [0, 1], 1) == Ok([0, 1] + [1]);
    assert Steps(ob, path, 0, 1, [0], 0) == Steps(ob, path, 1, 1, [0] + [1], 1);
    assert [0] + [1] == [0, 1] && [0, 1] + [1] == [0, 1, 1];
    assert Pick(path, [0, 1, 1]) == [path[0], path[1], path[1]];
  }
}
