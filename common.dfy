/** Shared vocabulary of the model: point identities, coordinates, the
    exceptions the Python code raises, and list helpers with Python's
    semantics (first-occurrence `index`, negative subscripts). */
module Common {

  /** `constants.ITERATION_LIMIT`: the bound every guarded loop checks. */
  const ITERATION_LIMIT: nat := 100

  /** A point is identified by its `point_id`; `Point` defines no `__eq__`,
      so `in`, `index` and `is` compare identity, which is id equality here. */
  type Pid = nat

  /** The coordinates of a point (`x`, `y`), exact reals. */
  datatype Coord = Coord(x: real, y: real)

  /** The Python exceptions the modelled code raises. */
  datatype Error =
    | IndexError
    | ValueError
    | TimeoutError
    | AttributeError
    | NotImplementedError
    | TypeError

  datatype Result<T> = Ok(value: T) | Err(error: Error)

  datatype Option<T> = None | Some(value: T)

  /** `list.index(p)`: the position of the first occurrence of `p`. */
  function IndexOf<T(==)>(s: seq<T>, p: T): (i: nat)
    requires p in s
    ensures i < |s| && s[i] == p
    ensures forall k :: 0 <= k < i ==> s[k] != p
  {
    if s[0] == p then 0 else 1 + IndexOf(s[1..], p)
  }

  /** `list.remove(p)`: drops the first occurrence of `p`. */
  function RemoveFirst<T(==)>(s: seq<T>, p: T): (r: seq<T>)
    requires p in s
    ensures |r| == |s| - 1
  {
    var i := IndexOf(s, p);
    s[..i] + s[i + 1..]
  }

  /** `list.remove(p)` takes away one occurrence of `p` and nothing else. */
  lemma RemoveFirstMultiset<T>(s: seq<T>, p: T)
    requires p in s
    ensures multiset(RemoveFirst(s, p)) == multiset(s) - multiset{p}
  {
    var i := IndexOf(s, p);
    assert s == s[..i] + [p] + s[i + 1..];
  }

  /** The position `min(..., key=...)` picks: the first of the least keys. */
  function FirstMinIndex(keys: seq<real>): (i: nat)
    requires |keys| > 0
    ensures i < |keys|
    ensures forall k :: 0 <= k < |keys| ==> keys[i] <= keys[k]
    ensures forall k :: 0 <= k < i ==> keys[k] > keys[i]
  {
    if |keys| == 1 then 0
    else
      var j := FirstMinIndex(keys[..|keys| - 1]);
      if keys[|keys| - 1] < keys[j] then |keys| - 1 else j
  }

  /** `list.reverse()` as a value. */
  function Reverse<T>(s: seq<T>): (r: seq<T>)
    ensures |r| == |s|
    ensures forall k :: 0 <= k < |s| ==> r[k] == s[|s| - 1 - k]
  {
    if s == [] then [] else Reverse(s[1..]) + [s[0]]
  }

  lemma {:induction false} ReverseReverse<T>(s: seq<T>)
    ensures Reverse(Reverse(s)) == s
  {
    var r := Reverse(Reverse(s));
    assert |r| == |s|;
    forall k | 0 <= k < |s| ensures r[k] == s[k] {
      assert r[k] == Reverse(s)[|s| - 1 - k];
    }
  }

  /** A Python subscript `s[j]`: negative `j` counts from the end, and a
      subscript outside `[-|s|, |s|)` raises `IndexError`. */
  function PyAt<T>(s: seq<T>, j: int): (r: Option<T>)
    ensures -|s| <= j < |s| <==> r.Some?
    ensures 0 <= j < |s| ==> r == Some(s[j])
    ensures -|s| <= j < 0 ==> r == Some(s[|s| + j])
  {
    if 0 <= j < |s| then Some(s[j])
    else if -|s| <= j < 0 then Some(s[|s| + j])
    else None
  }

  /** What the planner receives from outside the modelled code: the
      coordinates of every point, Shapely's `Point.within(Polygon)` on a
      ring of coordinates, the (geo-corrected) distance between two
      coordinates, and the Graham scan's sort by polar angle around an
      anchor (`atan2`, floating point). */
  datatype Env = Env(
    loc: Pid -> Coord,
    within: (seq<Coord>, Coord) -> bool,
    dist: (Coord, Coord) -> real,
    polarSort: (Coord, seq<Pid>) -> seq<Pid>)

  /** `env` seen after the point object `p` was moved to `c` in place. */
  function Placed(env: Env, p: Pid, c: Coord): (e: Env)
    ensures e.loc(p) == c && forall q :: q != p ==> e.loc(q) == env.loc(q)
    ensures e.within == env.within && e.dist == env.dist && e.polarSort == env.polarSort
  {
    env.(loc := (q: Pid) => if q == p then c else env.loc(q))
  }

  /** The assumptions the model makes of those collaborators. */
  ghost predicate EnvOk(env: Env)
  {
    (forall a, b :: env.dist(a, b) >= 0.0) &&
    (forall c: Coord, s: seq<Pid> :: multiset(env.polarSort(c, s)) == multiset(s))
  }
}
