/** receptors.py: the grid of receptors that carry the pheromone level of
    each cell of the surveillance area, the lookups on it (the receptor at
    a location, the receptors around a point, the closest receptor), the
    decay of pheromones and the concentration of pheromones (CoP) at a
    point. Receptors are objects whose `pheromones` field the grid updates
    in place; the grid keeps them in a list laid out row by row. */
module Receptors {
  import opened Common
  import Polygons
  import Geometry

  const MIN_LAT: real := 110.0
  const MAX_LAT: real := 150.0
  const MIN_LONG: real := 0.0
  const MAX_LONG: real := 50.0
  const GRID_WIDTH: real := 1.0
  const GRID_HEIGHT: real := 1.0
  const LAT_GRID_EXTRA: real := 8.0
  const LONG_GRID_EXTRA: real := 8.0

  /** The pheromone level of a receptor that never decays. */
  const FULL_PHEROMONES: real := 100.0
  /** The upper end of the uniform draw for the other receptors. */
  const INITIAL_DRAW_MAX: real := 0.1
  /** The radius `get_closest_receptor` searches: one and a half times
      the larger spacing. */
  const CLOSEST_RADIUS: real := Geometry.Max(GRID_WIDTH, GRID_HEIGHT) * 1.5
  /** The least distance the CoP divides by. */
  const MIN_COP_DISTANCE: real := 0.1

  /** The grid extends the area of interest by a frame on every side. */
  const GRID_MIN_LAT: real := MIN_LAT - LAT_GRID_EXTRA
  const GRID_MAX_LAT: real := MAX_LAT + LAT_GRID_EXTRA
  const GRID_MIN_LON: real := MIN_LONG - LONG_GRID_EXTRA
  const GRID_MAX_LON: real := MAX_LONG + LONG_GRID_EXTRA

  /** `max_cols` and `max_rows` (see `GridDimensions`). */
  const MAX_COLS: nat := 66
  const MAX_ROWS: nat := 56

  /** Python's `int()` on a float: truncation toward zero. */
  function Trunc(v: real): (t: int)
    ensures v >= 0.0 ==> t == v.Floor
  {
    if v >= 0.0 then v.Floor else -((-v).Floor)
  }

  function Ceil(v: real): (t: int)
    ensures v <= t as real < v + 1.0
  {
    -((-v).Floor)
  }

  /** `is_in_area_of_interest`: the closed box of the area of interest. */
  predicate InAreaOfInterest(c: Coord)
  {
    MIN_LAT <= c.x <= MAX_LAT && MIN_LONG <= c.y <= MAX_LONG
  }

  /** The box `get_receptor_at_location` accepts. */
  predicate InGridBox(c: Coord)
  {
    GRID_MIN_LAT <= c.x <= GRID_MAX_LAT && GRID_MIN_LON <= c.y <= GRID_MAX_LON
  }

  /** Where `initiate_grid` puts the receptor of a row and a column. */
  function CellLoc(row: int, col: int): Coord
  {
    Coord(GRID_MIN_LAT + row as real * GRID_HEIGHT, GRID_MIN_LON + col as real * GRID_WIDTH)
  }

  /** `initiate_grid` takes the span of the grid over the spacing, floor
      divided and then rounded up, as the number of columns and of rows. */
  lemma GridDimensions()
    ensures MAX_COLS == Ceil(((GRID_MAX_LON - GRID_MIN_LON) / GRID_WIDTH).Floor as real)
    ensures MAX_ROWS == Ceil(((GRID_MAX_LAT - GRID_MIN_LAT) / GRID_HEIGHT).Floor as real)
  {
  }

  /** The grid, with its frame, contains the area of interest. */
  lemma AreaOfInterestInGrid(c: Coord)
    requires InAreaOfInterest(c)
    ensures InGridBox(c) && c.x < GRID_MAX_LAT && c.y < GRID_MAX_LON
  {
  }

  /** Row-major positions: `row * max_cols + col` splits back into the
      row and the column. */
  lemma IndexSplit(row: int, col: int)
    requires 0 <= row && 0 <= col < MAX_COLS
    ensures (row * MAX_COLS + col) / MAX_COLS == row && (row * MAX_COLS + col) % MAX_COLS == col
  {
    var i := row * MAX_COLS + col;
    var q, m := i / MAX_COLS, i % MAX_COLS;
    assert i == q * MAX_COLS + m && 0 <= m < MAX_COLS;
    assert (q - row) * MAX_COLS == col - m;
  }

  class Receptor {
    const loc: Coord
    const inPolygon: bool
    const decay: bool
    var pheromones: real

    /** `Receptor(x, y, in_polygon)`: receptors on land or outside the area
        of interest hold 100 and never decay; the others start from a
        uniform draw in [0, 0.1), passed in as `draw`, and decay. */
    constructor(x: real, y: real, inPolygon: bool, draw: real)
      requires 0.0 <= draw < INITIAL_DRAW_MAX
      ensures loc == Coord(x, y) && this.inPolygon == inPolygon
      ensures decay <==> !inPolygon && InAreaOfInterest(loc)
      ensures pheromones == if decay then draw else FULL_PHEROMONES
    {
      loc := Coord(x, y);
      this.inPolygon := inPolygon;
      if inPolygon {
        pheromones := FULL_PHEROMONES;
        decay := false;
      } else if !InAreaOfInterest(Coord(x, y)) {
        pheromones := FULL_PHEROMONES;
        decay := false;
      } else {
        pheromones := draw;
        decay := true;
      }
    }

    /** `in_range_of_point`: the distance from the point to the receptor is
        at most `radius`. */
    predicate InRangeOfPoint(env: Env, c: Coord, radius: real)
    {
      env.dist(c, loc) <= radius
    }
  }

  /** What `initiate_grid` puts at position `i` of the list: the receptor
      of row `i / max_cols` and column `i % max_cols`, flagged when the
      location lies in (or on the edge of) one of the polygons, with
      `draws[i]` as its uniform draw. */
  predicate InitialCell(env: Env, polygons: seq<seq<Pid>>, draws: seq<real>, i: nat, r: Receptor)
    requires Polygons.AllRings(polygons) && i < |draws|
    reads r
  {
    r.loc == CellLoc(i / MAX_COLS, i % MAX_COLS) &&
    r.inPolygon == Polygons.InAnyPolygon(env, polygons, r.loc, false) &&
    (r.decay <==> !r.inPolygon && InAreaOfInterest(r.loc)) &&
    r.pheromones == (if r.decay then draws[i] else FULL_PHEROMONES)
  }

  predicate InitialCells(env: Env, polygons: seq<seq<Pid>>, draws: seq<real>, rs: seq<Receptor>)
    requires Polygons.AllRings(polygons) && |rs| <= |draws|
    reads set i | 0 <= i < |rs| :: rs[i]
  {
    forall i :: 0 <= i < |rs| ==> InitialCell(env, polygons, draws, i, rs[i])
  }

  predicate Distinct(rs: seq<Receptor>)
  {
    forall i, j :: 0 <= i < j < |rs| ==> rs[i] != rs[j]
  }

  predicate DrawsOk(draws: seq<real>)
  {
    |draws| == MAX_ROWS * MAX_COLS && forall i :: 0 <= i < |draws| ==> 0.0 <= draws[i] < INITIAL_DRAW_MAX
  }

  /** The inner loop of `initiate_grid`: appends the receptors of one row,
      column by column. */
  method InitiateRow(env: Env, polygons: seq<seq<Pid>>, draws: seq<real>, row: nat, acc: seq<Receptor>)
    returns (rs: seq<Receptor>)
    requires Polygons.AllRings(polygons) && DrawsOk(draws)
    requires row < MAX_ROWS && |acc| == row * MAX_COLS
    requires InitialCells(env, polygons, draws, acc) && Distinct(acc)
    ensures |rs| == (row + 1) * MAX_COLS && rs[..|acc|] == acc
    ensures InitialCells(env, polygons, draws, rs) && Distinct(rs)
    ensures forall i :: |acc| <= i < |rs| ==> fresh(rs[i])
  {
    rs := acc;
    var col := 0;
    while col < MAX_COLS
      invariant 0 <= col <= MAX_COLS && |rs| == row * MAX_COLS + col && rs[..|acc|] == acc
      invariant InitialCells(env, polygons, draws, rs) && Distinct(rs)
      invariant forall i :: |acc| <= i < |rs| ==> fresh(rs[i])
    {
      var c := CellLoc(row, col);
      var inPolygon := Polygons.CheckIfPointInPolygons(env, polygons, c, false);
      var i := row * MAX_COLS + col;
      IndexSplit(row, col);
      var r := new Receptor(c.x, c.y, inPolygon, draws[i]);
      rs := rs + [r];
      col := col + 1;
    }
  }

  /** `initiate_grid`: one receptor per row and column, row by row. */
  method InitiateGrid(env: Env, polygons: seq<seq<Pid>>, draws: seq<real>) returns (rs: seq<Receptor>)
    requires Polygons.AllRings(polygons) && DrawsOk(draws)
    ensures |rs| == MAX_ROWS * MAX_COLS
    ensures InitialCells(env, polygons, draws, rs) && Distinct(rs)
    ensures forall i :: 0 <= i < |rs| ==> fresh(rs[i])
  {
    rs := [];
    var row := 0;
    while row < MAX_ROWS
      invariant 0 <= row <= MAX_ROWS && |rs| == row * MAX_COLS
      invariant InitialCells(env, polygons, draws, rs) && Distinct(rs)
      invariant forall i :: 0 <= i < |rs| ==> fresh(rs[i])
    {
      rs := InitiateRow(env, polygons, draws, row, rs);
      row := row + 1;
    }
  }

  /** The value `calculate_CoP` returns: infinite outside the area of
      interest and on land. */
  datatype CoP = Infinite | Finite(value: real)

  /** The weight of a receptor in the CoP: one over its distance, with
      distances below 0.1 counted as 0.1. */
  function Weight(env: Env, c: Coord, loc: Coord): real
  {
    1.0 / Geometry.Max(MIN_COP_DISTANCE, env.dist(c, loc))
  }

  lemma WeightBounds(env: Env, c: Coord, loc: Coord)
    ensures 0.0 < Weight(env, c, loc) <= 1.0 / MIN_COP_DISTANCE
  {
    var m := Geometry.Max(MIN_COP_DISTANCE, env.dist(c, loc));
    assert m >= MIN_COP_DISTANCE;
    assert Weight(env, c, loc) * m == 1.0;
  }

  /** The sum `calculate_CoP` accumulates over the selected receptors. */
  function CoPSum(env: Env, c: Coord, rs: seq<Receptor>): real
    reads set i | 0 <= i < |rs| :: rs[i]
  {
    if rs == [] then 0.0
    else CoPSum(env, c, rs[..|rs| - 1]) + Weight(env, c, rs[|rs| - 1].loc) * rs[|rs| - 1].pheromones
  }

  /** The pheromones held by a list of receptors. */
  function PheromoneSum(rs: seq<Receptor>): real
    reads set i | 0 <= i < |rs| :: rs[i]
  {
    if rs == [] then 0.0 else PheromoneSum(rs[..|rs| - 1]) + rs[|rs| - 1].pheromones
  }

  predicate NonNegative(rs: seq<Receptor>)
    reads set i | 0 <= i < |rs| :: rs[i]
  {
    forall i :: 0 <= i < |rs| ==> rs[i].pheromones >= 0.0
  }

  /** With no negative pheromones the CoP is at least 0 and at most ten
      times the pheromones it sums, the weight being at most 1 / 0.1. */
  lemma {:induction false} CoPSumBounds(env: Env, c: Coord, rs: seq<Receptor>)
    requires NonNegative(rs)
    ensures 0.0 <= CoPSum(env, c, rs) <= PheromoneSum(rs) / MIN_COP_DISTANCE
  {
    if rs != [] {
      var last := rs[|rs| - 1];
      assert NonNegative(rs[..|rs| - 1]);
      CoPSumBounds(env, c, rs[..|rs| - 1]);
      WeightBounds(env, c, last.loc);
      var w := Weight(env, c, last.loc);
      assert 0.0 <= w * last.pheromones;
      assert (1.0 / MIN_COP_DISTANCE - w) * last.pheromones >= 0.0;
    }
  }

  /** The accumulation of `calculate_CoP` over the selected receptors; at
      least 0 and at most ten times their pheromones when none is
      negative. */
  method SumCoP(env: Env, c: Coord, rs: seq<Receptor>) returns (total: real)
    ensures total == CoPSum(env, c, rs)
    ensures NonNegative(rs) ==> 0.0 <= total <= PheromoneSum(rs) / MIN_COP_DISTANCE
  {
    total := 0.0;
    var i := 0;
    while i < |rs|
      invariant 0 <= i <= |rs| && total == CoPSum(env, c, rs[..i])
    {
      assert rs[..i + 1][..i] == rs[..i];
      total := total + Weight(env, c, rs[i].loc) * rs[i].pheromones;
      i := i + 1;
    }
    assert rs[..|rs|] == rs;
    if NonNegative(rs) {
      CoPSumBounds(env, c, rs);
    }
  }

  /** The CoP at a point from the selected receptors: infinite outside
      the area of interest and inside (or on the edge of) a polygon,
      otherwise their weighted pheromones. */
  ghost function CoPOf(env: Env, polygons: seq<seq<Pid>>, c: Coord, rs: seq<Receptor>): CoP
    requires Polygons.AllRings(polygons)
    reads set i | 0 <= i < |rs| :: rs[i]
  {
    if !InAreaOfInterest(c) || Polygons.InAnyPolygon(env, polygons, c, false) then Infinite
    else Finite(CoPSum(env, c, rs))
  }

  /** The tail of `calculate_CoP`: the area-of-interest test, the polygon
      test, then the weighted sum. */
  method CoPFrom(env: Env, polygons: seq<seq<Pid>>, c: Coord, rs: seq<Receptor>) returns (cop: CoP)
    requires Polygons.AllRings(polygons)
    ensures cop == CoPOf(env, polygons, c, rs)
  {
    if !InAreaOfInterest(c) {
      return Infinite;
    }
    var onLand := Polygons.CheckIfPointInPolygons(env, polygons, c, false);
    if onLand {
      return Infinite;
    }
    var total := SumCoP(env, c, rs);
    cop := Finite(total);
  }

  /** The list the nearest-receptor loop works on: the distance from each
      receptor to the point. */
  function DistancesTo(env: Env, rs: seq<Receptor>, c: Coord): (ds: seq<real>)
    ensures |ds| == |rs| && forall k :: 0 <= k < |rs| ==> ds[k] == env.dist(rs[k].loc, c)
  {
    seq(|rs|, k requires 0 <= k < |rs| => env.dist(rs[k].loc, c))
  }

  /** The loop of `get_closest_receptor`: keeps the first receptor strictly
      closer than every one before it, starting from an infinite distance;
      with no candidate it raises `ValueError`. */
  method ClosestReceptor(env: Env, candidates: seq<Receptor>, c: Coord) returns (r: Result<Receptor>)
    ensures r.Err? <==> |candidates| == 0
    ensures r.Err? ==> r.error == ValueError
    ensures r.Ok? ==> r.value == candidates[FirstMinIndex(DistancesTo(env, candidates, c))]
  {
    var ds := DistancesTo(env, candidates, c);
    var best: Option<real> := None;
    var selected: Option<nat> := None;
    var i := 0;
    while i < |candidates|
      invariant 0 <= i <= |candidates|
      invariant selected.None? <==> i == 0
      invariant best.None? <==> i == 0
      invariant i > 0 ==> selected.value == FirstMinIndex(ds[..i]) && best.value == ds[selected.value]
    {
      assert ds[..i + 1][..i] == ds[..i];
      var d := env.dist(candidates[i].loc, c);
      if best.None? || d < best.value {
        best := Some(d);
        selected := Some(i);
      }
      i := i + 1;
    }
    if selected.None? {
      return Err(ValueError);
    }
    assert ds[..|candidates|] == ds;
    r := Ok(candidates[selected.value]);
  }

  /** The closest candidate is at least as close as every candidate, and
      closer than every candidate before it. */
  lemma ClosestIsClosest(env: Env, candidates: seq<Receptor>, c: Coord)
    requires |candidates| > 0
    ensures var k := FirstMinIndex(DistancesTo(env, candidates, c));
      (forall j :: 0 <= j < |candidates| ==> env.dist(candidates[k].loc, c) <= env.dist(candidates[j].loc, c)) &&
      (forall j :: 0 <= j < k ==> env.dist(candidates[j].loc, c) > env.dist(candidates[k].loc, c))
  {
    var ds := DistancesTo(env, candidates, c);
    var k := FirstMinIndex(ds);
    forall j | 0 <= j < |candidates|
      ensures env.dist(candidates[k].loc, c) <= env.dist(candidates[j].loc, c)
    {
      assert ds[k] <= ds[j];
    }
    forall j | 0 <= j < k
      ensures env.dist(candidates[j].loc, c) > env.dist(candidates[k].loc, c)
    {
      assert ds[j] > ds[k];
    }
  }

  /** The rows and columns `select_receptors_in_radius` scans: the square
      of half-width `max(radius / 100, GRID_WIDTH / 2)` around the point,
      widened to whole cells and cut to the grid; the upper bounds are
      exclusive. */
  datatype Window = Window(minRow: int, maxRow: int, minCol: int, maxCol: int)

  function LonLatRadius(radius: real): real
  {
    Geometry.Max(radius / 100.0, GRID_WIDTH / 2.0)
  }

  function WindowAround(c: Coord, radius: real): (w: Window)
    ensures 0 <= w.minRow && w.maxRow <= MAX_ROWS && 0 <= w.minCol && w.maxCol <= MAX_COLS
  {
    var lr := LonLatRadius(radius);
    var minRow := IntMax((((c.x - lr) - GRID_MIN_LAT) / GRID_HEIGHT).Floor, 0);
    var maxRow := IntMin(Ceil(((c.x + lr) - GRID_MIN_LAT) / GRID_HEIGHT), MAX_ROWS);
    var minCol := IntMax((((c.y - lr) - GRID_MIN_LON) / GRID_WIDTH).Floor, 0);
    var maxCol := IntMin(Ceil(((c.y + lr) - GRID_MIN_LON) / GRID_WIDTH), MAX_COLS);
    Window(minRow, maxRow, minCol, maxCol)
  }

  function IntMax(a: int, b: int): int { if a >= b then a else b }
  function IntMin(a: int, b: int): int { if a <= b then a else b }

  predicate InWindow(w: Window, row: int, col: int)
  {
    w.minRow <= row < w.maxRow && w.minCol <= col < w.maxCol
  }

  /** Every cell of the grid whose location lies in the half-open square
      `[x - r, x + r) x [y - r, y + r)` around the point is scanned, `r`
      being the lon/lat radius. */
  lemma WindowCoversSquare(c: Coord, radius: real, row: int, col: int)
    requires 0 <= row < MAX_ROWS && 0 <= col < MAX_COLS
    requires c.x - LonLatRadius(radius) <= CellLoc(row, col).x < c.x + LonLatRadius(radius)
    requires c.y - LonLatRadius(radius) <= CellLoc(row, col).y < c.y + LonLatRadius(radius)
    ensures InWindow(WindowAround(c, radius), row, col)
  {
  }

  /** Every scanned cell lies within one cell of that square. */
  lemma WindowWithinSquare(c: Coord, radius: real, row: int, col: int)
    requires InWindow(WindowAround(c, radius), row, col)
    ensures c.x - LonLatRadius(radius) - GRID_HEIGHT < CellLoc(row, col).x < c.x + LonLatRadius(radius)
    ensures c.y - LonLatRadius(radius) - GRID_WIDTH < CellLoc(row, col).y < c.y + LonLatRadius(radius)
  {
  }

  /** The loop of `depreciate_pheromones` over a list of distinct
      receptors. */
  method Depreciate(rs: seq<Receptor>, rate: real)
    requires Distinct(rs)
    modifies set i | 0 <= i < |rs| :: rs[i]
    ensures forall k :: 0 <= k < |rs| ==>
      rs[k].pheromones == if rs[k].decay then old(rs[k].pheromones) * rate else old(rs[k].pheromones)
    ensures rate >= 0.0 && old(NonNegative(rs)) ==> NonNegative(rs)
    ensures (0.0 <= rate <= 1.0 && old(NonNegative(rs))) ==>
      forall k :: 0 <= k < |rs| ==> rs[k].pheromones <= old(rs[k].pheromones)
  {
    var i := 0;
    while i < |rs|
      invariant 0 <= i <= |rs|
      invariant forall k :: 0 <= k < i ==>
        rs[k].pheromones == if rs[k].decay then old(rs[k].pheromones) * rate else old(rs[k].pheromones)
      invariant forall k :: i <= k < |rs| ==> rs[k].pheromones == old(rs[k].pheromones)
    {
      var r := rs[i];
      if r.decay {
        r.pheromones := r.pheromones * rate;
      }
      i := i + 1;
    }
    if rate >= 0.0 && old(NonNegative(rs)) {
      forall k | 0 <= k < |rs| ensures 0.0 <= rs[k].pheromones {
        assert old(rs[k].pheromones) >= 0.0;
      }
    }
    if 0.0 <= rate <= 1.0 && old(NonNegative(rs)) {
      forall k | 0 <= k < |rs| ensures rs[k].pheromones <= old(rs[k].pheromones) {
        var p := old(rs[k].pheromones);
        assert p >= 0.0;
        assert p * rate <= p * 1.0;
      }
    }
  }

  class ReceptorGrid {
    const env: Env
    const polygons: seq<seq<Pid>>
    const receptors: seq<Receptor>
    const maxCols: nat
    const maxRows: nat

    /** The grid as `initiate_grid` lays it out: `max_rows * max_cols`
        distinct receptors, row by row. */
    ghost predicate Valid()
    {
      maxCols == MAX_COLS && maxRows == MAX_ROWS &&
      |receptors| == MAX_ROWS * MAX_COLS &&
      Polygons.AllRings(polygons) &&
      Distinct(receptors) &&
      (forall i :: 0 <= i < |receptors| ==> receptors[i].loc == CellLoc(i / MAX_COLS, i % MAX_COLS))
    }

    /** `ReceptorGrid(polygons, world)`: builds the grid from the polygons
        to avoid; `draws` holds the uniform draw of each position. */
    constructor(env: Env, polygons: seq<seq<Pid>>, draws: seq<real>)
      requires Polygons.AllRings(polygons) && DrawsOk(draws)
      ensures Valid() && this.env == env && this.polygons == polygons
      ensures InitialCells(env, polygons, draws, receptors)
      ensures NonNegative(receptors)
      ensures forall i :: 0 <= i < |receptors| ==> fresh(receptors[i])
    {
      this.env := env;
      this.polygons := polygons;
      var rs := InitiateGrid(env, polygons, draws);
      receptors := rs;
      maxCols := MAX_COLS;
      maxRows := MAX_ROWS;
      new;
      assert forall i :: 0 <= i < |receptors| ==> InitialCell(env, polygons, draws, i, receptors[i]);
    }

    /** The receptor of a row and a column. */
    function At(row: int, col: int): (r: Receptor)
      requires Valid() && 0 <= row < MAX_ROWS && 0 <= col < MAX_COLS
      ensures r in receptors && r.loc == CellLoc(row, col)
    {
      IndexSplit(row, col);
      receptors[row * MAX_COLS + col]
    }

    /** `get_receptor_at_location` as written: `None` outside the grid's
        box, otherwise the list entry at `row * max_cols + col`, where
        `row` and `col` are the truncated offsets; a subscript past the end
        of the list raises `IndexError`. */
    function ReceptorAtLocationAsWritten(c: Coord): Result<Option<Receptor>>
      requires Valid()
    {
      if GRID_MAX_LAT < c.x || c.x < GRID_MIN_LAT || GRID_MAX_LON < c.y || c.y < GRID_MIN_LON then Ok(None)
      else
        var row := Trunc((c.x - GRID_MIN_LAT) / GRID_HEIGHT);
        var col := Trunc((c.y - GRID_MIN_LON) / GRID_WIDTH);
        match PyAt(receptors, row * maxCols + col)
        case None => Err(IndexError)
        case Some(r) => Ok(Some(r))
    }

    /** The lookup the adjacency set-up relies on, with the row and the
        column clamped to the last ones: `None` exactly outside the box,
        otherwise the receptor whose cell (its location plus one spacing
        in each direction) contains the point. */
    function ReceptorAtLocation(c: Coord): (r: Option<Receptor>)
      requires Valid()
      ensures r.Some? <==> InGridBox(c)
      ensures r.Some? ==> (r.value in receptors &&
        r.value.loc.x <= c.x <= r.value.loc.x + GRID_HEIGHT &&
        r.value.loc.y <= c.y <= r.value.loc.y + GRID_WIDTH)
    {
      if !InGridBox(c) then None
      else
        var row := IntMin(Trunc((c.x - GRID_MIN_LAT) / GRID_HEIGHT), MAX_ROWS - 1);
        var col := IntMin(Trunc((c.y - GRID_MIN_LON) / GRID_WIDTH), MAX_COLS - 1);
        Some(At(row, col))
    }

    /** Away from the top and right edges of the box the code as written
        finds the same receptor. */
    lemma AsWrittenAwayFromEdges(c: Coord)
      requires Valid() && InGridBox(c) && c.x < GRID_MAX_LAT && c.y < GRID_MAX_LON
      ensures ReceptorAtLocationAsWritten(c) == Ok(ReceptorAtLocation(c))
    {
      var row := Trunc((c.x - GRID_MIN_LAT) / GRID_HEIGHT);
      var col := Trunc((c.y - GRID_MIN_LON) / GRID_WIDTH);
      IndexSplit(row, col);
    }

    /** In particular every point of the area of interest has its
        receptor, as the adjacency set-up needs. */
    lemma AreaOfInterestHasReceptor(c: Coord)
      requires Valid() && InAreaOfInterest(c)
      ensures ReceptorAtLocationAsWritten(c).Ok? && ReceptorAtLocationAsWritten(c).value.Some?
    {
      AreaOfInterestInGrid(c);
      AsWrittenAwayFromEdges(c);
    }

    /** On the top edge of the box, which the guard lets through, the
        subscript runs past the end of the list. */
    lemma AsWrittenTopEdge()
      requires Valid()
      ensures InGridBox(Coord(GRID_MAX_LAT, 0.0))
      ensures ReceptorAtLocationAsWritten(Coord(GRID_MAX_LAT, 0.0)) == Err(IndexError)
    {
    }

    /** On the right edge the subscript lands on the first receptor of the
        next row, a whole grid width away from the point. */
    lemma AsWrittenRightEdge()
      requires Valid()
      ensures InGridBox(Coord(MIN_LAT, GRID_MAX_LON))
      ensures ReceptorAtLocationAsWritten(Coord(MIN_LAT, GRID_MAX_LON)) == Ok(Some(At(9, 0)))
      ensures At(9, 0).loc == Coord(MIN_LAT + GRID_HEIGHT, GRID_MIN_LON)
    {
      IndexSplit(9, 0);
      assert 8 * MAX_COLS + MAX_COLS == 9 * MAX_COLS + 0;
    }

    /** Position `k` of a selection: the receptor at list position
        `idx[k]`, in the window, in range of the point. */
    ghost predicate Picked(w: Window, c: Coord, range: real, selected: seq<Receptor>, idx: seq<int>)
      requires Valid()
    {
      |selected| == |idx| &&
      (forall k :: 0 <= k < |idx| ==>
        0 <= idx[k] < |receptors| && selected[k] == receptors[idx[k]] &&
        InWindow(w, idx[k] / MAX_COLS, idx[k] % MAX_COLS) &&
        selected[k].InRangeOfPoint(env, c, range)) &&
      (forall k, j :: 0 <= k < j < |idx| ==> idx[k] < idx[j])
    }

    /** Every receptor of the window's rows before `rowEnd` that is in
        range of the point is in `selected`. */
    ghost predicate Complete(w: Window, c: Coord, range: real, selected: seq<Receptor>, rowEnd: int)
      requires Valid() && 0 <= w.minRow && w.maxRow <= MAX_ROWS && 0 <= w.minCol && w.maxCol <= MAX_COLS
    {
      forall rw, cl :: (w.minRow <= rw < rowEnd && rw < w.maxRow && w.minCol <= cl < w.maxCol &&
        At(rw, cl).InRangeOfPoint(env, c, range)) ==> At(rw, cl) in selected
    }

    /** What `select_receptors_in_radius` returns: the receptors of the
        window around the point within `radius * multiplier` of it, in
        list order (`idx` gives their positions), every such receptor
        included. */
    ghost predicate Selection(c: Coord, radius: real, multiplier: real, selected: seq<Receptor>, idx: seq<int>)
      requires Valid()
    {
      Picked(WindowAround(c, radius), c, radius * multiplier, selected, idx) &&
      Complete(WindowAround(c, radius), c, radius * multiplier, selected, WindowAround(c, radius).maxRow)
    }

    /** The inner loop of `select_receptors_in_radius`: appends the
        receptors of one row of the window, in column order, that are in
        range of the point. */
    method SelectInRow(c: Coord, w: Window, row: int, range: real, acc: seq<Receptor>, ghost accIdx: seq<int>)
      returns (selected: seq<Receptor>, ghost idx: seq<int>)
      requires Valid() && 0 <= w.minCol && w.maxCol <= MAX_COLS && w.minRow <= row < w.maxRow && 0 <= row < MAX_ROWS
      requires Picked(w, c, range, acc, accIdx)
      requires forall k :: 0 <= k < |accIdx| ==> accIdx[k] < row * MAX_COLS
      ensures Picked(w, c, range, selected, idx)
      ensures |acc| <= |selected| && selected[..|acc|] == acc && idx[..|accIdx|] == accIdx
      ensures forall k :: 0 <= k < |idx| ==> idx[k] < (row + 1) * MAX_COLS
      ensures forall col :: (w.minCol <= col < w.maxCol && At(row, col).InRangeOfPoint(env, c, range)) ==>
        At(row, col) in selected
    {
      selected, idx := acc, accIdx;
      var col := w.minCol;
      while col < w.maxCol
        invariant w.minCol <= col <= IntMax(w.minCol, w.maxCol)
        invariant Picked(w, c, range, selected, idx)
        invariant |acc| <= |selected| && selected[..|acc|] == acc && idx[..|accIdx|] == accIdx
        invariant forall k :: 0 <= k < |idx| ==> idx[k] < row * MAX_COLS + col
        invariant forall cl :: (w.minCol <= cl < col && At(row, cl).InRangeOfPoint(env, c, range)) ==>
          At(row, cl) in selected
      {
        var index := maxCols * row + col;
        IndexSplit(row, col);
        var r := receptors[index];
        if r.InRangeOfPoint(env, c, range) {
          PickedAppend(w, c, range, selected, idx, index);
          PrefixAppend(acc, selected, r);
          PrefixAppend(accIdx, idx, index);
          selected, idx := selected + [r], idx + [index];
        }
        col := col + 1;
      }
    }

    /** Appending a later receptor of the window in range keeps a
        selection picked. */
    lemma PickedAppend(w: Window, c: Coord, range: real, selected: seq<Receptor>, idx: seq<int>, index: int)
      requires Valid() && Picked(w, c, range, selected, idx)
      requires 0 <= index < |receptors| && InWindow(w, index / MAX_COLS, index % MAX_COLS)
      requires receptors[index].InRangeOfPoint(env, c, range)
      requires forall k :: 0 <= k < |idx| ==> idx[k] < index
      ensures Picked(w, c, range, selected + [receptors[index]], idx + [index])
    {
      var s2, i2 := selected + [receptors[index]], idx + [index];
      assert forall k :: 0 <= k < |idx| ==> s2[k] == selected[k] && i2[k] == idx[k];
    }

    /** Appending keeps a prefix a prefix. */
    static lemma PrefixAppend<T>(pre: seq<T>, s: seq<T>, x: T)
      requires |pre| <= |s| && s[..|pre|] == pre
      ensures |pre| <= |s + [x]| && (s + [x])[..|pre|] == pre
    {
      assert (s + [x])[..|pre|] == s[..|pre|];
    }

    /** `select_receptors_in_radius`: scans the window around the point row
        by row and keeps the receptors within `radius * multiplier` of it
        (the multiplier is `RECEPTOR_RADIUS_MULTIPLIER`). The ghost `idx`
        gives each kept receptor's position in the list: they come in list
        order, each from the window and in range, and every receptor of
        the window in range is kept. */
    method SelectReceptorsInRadius(c: Coord, radius: real, multiplier: real)
      returns (selected: seq<Receptor>, ghost idx: seq<int>)
      requires Valid()
      ensures Selection(c, radius, multiplier, selected, idx)
    {
      var w := WindowAround(c, radius);
      var range := radius * multiplier;
      selected, idx := [], [];
      var row := w.minRow;
      while row < w.maxRow
        invariant w.minRow <= row <= IntMax(w.minRow, w.maxRow)
        invariant Picked(w, c, range, selected, idx)
        invariant forall k :: 0 <= k < |idx| ==> idx[k] < row * MAX_COLS
        invariant Complete(w, c, range, selected, row)
      {
        var prev := selected;
        selected, idx := SelectInRow(c, w, row, range, selected, idx);
        CompleteNextRow(w, c, range, prev, selected, row);
        row := row + 1;
      }
    }

    /** A selection extending one complete before `row`, holding every
        receptor of row `row` in range, is complete before `row + 1`. */
    lemma CompleteNextRow(w: Window, c: Coord, range: real, prev: seq<Receptor>, selected: seq<Receptor>, row: int)
      requires Valid() && 0 <= w.minRow && w.maxRow <= MAX_ROWS && 0 <= w.minCol && w.maxCol <= MAX_COLS
      requires w.minRow <= row < w.maxRow
      requires Complete(w, c, range, prev, row)
      requires |prev| <= |selected| && selected[..|prev|] == prev
      requires forall col :: (w.minCol <= col < w.maxCol && At(row, col).InRangeOfPoint(env, c, range)) ==>
        At(row, col) in selected
      ensures Complete(w, c, range, selected, row + 1)
    {
      forall x | x in prev ensures x in selected {
        var k :| 0 <= k < |prev| && prev[k] == x;
        assert selected[..|prev|][k] == x;
      }
    }

    /** No receptor of the window is in range of the point. */
    ghost predicate NoneInRange(w: Window, c: Coord, range: real)
      requires Valid() && 0 <= w.minRow && w.maxRow <= MAX_ROWS && 0 <= w.minCol && w.maxCol <= MAX_COLS
    {
      forall rw, cl :: InWindow(w, rw, cl) ==> !At(rw, cl).InRangeOfPoint(env, c, range)
    }

    /** `x` is at least as close to the point as every receptor of the
        window in range of it. */
    ghost predicate NearestInWindow(w: Window, c: Coord, range: real, x: Receptor)
      requires Valid() && 0 <= w.minRow && w.maxRow <= MAX_ROWS && 0 <= w.minCol && w.maxCol <= MAX_COLS
    {
      forall rw, cl :: (InWindow(w, rw, cl) && At(rw, cl).InRangeOfPoint(env, c, range)) ==>
        env.dist(x.loc, c) <= env.dist(At(rw, cl).loc, c)
    }

    /** `get_closest_receptor`: the first of the nearest receptors among
        those `select_receptors_in_radius` finds within 1.5 spacings; it is
        in range and nearest among all receptors of the window in range.
        `ValueError` exactly when the window has none in range. */
    method GetClosestReceptor(c: Coord, multiplier: real) returns (r: Result<Receptor>)
      requires Valid()
      ensures r.Err? <==> NoneInRange(WindowAround(c, CLOSEST_RADIUS), c, CLOSEST_RADIUS * multiplier)
      ensures r.Err? ==> r.error == ValueError
      ensures r.Ok? ==> r.value in receptors && r.value.InRangeOfPoint(env, c, CLOSEST_RADIUS * multiplier)
      ensures r.Ok? ==> NearestInWindow(WindowAround(c, CLOSEST_RADIUS), c, CLOSEST_RADIUS * multiplier, r.value)
    {
      var w := WindowAround(c, CLOSEST_RADIUS);
      var range := CLOSEST_RADIUS * multiplier;
      var candidates, idx := SelectReceptorsInRadius(c, CLOSEST_RADIUS, multiplier);
      r := ClosestReceptor(env, candidates, c);
      if |candidates| > 0 {
        ClosestIsClosest(env, candidates, c);
        SelectionNearest(w, c, range, candidates, idx, r.value);
      }
    }

    /** A non-empty complete selection shows the window has a receptor in
        range, and one at least as close as every selected receptor is the
        nearest in range of the whole window. */
    lemma SelectionNearest(w: Window, c: Coord, range: real, candidates: seq<Receptor>, idx: seq<int>, x: Receptor)
      requires Valid() && 0 <= w.minRow && w.maxRow <= MAX_ROWS && 0 <= w.minCol && w.maxCol <= MAX_COLS
      requires Picked(w, c, range, candidates, idx) && Complete(w, c, range, candidates, w.maxRow)
      requires |candidates| > 0
      requires forall j :: 0 <= j < |candidates| ==> env.dist(x.loc, c) <= env.dist(candidates[j].loc, c)
      ensures !NoneInRange(w, c, range) && NearestInWindow(w, c, range, x)
    {
      var k := idx[0];
      assert k == (k / MAX_COLS) * MAX_COLS + k % MAX_COLS;
      assert candidates[0] == At(k / MAX_COLS, k % MAX_COLS);
      forall rw, cl | InWindow(w, rw, cl) && At(rw, cl).InRangeOfPoint(env, c, range)
        ensures env.dist(x.loc, c) <= env.dist(At(rw, cl).loc, c)
      {
        var j :| 0 <= j < |candidates| && candidates[j] == At(rw, cl);
      }
    }

    /** `depreciate_pheromones`: every decaying receptor's pheromones are
        multiplied by `rate` (the depreciation factor raised to one over
        the time step); the others keep theirs. With a rate in [0, 1] no
        level rises and none drops below 0. */
    method DepreciatePheromones(rate: real)
      requires Valid()
      modifies set i | 0 <= i < |receptors| :: receptors[i]
      ensures forall k :: 0 <= k < |receptors| ==>
        receptors[k].pheromones == if receptors[k].decay then old(receptors[k].pheromones) * rate
                                   else old(receptors[k].pheromones)
      ensures rate >= 0.0 && old(NonNegative(receptors)) ==> NonNegative(receptors)
      ensures (0.0 <= rate <= 1.0 && old(NonNegative(receptors))) ==>
        forall k :: 0 <= k < |receptors| ==> receptors[k].pheromones <= old(receptors[k].pheromones)
    {
      Depreciate(receptors, rate);
    }

    /** `calculate_CoP`: selects the receptors within twice the radius
        and computes the CoP at the point from them. */
    method CalculateCoP(c: Coord, radius: real, multiplier: real) returns (cop: CoP, selected: seq<Receptor>, ghost idx: seq<int>)
      requires Valid()
      ensures Selection(c, radius * 2.0, multiplier, selected, idx)
      ensures cop == CoPOf(env, polygons, c, selected)
    {
      selected, idx := SelectReceptorsInRadius(c, radius * 2.0, multiplier);
      cop := CoPFrom(env, polygons, c, selected);
    }
  }
}
