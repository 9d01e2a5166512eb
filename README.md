# UAV surveillance: route planner, receptor grid, UAVs and ships

A Dafny model of the core of a simulation in which unmanned aerial
vehicles (UAVs) patrol a sea area. Merchant ships sail through the area,
and the UAVs detect and trail them. Everything that moves follows routes
that go around polygonal obstacles (land). The model covers:

- **Segment geometry** of `general_maths.py` (module `Geometry`): the
  `ccw`/`orientation` cross-product tests, `is_between_points`,
  `shared_segment`, `do_intersect` and `check_if_lines_intersect` with its
  0.1% shrink.
- **Polygon queries** of `polygons.py` (module `Polygons`):
  - containment with the edge prefilter;
  - `point_is_on_edge`;
  - the ordered case cascade of `check_if_line_through_polygon`;
  - the 99-sample chord test `check_if_can_connect_edge_points`;
  - `check_if_point_in_polygons`.
- **The route planner** of `routes.py` and `general_maths.py`:
  - `Routes`: the `Route` record and its length, the obstacle-major
    crossing scan, cyclic slices and arc extraction;
  - `Concavity`: the greedy shortcut pass `maximize_concavity`;
  - `Hull`: the Graham scan and the closest reachable vertex;
  - `HullRepair`: merging and inserting paths, placing a point on a
    polygon, walking round an obstacle, building the convex hull with its
    `force_maintain` flags;
  - `Planner`: `reroute_around_obstacle` and the bounded detour loop
    `create_route`.
- **Points** (`points.py`, module `Points`): the id counter, the lon/lat
  swap, the default name, in-place shifting.
- **The receptor grid** (`receptors.py`, module `Receptors`):
  - row-major layout and index arithmetic;
  - location lookup;
  - the radius window and selection;
  - the closest receptor;
  - pheromone decay;
  - the centre-of-probability (CoP) sum.
- **Ships** (`ships.py`, module `Ships`): the damage bands and retreat,
  route following with a bounded loop, route planning, and the end of the
  voyage.
- **UAVs** (`drones.py`, module `Drones`):
  - the model table;
  - compass headings and moves;
  - the return-to-base decision of `can_continue`;
  - route following with patrol, landing and trailing;
  - `land` and `start_maintenance`;
  - `stop_trailing`;
  - `return_to_base`.

**Modelling choices.**

- **Points.** A point object is modelled by its `point_id` (`Common.Pid`):
  `Point` defines no equality, so `in`, `index` and `is` compare
  identities.
- **Collaborators passed in.** Coordinates, Shapely's `within`, the
  distance function and the polar-angle sort arrive in a `Common.Env`
  value. `Common.EnvOk` states what the model assumes of them: distances
  are non-negative, and the sort returns a permutation of its input.
- **Flags.** A point's `force_maintain` flag is membership in a set of
  point ids that the planner threads through its calls.
- **Copied loops.** Loops that the Python code runs over copies or pure
  values are methods over values, each proved equal to a recursive
  specification function. The properties are then lemmas about that
  function.
- **Classes.** Objects whose fields the code updates in place (`Point`,
  `Route`, `Receptor`, `ReceptorGrid`, `Ship`, `Drone`) are classes whose
  methods state their new state.

## Model

| member | source | states |
|---|---|---|
| Common.IndexOf | routes.py:113-128 | `list.index`: the position holds `p` and no earlier position does |
| Common.RemoveFirst | drones.py:527 | `list.remove`: the list is one element shorter |
| Common.RemoveFirstMultiset | drones.py:527 | `list.remove` takes away exactly one occurrence of `p` and keeps every other element |
| Common.FirstMinIndex | general_maths.py:373 | the position `min(..., key)` picks: a least key, and every earlier key is strictly greater |
| Common.ReverseReverse | routes.py:120-125 | `list.reverse()` twice gives the list back |
| Common.PyAt | general_maths.py:231-252 | a Python subscript: defined exactly for `-n <= j < n`, negative positions counted from the end |
| Common.Placed | ships.py:128-142 | after a point object moves in place, that point has the new coordinates and every other point keeps its own |
| Geometry.Orientation | general_maths.py:96-114 | 1, -1 or 0 exactly by the sign of `ccw` |
| Geometry.OrientationSwap | general_maths.py:96-124 | swapping `q` and `r` negates the orientation |
| Geometry.CcwSwap | general_maths.py:116-124 | swapping the last two points negates `ccw` |
| Geometry.CcwSwapFirst | general_maths.py:116-124 | swapping the first two points negates `ccw` |
| Geometry.NextPointCcw | general_maths.py:127-141 | a strict left turn; collinear points are not a turn |
| Geometry.SharedSegment | general_maths.py:144-155 | `q` lies in the closed bounding box of `p` and `r` |
| Geometry.DoIntersectSymmetric | general_maths.py:158-185 | `do_intersect(p1, q1, p2, q2) == do_intersect(p2, q2, p1, q1)` |
| Geometry.ProperCrossingIntersects | general_maths.py:158-172 | two segments that strictly separate each other's ends intersect |
| Geometry.IsBetweenPointsCharacterised | general_maths.py:73-93 | `is_between_points` holds iff the cross product is at most 0.001 in size and the dot product is between 0 and the squared length |
| Geometry.FractionIsBetween | general_maths.py:73-93 | every point a fraction in [0, 1] of the way from `a` to `b` passes `is_between_points` |
| Geometry.EndpointsAreBetween | general_maths.py:73-93 | both endpoints of a segment pass `is_between_points` |
| Geometry.ShrunkEndpointsOnSegment | general_maths.py:188-212 | both 0.1%-shrunk endpoints still lie on the original segment |
| Geometry.CheckIfLinesIntersect | general_maths.py:188-212 | the inputs are unchanged and the result is `do_intersect` of the two shrunk segments |
| Geometry.LinesIntersectSymmetric | general_maths.py:188-212 | which line is passed first does not matter |
| Polygons.Next | polygons.py:54 | the other end of edge `i`, wrapping to the first vertex for the closing edge |
| Polygons.Coords | polygons.py:58-61 | the ring's coordinates, in order |
| Polygons.ScanEdges | polygons.py:53-56 | the edge loop finds an edge iff some ring edge, closing edge included, passes the test |
| Polygons.PointIsOnEdge | polygons.py:64-68 | true iff some ring edge has the point between its ends |
| Polygons.VertexIsOnEdge | polygons.py:64-68 | every vertex is on the edge that starts at it |
| Polygons.MemberIsOnEdge | polygons.py:64-68 | every ring member is on an edge |
| Polygons.CheckIfContainsPoint | polygons.py:43-61 | with `exclude_edges`, a point on an edge is not contained; otherwise the answer is `within` |
| Polygons.EdgePointsNotContained | polygons.py:53-56 | with `exclude_edges`, no point on any edge (closing edge included) is contained |
| Polygons.CheckIfCanConnectEdgePoints | polygons.py:155-171 | false iff one of the 99 samples at lambda = k/100 is contained |
| Polygons.SampleMirror | polygons.py:164-167 | sample `k` from `p2` to `p1` is sample `100 - k` from `p1` to `p2` |
| Polygons.CanConnectSymmetric | polygons.py:155-171 | the chord test does not depend on the order of the two points |
| Polygons.VertexOrCrossing | polygons.py:98-153 | the loops of the vertex/edge cases and the edge-intersection case compute that case analysis |
| Polygons.LineThroughPolygon | polygons.py:87-153 | the case cascade with its loops computes the crossing classifier |
| Polygons.EdgeCaseLoops | polygons.py:97-124 | cases 1.3 and 1.4 once the shared-edge scan is done: no crossing along a shared edge, a crossing when a sample between the points is inside, else cases 2 and 3 decide |
| Polygons.CheckIfLineThroughPolygon | polygons.py:70-153 | AttributeError without two points or a line; otherwise the classifier on `line[0]`, `line[1]` or the two points |
| Polygons.DegenerateLines | polygons.py:87-96 | true when either end is contained; otherwise false when both ends are the same point |
| Polygons.AdjacentVerticesDoNotCross | polygons.py:98-134 | two ring-adjacent vertices, closing edge included and in either order, do not cross |
| Polygons.GeneralCase | polygons.py:141-153 | with neither end contained and one end on no edge, crossing is "some edge intersects the shrunk segment" |
| Polygons.CrossesSymmetric | polygons.py:70-153 | the classifier does not depend on the direction of the line |
| Polygons.EdgeTestsSymmetric | polygons.py:101-153 | each per-edge test (shared vertex edge, shared edge, traversed edge, intersection) finds some edge for the line in one direction exactly when it does in the other |
| Polygons.CheckIfPointInPolygons | general_maths.py:377-381 | true iff some polygon contains the point |
| Routes.RouteLengthNonNegative | routes.py:33-36 | a route's length is at least 0, and exactly 0 with at most one point |
| Routes.RouteLengthConcat | routes.py:33-36 | joining two routes adds the hop between them |
| Routes.Route.constructor | routes.py:24-31 | stores the points, computes the length, and uses the standard colour by default |
| Routes.Route.CalculateLength | routes.py:33-36 | the length is reset to the summed distance of consecutive pairs; the points are unchanged |
| Routes.FirstSegmentSpec | routes.py:82-89 | the inner scan finds the first crossing segment from `s` on, or none exists |
| Routes.FirstCrossing | routes.py:82-89 | a crossing found names an obstacle and a segment of the route, and carries that segment's two points |
| Routes.FirstCrossingSpec | routes.py:82-89 | None iff nothing crosses; otherwise the first crossing in obstacle-major, then segment order |
| Routes.FirstFromSpec | routes.py:84-88 | the segment scan returns None iff the test fails on every segment from `s` on; otherwise the first segment it holds on |
| Routes.ScanSegments | routes.py:84-88 | the inner loop finds the first crossing segment |
| Routes.LineCrossesAnyPolygon | routes.py:82-89 | the nested loops return the first crossing, or `(False, 0, 0, 0)` as None |
| Routes.Arc | routes.py:197-215 | a forward cyclic slice: its length, and its ends at positions `i` and `j` |
| Routes.ArcAt | routes.py:197-215 | position `t` of the arc is ring position `i + t`, wrapping |
| Routes.GetPointsBetweenErrors | routes.py:189-215 | ValueError iff either point is absent or both are the same point |
| Routes.GetPointsBetweenIsArc | routes.py:189-215 | the inclusive result is the forward arc from `a` to `b`, and the exclusive result is its interior |
| Routes.CandidatesAreArcs | routes.py:113-128 | the two candidates are the forward arc `k..l` and the reversed forward arc `l..k` |
| Routes.ExtractRouteErrors | routes.py:100-130 | IndexError iff `k` or `l` is missing; ValueError iff they are the same point |
| Routes.ExtractRouteIsArc | routes.py:113-139 | the result is one of the two arcs: the shorter one, the first on a tie; it runs from `k` to `l` |
| Concavity.AnyPolygonObstructs | general_maths.py:254 | true iff some polygon's crossing classifier says the line is obstructed |
| Concavity.Blocked | general_maths.py:254 | the obstruction test as a function value agrees with the `any` over the polygons |
| Concavity.BlockedIsSelfBlocking | polygons.py:87-96 | a line from a point to itself is obstructed only when a polygon contains the point |
| Concavity.Norm | general_maths.py:231-252 | a subscript `-n <= j < n` denotes a position below `n`, and itself when non-negative |
| Concavity.Steps | general_maths.py:224-275 | the positions the loop keeps are in range, extend what it has kept so far, and end at the last position |
| Concavity.ConcavityPositions | general_maths.py:215-276 | the kept positions are in range and number at least two |
| Concavity.Pick | general_maths.py:224-271 | the points at the kept positions, in order |
| Concavity.ConcavityLoop | general_maths.py:224-276 | the loop as written, for any obstruction oracle, returns the points at the positions `ConcavityPositions` keeps, or its error |
| Concavity.MaximizeConcavityLoop | general_maths.py:215-276 | with the polygons' obstruction test as the oracle, the loop computes `MaximizeConcavity` |
| Concavity.StepsShape | general_maths.py:224-275 | the loop's trace: strictly increasing positions from 0, each skipping hop unobstructed |
| Concavity.MaximizeConcavityShape | general_maths.py:224-275 | the kept positions start at 0 and strictly increase before the last, which is the last position; every hop that skips a waypoint is unobstructed, and so is the final hop |
| Concavity.MaximizeConcavityEnds | general_maths.py:215-276 | the result starts with `path[0]`, ends with `path[-1]` and takes all its points from `path` |
| Concavity.ShapeKeepsClear | general_maths.py:224-275 | if every hop of the path is clear, every hop of the result is clear |
| Concavity.MaximizeConcavityKeepsClear | general_maths.py:215-276 | a path with no obstructed hop comes back with no obstructed hop |
| Concavity.MaximizeConcavityErrors | general_maths.py:234-275 | only IndexError (an empty path) or TimeoutError (past ITERATION_LIMIT) is raised |
| Concavity.StepsErrors | general_maths.py:234-275 | the loop from any state raises only IndexError or TimeoutError |
| Concavity.DirectHop | general_maths.py:254-261 | when the first point sees the last, the result is just those two points |
| Concavity.ForcedStepRepeatsEnd | general_maths.py:254-268 | a forced last hop followed by a self-hop repeats `path[-1]` |
| Hull.Ys | general_maths.py:300 | the `y` of each point, in order |
| Hull.FindLowestPoint | general_maths.py:299-300 | ValueError iff the list is empty; otherwise the first point of least `y` |
| Hull.PopUntilTurn | general_maths.py:340-349 | pops to a prefix of at least two points whose top two turn left to `p`; otherwise IndexError |
| Hull.GrahamScanLoop | general_maths.py:313-351 | the scan as written computes `GrahamScan` |
| Hull.ScanFromShape | general_maths.py:330-350 | the scan keeps its stack a sequence of input points that turns left from its fourth point on |
| Hull.GrahamScanShape | general_maths.py:313-351 | the hull starts with the lowest point, has two or more points, all from the input, and turns left; on success the list left to the caller is `ScanLeftover`, all but two of the input's points, without the anchor; ValueError when empty, IndexError for one point |
| Hull.Reachable | general_maths.py:361-368 | exactly the vertices from which the line to the target does not cross the polygon |
| Hull.Distances | general_maths.py:362-365 | each kept vertex's distance to the target |
| Hull.FindClosestReachablePoint | general_maths.py:354-374 | the loop as written computes `ClosestReachable` |
| Hull.ClosestReachableSpec | general_maths.py:354-374 | an unobstructed vertex of least distance; ValueError exactly when every vertex is obstructed |
| HullRepair.MergePaths | routes.py:218-257 | computes `MergedPath` and reverses its argument lists in place as the code does |
| HullRepair.MergedPathSpec | routes.py:227-257 | the length is `len(precede) + len(follow) - 1`; all points but one join point are kept; ValueError iff `target` is missing from either path |
| HullRepair.DropFirst | routes.py:238-252 | joining without the first point of the second list keeps every other point |
| HullRepair.ReverseMultiset | routes.py:227-257 | reversing keeps the elements |
| HullRepair.MergeAtTarget | routes.py:227-257 | with `target` at an end of both paths, the join point is `target` and the merged path runs from the far end of one to the far end of the other |
| HullRepair.Insert | routes.py:282-298 | `list.insert`: one more element, `x` at position `i`, and the elements are those of the list plus `x` |
| HullRepair.InsertMultiset | routes.py:282-298 | `list.insert` adds exactly one occurrence of `x` and keeps every other element with its count |
| HullRepair.WithoutInsert | routes.py:282-298 | inserting (at any position) a point that is later filtered out changes nothing else |
| HullRepair.WithoutNone | routes.py:279-298 | filtering out points that are absent leaves the list as it is |
| HullRepair.InsertAlong | routes.py:279-298 | only inserts: every path point ends up in the hull, no hull point is removed, and old hull points keep their relative order |
| HullRepair.InsertPathInHull | routes.py:260-298 | IndexError on an empty path, and an error iff an end of the path is not on the hull; otherwise the hull with the missing path points inserted and nothing removed; the path is possibly reversed |
| HullRepair.SameElementsReversed | routes.py:279-280 | reversal keeps membership |
| HullRepair.FreePairs | routes.py:447-463 | exactly the pairs whose two hops are clear, in loop order |
| HullRepair.PairCosts | routes.py:461-463 | the summed distance of each pair |
| HullRepair.GetPointsBetweenWithin | routes.py:189-215 | every point of the slice is on the ring |
| HullRepair.CollectFreePairs | routes.py:447-463 | the loop collects `FreePairs` |
| HullRepair.AddPointToPolyPoints | routes.py:429-475 | the code as written computes `AddPointToPoly` |
| HullRepair.AddPointToPolySpec | routes.py:443-475 | inserts `l` at most once; nothing changes when `l` is a vertex or no clear pair exists |
| HullRepair.CreatePathAlongPolygon | routes.py:478-503 | the loop as written computes `PathAlongPolygon` |
| HullRepair.PathFromEnds | routes.py:480-502 | from any state the loop returns a path from its first point to `target`; NotImplementedError only when every point it tries is obstructed; when every point is obstructed it fails; and it raises nothing but NotImplementedError or a shortening pass's IndexError or TimeoutError |
| HullRepair.MaximizeConcavityKeepsEnds | general_maths.py:215-276 | the shortcut pass keeps both ends of a path of two or more points and raises nothing but IndexError or TimeoutError |
| HullRepair.PathAlongPolygonSpec | routes.py:478-503 | the path starts at `start_point` and ends at `target`; NotImplementedError only when every point is obstructed, and when `start_point` and every routing point are obstructed from `target` the call fails (NotImplementedError, or the IndexError or TimeoutError of a shortening pass) |
| HullRepair.ReAddPointToHull | routes.py:302-314 | the hull itself iff `target` is on it; AttributeError otherwise |
| HullRepair.InitialPoints | routes.py:398-406 | `None` or empty gives `[]`, a list is kept, and anything else, a single Point included (its `len` is taken first and a Point has none), is a TypeError |
| HullRepair.InitialPointsIntended | routes.py:398-406 | as `InitialPoints`, except that a single Point is wrapped into a list of one, as the branch for it intends |
| HullRepair.SinglePointRaises | routes.py:398-402 | the code as written raises TypeError on a single Point, the intended reading wraps it, and the two agree on every other argument |
| HullRepair.AppendMissing | routes.py:412-415 | the list keeps its prefix and gains exactly the obstacle's missing vertices |
| HullRepair.RaiseFlags | routes.py:408-410 | every point of the list is flagged |
| HullRepair.LowerFlags | routes.py:423-424 | no point of the list is flagged |
| HullRepair.AppendObstaclePoints | routes.py:412-415 | the loop computes `AppendMissing` |
| HullRepair.ReAddForced | routes.py:419-421 | AttributeError iff a flagged point the scan dropped is still in the list; otherwise the hull unchanged |
| HullRepair.CreateConvexHull | routes.py:391-426 | the code as written computes `ConvexHull`, including the aliasing of the caller's list and what the scan leaves in it when it raises |
| HullRepair.ScanAndCheck | routes.py:417-426 | the scan, the re-adding of flagged points and the lowering of flags compute `ScanOutcome`: on a scan error the list is `ScanLeftover` |
| HullRepair.ConvexHullKeepsPoints | routes.py:391-426 | a returned hull misses at most one point passed in, and takes its vertices from those points and the obstacle |
| HullRepair.AtMostOneLeft | routes.py:391-426 | two points that neither the anchor nor the rest account for are the same point |
| HullRepair.TwoDistinct | routes.py:391-426 | a multiset holding two different points has at least two elements |
| HullRepair.ConvexHullFlags | routes.py:419-426 | after a returned hull no point left in the list is flagged, and every flagged point left there is on the hull |
| Planner.RerouteAroundObstacle | routes.py:142-177 | the code as written computes `Reroute` with its flags |
| Planner.SpliceShape | routes.py:159-175 | the result is `route[:idx(k)] + sub + route[idx(l)+1:]` with `l` right after `k`: the points before `k` and after `l` are kept, and so are the route's ends |
| Planner.RerouteSplices | routes.py:142-177 | a successful reroute splices in the extracted arc from `k` to `l` |
| Planner.RerouteAt | routes.py:60-66 | one rerouting pass at the crossing found |
| Planner.RerouteUntilClear | routes.py:54-79 | the loop as written computes `RouteLoop`, bounded by ITERATION_LIMIT |
| Planner.CreateRoute | routes.py:44-79 | a fresh `Route` whose points are the planned points and whose length is theirs |
| Planner.LoopFromEnds | routes.py:54-79 | a loop whose steps keep the ends of a route keeps them |
| Planner.StepWithKeepsEnds | routes.py:142-177 | every successful reroute keeps the route's ends |
| Planner.RerouteKeepsEnds | routes.py:142-177 | a successful `reroute_around_obstacle` returns a route of at least two points with the same first and last point |
| Planner.CreateRouteSpecProps | routes.py:44-79 | a returned route runs from `point_a` to `point_b` and no segment crosses any polygon |
| Planner.NoCrossingClear | routes.py:82-89 | a route with no crossing segment has every hop unobstructed |
| Planner.DirectRoute | routes.py:54-79 | an unobstructed direct line gives `[point_a, point_b]` and leaves the flags alone |
| Points.PointCounter.constructor | points.py:17 | the module counter starts at 0 |
| Points.Point.constructor | points.py:21-44 | takes the counter's value as id and advances it by 1; swaps the coordinates with `lon_lat`; the name defaults to the id; stores `force_maintain` |
| Points.Point.Add | points.py:52-54 | shifts `x` and `y` in place; the other fields are unchanged |
| Points.Point.Location | points.py:56-57 | the pair `(x, y)` |
| Receptors.Trunc | receptors.py:185-186 | `int()` of a non-negative float is its floor |
| Receptors.Ceil | receptors.py:141-142 | the least integer at or above |
| Receptors.GridDimensions | receptors.py:131-142 | `max_cols` and `max_rows` are the ceilings of the floored spans over the spacing |
| Receptors.AreaOfInterestInGrid | receptors.py:131-136 | the framed grid contains the area of interest with room to spare at the top |
| Receptors.IndexSplit | receptors.py:144-151 | `row * max_cols + col` splits back into row and column |
| Receptors.InAreaOfInterest | receptors.py:288-292 | `is_in_area_of_interest`: the closed box between the minimum and maximum latitude and longitude |
| Receptors.Receptor.InRangeOfPoint | receptors.py:99-103 | `in_range_of_point`: the point's distance to the receptor is at most the radius |
| Receptors.Receptor.constructor | receptors.py:29-42 | a receptor decays iff it is at sea in the area of interest; the others start with full pheromones |
| Receptors.InitiateRow | receptors.py:145-151 | appends the row's receptors in column order |
| Receptors.InitiateGrid | receptors.py:126-151 | exactly `max_rows * max_cols` distinct receptors, row-major, entry `r*max_cols + c` at `(min_lat + r*H, min_lon + c*W)` |
| Receptors.WeightBounds | receptors.py:281-283 | each receptor's weight is positive and at most one over the least distance |
| Receptors.CoPSumBounds | receptors.py:281-283 | with no negative pheromones the sum is between 0 and the pheromones over the least distance |
| Receptors.SumCoP | receptors.py:281-283 | the accumulation loop computes `CoPSum` and keeps those bounds |
| Receptors.CoPFrom | receptors.py:274-285 | infinite outside the area of interest or inside a polygon; otherwise the sum |
| Receptors.DistancesTo | receptors.py:246-250 | each candidate's distance to the point |
| Receptors.ClosestReceptor | receptors.py:246-255 | ValueError iff there is no candidate; otherwise the first strictly closest |
| Receptors.ClosestIsClosest | receptors.py:246-255 | the chosen candidate is at least as close as any, and strictly closer than every earlier one |
| Receptors.WindowAround | receptors.py:201-219 | the scanned rows and columns stay inside the grid |
| Receptors.WindowCoversSquare | receptors.py:201-225 | every cell in the square around the point is scanned |
| Receptors.WindowWithinSquare | receptors.py:201-225 | every scanned cell lies within one cell of that square |
| Receptors.Depreciate | receptors.py:257-262 | decaying receptors' pheromones are multiplied by the rate; the others are unchanged; non-negative levels stay non-negative and do not grow |
| Receptors.ReceptorGrid.constructor | receptors.py:107-117 | a valid grid laid out as `initiate_grid` does, with no negative pheromones |
| Receptors.ReceptorGrid.At | receptors.py:188 | the receptor of a row and column sits at that cell's location |
| Receptors.ReceptorGrid.ReceptorAtLocation | receptors.py:175-189 | None iff outside the box; otherwise the receptor of the truncated row and column, clamped into the grid |
| Receptors.ReceptorGrid.ReceptorAtLocationAsWritten | receptors.py:175-189 | `get_receptor_at_location` as written: None outside the closed grid box, otherwise the list entry `row * max_cols + col` of the truncated row and column, an IndexError past the end of the list |
| Receptors.ReceptorGrid.AsWrittenAwayFromEdges | receptors.py:175-189 | away from the top and right edges the code as written agrees with the corrected lookup |
| Receptors.ReceptorGrid.AreaOfInterestHasReceptor | receptors.py:175-189 | every point of the area of interest has a receptor |
| Receptors.ReceptorGrid.AsWrittenTopEdge | receptors.py:182-189 | on the top edge, which the guard lets through, the subscript is out of range |
| Receptors.ReceptorGrid.AsWrittenRightEdge | receptors.py:182-189 | on the right edge the subscript lands on the first receptor of the next row |
| Receptors.ReceptorGrid.SelectInRow | receptors.py:223-228 | appends exactly the row's in-range receptors of the window, in column order |
| Receptors.ReceptorGrid.SelectReceptorsInRadius | receptors.py:191-232 | exactly the window's receptors within `radius * multiplier`, row-major, every index in range |
| Receptors.ReceptorGrid.GetClosestReceptor | receptors.py:234-255 | ValueError iff no receptor is in range; otherwise an in-range receptor at least as close as every other |
| Receptors.ReceptorGrid.SelectionNearest | receptors.py:242-255 | a non-empty complete selection shows some receptor of the window is in range, and the closest selected receptor is the nearest in range of the whole window |
| Receptors.ReceptorGrid.DepreciatePheromones | receptors.py:257-262 | as `Depreciate`, over the grid's receptors |
| Receptors.ReceptorGrid.CalculateCoP | receptors.py:264-285 | selects within twice the radius, then returns `CoPOf` of the selection |
| Ships.ModelParticulars | ships.py:74-86 | every model has positive speed, load and radar cross-section |
| Ships.ApplyDamage | ships.py:204-226 | health falls by `damage + 10*penalty`; at 81 or more nothing changes; 47-70 sets penalty 1; 21-46 penalty 2; 9-20 CTL and penalty 2; below 9 the ship sinks |
| Ships.DamageKeepsConsistent | ships.py:204-226 | from a consistent state, a non-negative hit on an afloat ship keeps penalty and CTL matching the health band |
| Ships.PenaltyRaisesDamage | ships.py:204-205 | at penalty 2 every hit costs 20 more; a new ship is consistent |
| Ships.FractionOfLonger | ships.py:140 | the interpolation fraction of a shorter hop is in [0, 1) |
| Ships.SailStepProgress | ships.py:122-142 | a pass leaves between none and all of the distance, and either reaches the next point or moves towards it on the segment |
| Ships.SailFollowsRoute | ships.py:107-142 | the points behind and ahead always make up the same route |
| Ships.ShortRouteNoTimeout | ships.py:112-116 | a route with fewer points left than ITERATION_LIMIT never times out |
| Ships.StopTrailingKeepsFirst | ships.py:179-180 | in the loop as written, an element alone at the front stays there |
| Ships.StopTrailingAsWrittenLeavesOne | ships.py:179-180 | with two or more distinct UAVs trailing, the loop as written leaves the second one on the list |
| Ships.StopTrailingAsWrittenSingle | ships.py:179-180 | with at most one UAV trailing, the loop as written empties the list |
| Ships.PlanRoute | routes.py:44-79 | a fresh route from `from` to `dest` crossing no polygon, whose length is its own |
| Ships.SailLoop | ships.py:112-142 | the loop as written computes `Sail` |
| Ships.ShipCounter.constructor | ships.py:23 | the module counter starts at 0 |
| Ships.Ship.constructor | ships.py:27-72 | takes the next ship id; full health, no penalty, no route, no trailers; a consistent damage state |
| Ships.Ship.GenerateShipEntryPoint | ships.py:145-155 | enters on the top latitude at the given longitude; nothing else changes |
| Ships.Ship.GenerateRoute | ships.py:166-176 | a given destination replaces the old one; AttributeError without a location or destination; otherwise a planned route from the location, `past_points` gaining its first point, `next_point = route[1]` and `remaining_points = route[2:]` |
| Ships.Ship.SetDestination | ships.py:92-97 | records the destination and plans the route to it |
| Ships.Ship.ReachedEndPoint | ships.py:178-183 | the corrected half of the finding below: every trailing UAV is released and the ship has reached its destination; the code as written agrees when at most one UAV trails |
| Ships.Ship.Move | ships.py:107-142 | sails `time_delta * speed` as `Sail` says; AttributeError without a location or next point |
| Ships.Ship.Sinking | ships.py:228-240 | sunk with no route when it has a location and nothing trails; AttributeError, nothing changed, when it has no location or UAVs trail |
| Ships.Ship.StartRetreat | ships.py:242-252 | idempotent: the first call plans a route to the entry point, and later calls change nothing |
| Ships.Ship.ReceiveDamage | ships.py:197-226 | applies `ApplyDamage`: retreats in the middle bands, sinks below 9, and keeps the damage state consistent while afloat |
| Drones.Clockwise | drones.py:324-355 | a position below 4 |
| Drones.ReportNewDirection | drones.py:324-355 | "right", "turn" and "left" add 1, 2 and 3 clockwise; "straight" keeps the heading; anything else is a ValueError |
| Drones.ClockwiseInjective | drones.py:324-355 | headings are determined by their position |
| Drones.TurnsCompose | drones.py:324-355 | left and right undo each other; turning around twice, or right four times, is the identity |
| Drones.MoveInDirection | drones.py:357-380 | exactly one coordinate changes by ±distance; ValueError iff the direction is not a compass name or "reverse" |
| Drones.MoveInDirectionProps | drones.py:357-380 | "reverse" is west; None is the current heading; moving back the opposite way returns to the start |
| Drones.Make | drones.py:88-188 | the model table: an unknown model sets nothing; every known model has positive speed, endurance and radius |
| Drones.MustReturnProps | drones.py:201-212 | a UAV that has used 90% of its endurance must return; more time airborne never allows continuing |
| Drones.MaintenanceEnd | drones.py:605-608 | with a positive step the maintenance ends after the current time |
| Drones.ReachedEndOfRoute | drones.py:448-458 | routing to the patrol start becomes patrolling; routing to base lands; a trailing UAV is unchanged |
| Drones.FlyStepProgress | drones.py:405-427 | a pass leaves between none and all of the distance, and either reaches the next point or uses the distance up |
| Drones.FlightFollowsRoute | drones.py:382-427 | a UAV that is not chasing follows its route in order, until it patrols or lands |
| Drones.ShortFlightCompletes | drones.py:384-396 | a UAV that is not chasing, on a route with fewer points left than ITERATION_LIMIT, never reaches the limit and raises nothing |
| Drones.FlyLoop | drones.py:383-427 | the loop as written computes `Fly`: past the limit an AttributeError for a routed UAV without a next point or a UAV without a located ship, otherwise TimeoutError; a chasing UAV stops on contact with its ship |
| Drones.DroneCounter.constructor | drones.py:22 | the module counter starts at 0 |
| Drones.Drone.constructor | drones.py:26-83 | takes the next UAV id; stands grounded at the airbase heading east, with the model's parameters |
| Drones.Drone.GenerateRoute | drones.py:578-585 | on success a planned route from the UAV's location, with `past_points` gaining `route[0]`, `next_point = route[1]` and `remaining_points = route[2:]`; on error nothing changes |
| Drones.Drone.CanContinue | drones.py:190-212 | true at the base coordinates without planning; otherwise false iff `endurance - airborne - endurance*0.1 <= ceil(length/speed)` for the planned way home |
| Drones.Drone.StartMaintenance | drones.py:605-608 | under maintenance, with the expected end from the time step and endurance |
| Drones.Drone.Land | drones.py:558-576 | grounded, no points behind, no time airborne, and under maintenance |
| Drones.Drone.MoveThroughRoute | drones.py:382-427 | flies as `Fly` says, with its own route, located ship and that ship's location; a UAV that lands on the way is grounded and put into maintenance |
| Drones.Drone.StopTrailing | drones.py:524-532 | stops trailing and takes itself off its ship's list; ValueError if it is not on the list; AttributeError without a ship |
| Drones.Drone.ReturnToBase | drones.py:548-556 | no longer routing to the patrol start; on success it routes to base along a planned route and is not trailing; a UAV that was not trailing has not moved |

## Left out

- Plotting (matplotlib), logging and console output are treated as no-ops. `update_plot`, `add_*_to_plot`, `initiate_plot`, `remove_from_plot` and `__str__` are not modelled.
- Shapely's `within`, the lon/lat distance (`calculate_distance` and the km conversions), `calculate_polar_angle` and the polar sort are parameters in `Common.Env`. Only non-negative distances and a permuting sort are assumed.
- `calculate_direction_vector` is the `heading` parameter of `Drones.Fly`, because it is floating-point normalisation.
- Coordinates are exact reals, not floats. Rounding in the cross products and distances is not modelled.
- Randomness is supplied as parameters:
  - the receptors' initial pheromone draws;
  - the ship's entry longitude;
  - the test UAV's endurance.
- Random choices are not modelled: `generate_random_ship`, `generate_ship_end_point`, `sample_random_patrol_start`, `generate_patrol_location`, `make_next_patrol_move` and `roll_detection_check`.
- Simulation orchestration is not modelled: `world.py`, `main.py`, `weather_data.py`, `Ship.enter_world`, `Ship.make_move`, `Drone.move`, `launch`, `observe_area`, `detected`, `update_trail_route`, `spread_pheromones`, `call_action_on_ship` and `Airbase`. These are outside the modelled core.
- `Drones.Drone.MoveThroughRoute`: the closing `spread_pheromones` call is not modelled (pheromone spreading is orchestration).
- `Ships.Ship.Sinking`: `world.ship_destroyed` and the plot removal are not modelled.
- `Drones.Drone.Land`: the airbase's list of stationed UAVs and the world's list of UAVs are not modelled.
- `Drones.Drone.StopTrailing`: the follow-up patrol move is not modelled (see the orchestration line above).
- `Drones.Drone.ReturnToBase`: a trailing UAV first stops trailing, and the random patrol move that follows (`make_next_patrol_move`, drones.py:530) moves and turns it; that move is not modelled, so for a trailing UAV the model does not promise where it stands afterwards.
- `Receptors.ReceptorGrid.DepreciatePheromones`: the rate `PHEROMONE_DEPRECIATION_FACTOR_PER_TIME_DELTA ** (1 / time_delta)` is a parameter, because it is a floating-point power.
- `ReceptorGrid.set_up_adjacent_connections` and the receptor plot colour map are not modelled.
- `Polygon.__init__` and `order_points` are not modelled. A polygon is its list of vertex ids.
- `Polygons.IsRing`: the edge loops are modelled only for polygons with at least one vertex; on an empty vertex list the source raises IndexError, which the model does not represent (every polygon the source builds has at least three vertices).
- `Point.distance_to_point` is the `dist` parameter.
- `HullRepair.ReAddPointToHull`: `gm.sort_convex_hull` is not defined in `general_maths.py`, so everything after that call is unreachable. The function ends in AttributeError there.
- `Ships.PlanRoute`: states that the route is planned (ends, no crossing, its length) rather than equal to the value `create_route` computes. Keeping that equality in the callers' contracts is too costly to verify. The flags it leaves are returned but not described.
- `Ships.Ship.GenerateRoute`: promises a planned route as `Ships.PlanRoute` does, not the exact `create_route` value.
- `Drones.Drone.GenerateRoute`: promises a planned route as `Ships.PlanRoute` does, not the exact `create_route` value.
- `Drones.Drone.CanContinue`: the way home is described as planned, not as the exact `create_route` value.
- The trailing ship of a UAV is referenced by its id in `Ship.trailing_UAVs`, not by the UAV object. The UAV location's point identity is the constant `locationId`. The deep copies made of it are not tracked.

## Findings

| source | as written | input that shows it | evidently intended | confidence | as-written member | corrected member |
|---|---|---|---|---|---|---|
| receptors.py:182-189 | the guard accepts `x == max_lat` (and `y == max_lon`); the truncated row (column) is then `max_rows` (`max_cols`) | a point on the top edge of the grid box, e.g. `(GRID_MAX_LAT, 0.0)`, subscripts past the end of the list (IndexError); one on the right edge reads the first receptor of the next row | every point of the box maps to the receptor of its own cell, clamped at the upper edges | not executed | Receptors.ReceptorGrid.AsWrittenTopEdge | Receptors.ReceptorGrid.ReceptorAtLocation |
| ships.py:179-180 | `for uav in self.trailing_UAVs: uav.stop_trailing()`, where `stop_trailing` removes the UAV from that same list while it is being iterated | two distinct UAVs `[a, b]` trailing: `a` is removed, the iteration then ends, and `b` is still listed and still trailing | every trailing UAV stops trailing and the list ends empty | not executed | Ships.StopTrailingAsWrittenLeavesOne | Ships.Ship.ReachedEndPoint |
| routes.py:398-402 | `points is None or len(points) == 0` is evaluated before the `isinstance(points, Point)` branch, and a Point has no length | `create_convex_hull(obstacle, points=Point(...))` raises TypeError, so the branch that wraps a single point is never reached | a single Point is wrapped into a list of one, as the docstring and the branch say; `ConvexHull` keeps the code's TypeError, since its one caller passes a list, on which both readings agree | not executed | HullRepair.SinglePointRaises | HullRepair.InitialPointsIntended |
