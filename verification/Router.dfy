/** Snapping, route computation and assembly of the reported route. */
module Router {
  import opened Basics
  import opened Overlay
  import opened RoadGraph
  import opened Policy
  import opened Paths
  import opened Queries
  import opened SearchTheory
  import opened Search
  import opened Solvers

  datatype Algorithm = AStar | Dijkstra

  datatype RouteRequest = RouteRequest(
    origin: Point,
    destination: Point,
    vehicle: VehicleType,
    mode: RoutingMode,
    searchRadius: real,
    allowRestricted: bool,
    allowUnknown: bool,
    allowPrivate: bool,
    algorithm: Algorithm)

  datatype Segment = Segment(edgeId: EdgeId, roadId: RoadId, length: real, duration: real)

  datatype RouteResult = RouteResult(
    origin: Point,
    destination: Point,
    snappedOrigin: NodeId,
    snappedDestination: NodeId,
    pathNodes: seq<NodeId>,
    segments: seq<Segment>,
    line: seq<Point>,
    distance: real,
    duration: real,
    vehicle: VehicleType,
    mode: RoutingMode,
    stateVersion: nat,
    request: Option<RouteRequest>)

  /**
    Every way `route` can raise. All but InvalidCoordinates are ValueErrors; an edge whose length is
    negative or whose geometry has fewer than two points fails the segment model's validation.
  */
  datatype RouteError = InvalidCoordinates | NothingNearby | NoTraversableRoute | InvalidSegment

  predicate IsValueError(e: RouteError) {
    e != InvalidCoordinates
  }

  // ---- Snapping -------------------------------------------------------------------

  predicate InBounds(p: Point) {
    -180.0 <= p.0 <= 180.0 && -90.0 <= p.1 <= 90.0
  }

  method SortedNodes(nodes: set<NodeId>) returns (sorted: seq<NodeId>)
    ensures Ascending(sorted)
    ensures forall n :: n in sorted <==> n in nodes
  {
    sorted := [];
    var todo := nodes;
    while todo != {}
      invariant Ascending(sorted) && todo <= nodes
      invariant forall n :: n in sorted <==> n in nodes && n !in todo
    {
      var n :| n in todo;
      InsertAscending(sorted, n);
      sorted := Insert(sorted, n);
      todo := todo - {n};
    }
  }

  /** Nearer first, then by node id. */
  ghost predicate NearestTo(coords: map<NodeId, Point>, p: Point, geo: Geodesic, n: NodeId) {
    && n in coords
    && forall m :: m in coords ==>
         || Round2(geo(p, coords[n])) < Round2(geo(p, coords[m]))
         || (Round2(geo(p, coords[n])) == Round2(geo(p, coords[m])) && StrLeq(n, m))
  }

  /** The coordinate is valid and its nearest node, n, lies within the radius. */
  ghost predicate SnapsTo(coords: map<NodeId, Point>, p: Point, geo: Geodesic, radius: real, n: NodeId) {
    InBounds(p) && NearestTo(coords, p, geo, n) && Round2(geo(p, coords[n])) <= radius
  }

  ghost predicate CanSnap(coords: map<NodeId, Point>, p: Point, geo: Geodesic, radius: real) {
    exists n :: SnapsTo(coords, p, geo, radius, n)
  }

  /** The nearest node, lexicographically least among equals, if it lies within the radius. */
  method FindNearestNode(p: Point, coords: map<NodeId, Point>, geo: Geodesic, radius: real)
    returns (r: Result<(NodeId, real), RouteError>)
    ensures r.Ok? ==> SnapsTo(coords, p, geo, radius, r.value.0) && r.value.1 == Round2(geo(p, coords[r.value.0]))
    ensures r == Err(InvalidCoordinates) <==> !(-180.0 <= p.0 <= 180.0 && -90.0 <= p.1 <= 90.0)
    ensures r == Err(NothingNearby) <==> InBounds(p) && !CanSnap(coords, p, geo, radius)
    ensures r.Err? ==> r.error == InvalidCoordinates || r.error == NothingNearby
  {
    if !InBounds(p) {
      return Err(InvalidCoordinates);
    }
    var sorted := SortedNodes(coords.Keys);
    var best: Option<(NodeId, real)> := None;
    for i := 0 to |sorted|
      invariant best.None? <==> i == 0
      invariant best.Some? ==> exists j :: 0 <= j < i && best.value.0 == sorted[j]
      invariant best.Some? ==> best.value.1 == Round2(geo(p, coords[best.value.0]))
      invariant best.Some? ==> forall j :: 0 <= j < i ==>
                  || best.value.1 < Round2(geo(p, coords[sorted[j]]))
                  || (best.value.1 == Round2(geo(p, coords[sorted[j]])) && StrLeq(best.value.0, sorted[j]))
    {
      var n := sorted[i];
      var d := Round2(geo(p, coords[n]));
      StrLeqTotal(n, n);
      if best.None? || d < best.value.1 {
        best := Some((n, d));
      }
    }
    if best.None? || best.value.1 > radius {
      return Err(NothingNearby);
    }
    assert SnapsTo(coords, p, geo, radius, best.value.0);
    return Ok(best.value);
  }

  // ---- Assembly --------------------------------------------------------------------

  function SumLength(es: seq<EdgeData>): real {
    if es == [] then 0.0 else SumLength(es[..|es| - 1]) + es[|es| - 1].length
  }

  function SumDuration(es: seq<EdgeData>): real {
    if es == [] then 0.0 else SumDuration(es[..|es| - 1]) + Duration(es[|es| - 1], es[|es| - 1].length)
  }

  function SegmentOf(e: EdgeData): Segment {
    Segment(e.edgeId, e.roadId, e.length, Duration(e, e.length))
  }

  /** What the segment model accepts. */
  predicate ValidSegment(e: EdgeData) {
    e.length >= 0.0 && Duration(e, e.length) >= 0.0 && |e.geometry| >= 2
  }

  /** Appends a point unless it repeats the last one. */
  function Extend(line: seq<Point>, p: Point): seq<Point> {
    if line == [] || line[|line| - 1] != p then line + [p] else line
  }

  function Stitch(line: seq<Point>, points: seq<Point>): seq<Point> {
    if points == [] then line else Extend(Stitch(line, points[..|points| - 1]), points[|points| - 1])
  }

  function StitchAll(es: seq<EdgeData>): seq<Point> {
    if es == [] then [] else Stitch(StitchAll(es[..|es| - 1]), es[|es| - 1].geometry)
  }

  ghost predicate NoStutter(line: seq<Point>) {
    forall i :: 0 <= i < |line| - 1 ==> line[i] != line[i + 1]
  }

  lemma {:induction false} StitchNeverStutters(line: seq<Point>, points: seq<Point>)
    requires NoStutter(line)
    ensures NoStutter(Stitch(line, points))
    ensures points != [] ==> Stitch(line, points) != [] && Last(Stitch(line, points)) == Last(points)
    ensures forall p :: p in Stitch(line, points) <==> p in line || p in points
  {
    if points != [] {
      var init := points[..|points| - 1];
      StitchNeverStutters(line, init);
      assert points == init + [Last(points)];
    }
  }

  function Last<T>(s: seq<T>): T
    requires s != []
  {
    s[|s| - 1]
  }

  /** The drawn line has no consecutive repeats, loses no point of any edge, and ends where the last edge ends. */
  lemma {:induction false} RouteLineIsClean(es: seq<EdgeData>)
    requires forall e :: e in es ==> |e.geometry| >= 2
    ensures NoStutter(StitchAll(es))
    ensures es != [] ==> StitchAll(es) != [] && Last(StitchAll(es)) == Last(Last(es).geometry)
    ensures forall p :: p in StitchAll(es) <==> exists e :: e in es && p in e.geometry
  {
    if es != [] {
      var init, last := es[..|es| - 1], Last(es);
      RouteLineIsClean(init);
      StitchNeverStutters(StitchAll(init), last.geometry);
      assert es == init + [last];
    }
  }

  /** Appends an edge's points to the line, skipping each that repeats the last one. */
  method AppendPoints(line0: seq<Point>, points: seq<Point>) returns (line: seq<Point>)
    ensures line == Stitch(line0, points)
  {
    line := line0;
    for k := 0 to |points|
      invariant line == Stitch(line0, points[..k])
    {
      assert points[..k + 1][..k] == points[..k];
      if line == [] || line[|line| - 1] != points[k] {
        line := line + [points[k]];
      }
    }
    assert points[..|points|] == points;
  }

  /**
    The reported route for these nodes and edges: its ends, segments, rounded totals and line. Without
    edges the line is the node's own point.
  */
  ghost predicate Assembled(request: RouteRequest, coords: map<NodeId, Point>, version: nat,
                            pathNodes: seq<NodeId>, chosen: seq<EdgeData>, origin: NodeId, destination: NodeId, res: RouteResult)
  {
    && res.origin == request.origin && res.destination == request.destination
    && res.snappedOrigin == origin && res.snappedDestination == destination && res.pathNodes == pathNodes
    && |res.segments| == |chosen| && (forall i :: 0 <= i < |chosen| ==> res.segments[i] == SegmentOf(chosen[i]))
    && res.distance == Round2(SumLength(chosen)) && res.duration == Round2(SumDuration(chosen))
    && res.vehicle == request.vehicle && res.mode == request.mode && res.request == Some(request)
    && res.stateVersion == version
    && res.line == (if chosen == [] && pathNodes != [] && pathNodes[0] in coords then [coords[pathNodes[0]]]
                    else StitchAll(chosen))
    && NoStutter(res.line)
  }

  /** Builds the reported route from the chosen edges, or fails on the first edge the segment model refuses. */
  method ReconstructRoute(request: RouteRequest, coords: map<NodeId, Point>, version: nat,
                          pathNodes: seq<NodeId>, chosen: seq<EdgeData>, origin: NodeId, destination: NodeId)
    returns (r: Result<RouteResult, RouteError>)
    ensures r.Ok? <==> forall e :: e in chosen ==> ValidSegment(e)
    ensures r.Err? ==> r.error == InvalidSegment
    ensures r.Ok? ==> Assembled(request, coords, version, pathNodes, chosen, origin, destination, r.value)
  {
    var segments: seq<Segment>, line: seq<Point>, length, duration := [], [], 0.0, 0.0;
    hide Duration, Round2;
    for i := 0 to |chosen|
      invariant forall j :: 0 <= j < i ==> ValidSegment(chosen[j])
      invariant |segments| == i && forall j :: 0 <= j < i ==> segments[j] == SegmentOf(chosen[j])
      invariant line == StitchAll(chosen[..i])
      invariant length == SumLength(chosen[..i]) && duration == SumDuration(chosen[..i])
    {
      var e := chosen[i];
      assert chosen[..i + 1][..i] == chosen[..i];
      if !ValidSegment(e) {
        return Err(InvalidSegment);
      }
      length, duration := length + e.length, duration + Duration(e, e.length);
      segments := segments + [SegmentOf(e)];
      line := AppendPoints(line, e.geometry);
    }
    assert chosen[..|chosen|] == chosen;
    RouteLineIsClean(chosen);
    if line == [] && pathNodes != [] && pathNodes[0] in coords {
      line := [coords[pathNodes[0]]];
    }
    return Ok(RouteResult(request.origin, request.destination, origin, destination, pathNodes, segments, line, Round2(length), Round2(duration),
                          request.vehicle, request.mode, version, Some(request)));
  }

  // ---- Route --------------------------------------------------------------------------

  /** The policy `route` builds from the request's flags: blocked roads never, emergency-only always. */
  function RequestPolicy(request: RouteRequest): RoutingPolicy {
    RoutingPolicy(false, request.allowRestricted, request.allowUnknown, true, request.allowPrivate, 1.0)
  }

  function QueryOf(network: RoadNetwork, overrides: map<RoadId, RoadOverride>, request: RouteRequest): Query {
    Query(network, overrides, RequestPolicy(request), request.vehicle, request.mode)
  }

  /** The reported figure the requested mode minimises. */
  function Objective(res: RouteResult): real {
    if res.mode == Distance then res.distance else res.duration
  }

  lemma {:induction false} TotalsAreCosts(q: Query, es: seq<EdgeData>)
    requires q.policy.maxPenalty == 1.0 && forall e :: e in es ==> ValidSegment(e)
    ensures Cost(NetOf(q), es) == if q.mode == Distance then SumLength(es) else SumDuration(es)
    ensures Hundredths(SumDuration(es))
    ensures (forall e :: e in es ==> Hundredths(e.length)) ==> Hundredths(SumLength(es))
  {
    if es != [] {
      var init, last := es[..|es| - 1], es[|es| - 1];
      TotalsAreCosts(q, init);
      assert last in es;
      HundredthsAdd(SumDuration(init), Duration(last, last.length));
      if forall e :: e in es ==> Hundredths(e.length) {
        HundredthsAdd(SumLength(init), last.length);
      }
    }
  }

  /** What a successful result promises about the path `edges` behind it. */
  ghost predicate Reports(q: Query, res: RouteResult, edges: seq<EdgeData>) {
    && Joins(NetOf(q), res.snappedOrigin, res.snappedDestination, res.pathNodes, edges)
    && Distinct(res.pathNodes)
    && |res.segments| == |edges|
    && (forall i :: 0 <= i < |edges| ==> res.segments[i] == SegmentOf(edges[i]))
    && Objective(res) == Round2(Cost(NetOf(q), edges))
    && (q.mode == TravelTime || (forall e :: e in edges ==> Hundredths(e.length)) ==>
          Objective(res) == Cost(NetOf(q), edges))
    && NoStutter(res.line)
    && res.vehicle == q.vehicle && res.mode == q.mode
  }

  /** Both ends snap to these nodes. */
  ghost predicate Snaps(coords: map<NodeId, Point>, geo: Geodesic, request: RouteRequest, o: NodeId, d: NodeId) {
    && SnapsTo(coords, request.origin, geo, request.searchRadius, o)
    && SnapsTo(coords, request.destination, geo, request.searchRadius, d)
  }

  /** The first end that does not snap has invalid coordinates; the origin is looked at first. */
  ghost predicate OutOfBounds(coords: map<NodeId, Point>, geo: Geodesic, request: RouteRequest) {
    || !InBounds(request.origin)
    || (CanSnap(coords, request.origin, geo, request.searchRadius) && !InBounds(request.destination))
  }

  /** The first end that does not snap has valid coordinates but no node within the radius. */
  ghost predicate OutOfReach(coords: map<NodeId, Point>, geo: Geodesic, request: RouteRequest) {
    && InBounds(request.origin)
    && (CanSnap(coords, request.origin, geo, request.searchRadius) ==>
          InBounds(request.destination) && !CanSnap(coords, request.destination, geo, request.searchRadius))
  }

  /** Both ends snap and no usable path joins them. */
  ghost predicate Disconnected(q: Query, geo: Geodesic, request: RouteRequest) {
    exists o, d :: Snaps(q.network.coords, geo, request, o, d) && !Reachable(NetOf(q), o, d)
  }

  /** Both ends snap and a usable path, as good as promised, has an edge the segment model refuses. */
  ghost predicate PathRefused(q: Query, geo: Geodesic, request: RouteRequest, edges: seq<EdgeData>) {
    && (exists o, d, nodes ::
          && Snaps(q.network.coords, geo, request, o, d)
          && Joins(NetOf(q), o, d, nodes, edges) && Distinct(nodes)
          && AsGoodAsPromised(q, geo, request.algorithm, o, d, Cost(NetOf(q), edges)))
    && exists e :: e in edges && !ValidSegment(e)
  }

  /** A reported route is as good as the algorithm promises. */
  ghost predicate AsGoodAsPromised(q: Query, geo: Geodesic, algorithm: Algorithm, o: NodeId, d: NodeId, c: real) {
    if algorithm == Dijkstra then NoCheaper(NetOf(q), o, d, c)
    else TriangleInequality(geo) && Surveyed(q, geo) && (q.mode == TravelTime ==> SpeedLimited(q)) ==>
           NearOptimal(NetOf(q), o, d, c, RoundingSlack(q.mode))
  }

  /** What the request's flags allow: never a BLOCKED or IMPASSABLE edge, the rest as the flags and tags say. */
  ghost predicate Allowed(request: RouteRequest, e: EdgeData) {
    && e.status != Blocked && e.accessibility != Impassable
    && !(e.accessibility == HighClearanceOnly && request.vehicle == Ambulance)
    && (e.status == Restricted ==> request.allowRestricted)
    && (e.status == Unknown ==> request.allowUnknown)
    && (e.access == NoAccess || e.access == Private ==>
          request.allowPrivate || e.emergency == EmergencyYes || e.emergency == EmergencyDesignated || e.emergency == EmergencyOnlyTag)
  }

  /** A request's hops in the map's own terms: the arcs, as the overrides show them, that its flags allow. */
  lemma RequestHopsMean(network: RoadNetwork, overrides: map<RoadId, RoadOverride>, request: RouteRequest,
                        u: NodeId, v: NodeId, e: EdgeData)
    ensures e in Hops(QueryOf(network, overrides, request), u, v) <==>
            Allowed(request, e) &&
            exists a :: a in network.arcs && a.from == u && a.to == v && Shows(overrides, a.data, e)
  {
    HopsMean(QueryOf(network, overrides, request), u, v, e);
    hide Hops, Shows;
  }

  /** Segment i of the route is an arc of the network, as the overrides show it, that the request allows. */
  ghost predicate Drives(network: RoadNetwork, overrides: map<RoadId, RoadOverride>, request: RouteRequest,
                         res: RouteResult, edges: seq<EdgeData>, i: nat)
    requires i < |edges| && |res.segments| == |edges| && |res.pathNodes| == |edges| + 1
  {
    var e, s := edges[i], res.segments[i];
    && Allowed(request, e)
    && (exists a :: a in network.arcs && a.from == res.pathNodes[i] && a.to == res.pathNodes[i + 1] && Shows(overrides, a.data, e))
    && s.edgeId == e.edgeId && s.roadId == e.roadId && s.length == e.length
  }

  /** Every segment of a good route is such an arc; so no road that is overridden BLOCKED or IMPASSABLE is driven. */
  lemma GoodRoutesDriveAllowedArcs(network: RoadNetwork, overrides: map<RoadId, RoadOverride>, geo: Geodesic,
                                   request: RouteRequest, res: RouteResult, edges: seq<EdgeData>)
    requires GoodRoute(QueryOf(network, overrides, request), geo, request, res, edges)
    ensures |res.segments| == |edges| && |res.pathNodes| == |edges| + 1
    ensures forall i :: 0 <= i < |edges| ==> Drives(network, overrides, request, res, edges, i)
    ensures forall s :: s in res.segments && s.roadId in overrides ==>
              overrides[s.roadId].status != Blocked && overrides[s.roadId].accessibility != Some(Impassable)
  {
    var q := QueryOf(network, overrides, request);
    hide AsGoodAsPromised, Snaps, ValidSegment, Hops, StitchAll, SumLength, SumDuration, Round2, Cost;
    forall i | 0 <= i < |edges| ensures Drives(network, overrides, request, res, edges, i) {
      NetOfIs(q, res.pathNodes[i], res.pathNodes[i + 1]);
      RequestHopsMean(network, overrides, request, res.pathNodes[i], res.pathNodes[i + 1], edges[i]);
    }
    hide GoodRoute, NetOf;
    forall s | s in res.segments && s.roadId in overrides
      ensures overrides[s.roadId].status != Blocked && overrides[s.roadId].accessibility != Some(Impassable)
    {
      var i :| 0 <= i < |res.segments| && res.segments[i] == s;
      assert Drives(network, overrides, request, res, edges, i);
    }
  }

  /** The least a segment must be: two points, and no negative length. */
  lemma SegmentLimits(e: EdgeData)
    ensures |e.geometry| < 2 || e.length < 0.0 ==> !ValidSegment(e)
    ensures |e.geometry| >= 2 && e.length >= 0.0 ==> ValidSegment(e)
  {
    if e.length < 0.0 {
      hide Duration;
    }
  }

  /** What a route promises: valid ends, a valid usable path, and a cost as good as the algorithm's. */
  ghost predicate GoodRoute(q: Query, geo: Geodesic, request: RouteRequest, res: RouteResult, edges: seq<EdgeData>) {
    && Snaps(q.network.coords, geo, request, res.snappedOrigin, res.snappedDestination)
    && Reports(q, res, edges)
    && AsGoodAsPromised(q, geo, request.algorithm, res.snappedOrigin, res.snappedDestination, Cost(NetOf(q), edges))
    && (forall e :: e in edges ==> ValidSegment(e))
    && Assembled(request, q.network.coords, res.stateVersion, res.pathNodes, edges, res.snappedOrigin, res.snappedDestination, res)
  }

  /**
    The emergency route. It succeeds with a usable path whose reported objective is its cost, optimal
    for Dijkstra and within the rounding slack per edge for A*. Every failure has its exact cause, and
    a segment is refused only on a path that the search chose.
  */
  method Route(network: RoadNetwork, overrides: map<RoadId, RoadOverride>, version: nat, geo: Geodesic,
               request: RouteRequest)
    returns (r: Result<RouteResult, RouteError>, ghost edges: seq<EdgeData>)
    ensures r.Ok? ==>
      && |r.value.segments| == |edges| && |r.value.pathNodes| == |edges| + 1
      && forall i :: 0 <= i < |edges| ==> Drives(network, overrides, request, r.value, edges, i)
    ensures r.Ok? ==> GoodRoute(QueryOf(network, overrides, request), geo, request, r.value, edges)
                      && r.value.stateVersion == version
    ensures r == Err(InvalidCoordinates) <==> OutOfBounds(network.coords, geo, request)
    ensures r == Err(NothingNearby) <==> OutOfReach(network.coords, geo, request)
    ensures r == Err(NoTraversableRoute) <==> Disconnected(QueryOf(network, overrides, request), geo, request)
    ensures r == Err(InvalidSegment) ==> PathRefused(QueryOf(network, overrides, request), geo, request, edges)
  {
    edges := [];
    var q := QueryOf(network, overrides, request);
    var from := FindNearestNode(request.origin, network.coords, geo, request.searchRadius);
    if from.Err? {
      return Err(from.error), [];
    }
    var to := FindNearestNode(request.destination, network.coords, geo, request.searchRadius);
    if to.Err? {
      return Err(to.error), [];
    }
    var o, d := from.value.0, to.value.0;
    assert Snaps(network.coords, geo, request, o, d);
    SnapsAreUnique(network.coords, geo, request, o, d);
    hide SnapsTo, Snaps, Reachable, AsGoodAsPromised, NetOf, ValidSegment, Assembled, GoodRoute, Drives;
    if o == d {
      StayingPutIsOptimal(q, geo, request.algorithm, o);
      r := ReconstructRoute(request, network.coords, version, [o], [], o, d);
      AssembledIsGood(q, geo, request, version, [o], [], o, d, r.value);
      GoodRoutesDriveAllowedArcs(network, overrides, geo, request, r.value, []);
      return;
    }
    var nodes, chosen := Solve(q, geo, request.algorithm, o, d);
    if nodes == [] {
      return Err(NoTraversableRoute), [];
    }
    edges := chosen;
    r := ReconstructRoute(request, network.coords, version, nodes, chosen, o, d);
    JoinedIsReachable(q, o, d, nodes, chosen);
    if r.Ok? {
      AssembledIsGood(q, geo, request, version, nodes, chosen, o, d, r.value);
      GoodRoutesDriveAllowedArcs(network, overrides, geo, request, r.value, chosen);
    }
  }

  lemma JoinedIsReachable(q: Query, o: NodeId, d: NodeId, nodes: seq<NodeId>, edges: seq<EdgeData>)
    requires Joins(NetOf(q), o, d, nodes, edges)
    ensures Reachable(NetOf(q), o, d)
  {
  }

  /** A route assembled from a valid chosen path keeps every promise. */
  lemma AssembledIsGood(q: Query, geo: Geodesic, request: RouteRequest, version: nat, nodes: seq<NodeId>, edges: seq<EdgeData>,
                        o: NodeId, d: NodeId, res: RouteResult)
    requires q.policy == RequestPolicy(request) && q.vehicle == request.vehicle && q.mode == request.mode
    requires Snaps(q.network.coords, geo, request, o, d)
    requires Joins(NetOf(q), o, d, nodes, edges) && Distinct(nodes)
    requires AsGoodAsPromised(q, geo, request.algorithm, o, d, Cost(NetOf(q), edges))
    requires forall e :: e in edges ==> ValidSegment(e)
    requires Assembled(request, q.network.coords, version, nodes, edges, o, d, res)
    ensures GoodRoute(q, geo, request, res, edges) && res.stateVersion == version
  {
    hide Snaps, Joins, NetOf, AsGoodAsPromised, ValidSegment, NoStutter, Cost;
    ReportedObjective(q, edges);
  }

  /** Runs the requested algorithm. */
  method Solve(q: Query, geo: Geodesic, algorithm: Algorithm, o: NodeId, d: NodeId)
    returns (nodes: seq<NodeId>, edges: seq<EdgeData>)
    ensures nodes == [] <==> !Reachable(NetOf(q), o, d)
    ensures nodes != [] ==> Joins(NetOf(q), o, d, nodes, edges) && Distinct(nodes)
    ensures nodes != [] ==> AsGoodAsPromised(q, geo, algorithm, o, d, Cost(NetOf(q), edges))
  {
    if algorithm == AStar {
      nodes, edges := SolveAstar(q, geo, o, d, RoundingSlack(q.mode));
      if d in q.network.coords && TriangleInequality(geo) && Surveyed(q, geo) && (q.mode == TravelTime ==> SpeedLimited(q)) {
        GeodesicIsNearlyConsistent(q, geo, q.network.coords[d]);
      }
    } else {
      nodes, edges := SolveDijkstra(q, o, d);
    }
  }

  lemma StayingPutIsOptimal(q: Query, geo: Geodesic, algorithm: Algorithm, o: NodeId)
    ensures AsGoodAsPromised(q, geo, algorithm, o, o, Cost(NetOf(q), []))
    ensures Joins(NetOf(q), o, o, [o], []) && Reachable(NetOf(q), o, o)
  {
    var net := NetOf(q);
    assert Joins(net, o, o, [o], []);
    forall ns, es | Joins(net, o, o, ns, es) ensures 0.0 <= Cost(net, es) {
      CostNonNegative(net, es);
    }
    SlackAndOptimality(net, o, o, 0.0, RoundingSlack(q.mode));
  }

  lemma SnapsAreUnique(coords: map<NodeId, Point>, geo: Geodesic, request: RouteRequest, o: NodeId, d: NodeId)
    requires Snaps(coords, geo, request, o, d)
    ensures forall o', d' :: Snaps(coords, geo, request, o', d') ==> o' == o && d' == d
  {
    forall o', d' | Snaps(coords, geo, request, o', d') ensures o' == o && d' == d {
      NearestIsUnique(coords, request.origin, geo, o, o');
      NearestIsUnique(coords, request.destination, geo, d, d');
    }
  }

  lemma NearestIsUnique(coords: map<NodeId, Point>, p: Point, geo: Geodesic, n: NodeId, m: NodeId)
    requires NearestTo(coords, p, geo, n) && NearestTo(coords, p, geo, m)
    ensures n == m
  {
    StrLeqAntisymmetric(n, m);
  }

  /** The reported objective is the search's cost, to the cent. */
  lemma ReportedObjective(q: Query, es: seq<EdgeData>)
    requires q.policy.maxPenalty == 1.0 && forall e :: e in es ==> ValidSegment(e)
    ensures var total := if q.mode == Distance then SumLength(es) else SumDuration(es);
            && total == Cost(NetOf(q), es)
            && (q.mode == TravelTime || (forall e :: e in es ==> Hundredths(e.length)) ==> Round2(total) == total)
  {
    hide ValidSegment, Cost, NetOf, SumLength, SumDuration, Round2, Hundredths;
    TotalsAreCosts(q, es);
    if q.mode == TravelTime {
      Round2Fixed(SumDuration(es));
    } else if Hundredths(SumLength(es)) {
      Round2Fixed(SumLength(es));
    }
  }
}
