/** Re-evaluation of an existing route against the current overlay. */
module Rerouting {
  import opened Basics
  import opened Overlay
  import opened RoadGraph
  import opened Policy
  import opened Paths
  import opened Queries
  import opened SearchTheory
  import opened Solvers
  import opened Router

  datatype Reason = EdgeGone(edge: EdgeId) | RoadImpassable(road: RoadId, edge: EdgeId, why: Refusal)

  /** What is wrong with one segment now, and the road it is blamed on. */
  datatype Problem = Problem(reason: Reason, road: RoadId)

  function SegmentProblem(byId: map<EdgeId, EdgeData>, overrides: map<RoadId, RoadOverride>,
                          policy: RoutingPolicy, vehicle: VehicleType, s: Segment): Option<Problem>
  {
    if s.edgeId !in byId then Some(Problem(EdgeGone(s.edgeId), s.roadId))
    else
      var e := Effective(overrides, byId[s.edgeId]);
      match Evaluate(policy, e, vehicle)
      case None => None
      case Some(why) => Some(Problem(RoadImpassable(e.roadId, s.edgeId, why), e.roadId))
  }

  function Problems(byId: map<EdgeId, EdgeData>, overrides: map<RoadId, RoadOverride>,
                    policy: RoutingPolicy, vehicle: VehicleType, segments: seq<Segment>): seq<Problem>
  {
    if segments == [] then []
    else
      var before := Problems(byId, overrides, policy, vehicle, segments[..|segments| - 1]);
      match SegmentProblem(byId, overrides, policy, vehicle, segments[|segments| - 1])
      case None => before
      case Some(p) => before + [p]
  }

  /** The segment's edge still exists and, as the overrides show it now, has nothing that speaks against it. */
  ghost predicate StillUsable(byId: map<EdgeId, EdgeData>, overrides: map<RoadId, RoadOverride>,
                              policy: RoutingPolicy, vehicle: VehicleType, s: Segment)
  {
    s.edgeId in byId && exists e :: Shows(overrides, byId[s.edgeId], e) && Admits(policy, e, vehicle)
  }

  lemma UsableIffTraversable(byId: map<EdgeId, EdgeData>, overrides: map<RoadId, RoadOverride>,
                             policy: RoutingPolicy, vehicle: VehicleType, s: Segment)
    ensures StillUsable(byId, overrides, policy, vehicle, s) <==>
            s.edgeId in byId && Traversable(policy, Effective(overrides, byId[s.edgeId]), vehicle)
  {
    if s.edgeId in byId {
      var e := Effective(overrides, byId[s.edgeId]);
      EffectiveIsShown(overrides, byId[s.edgeId], e);
      TraversableIffAdmitted(policy, e, vehicle);
      hide Effective, Shows, Traversable, Admits;
      forall d ensures d == e <==> Shows(overrides, byId[s.edgeId], d) {
        EffectiveIsShown(overrides, byId[s.edgeId], d);
      }
    }
  }

  lemma {:induction false} NoProblemsMeansUsable(byId: map<EdgeId, EdgeData>, overrides: map<RoadId, RoadOverride>,
                                                 policy: RoutingPolicy, vehicle: VehicleType, segments: seq<Segment>)
    ensures Problems(byId, overrides, policy, vehicle, segments) == [] <==>
            forall i :: 0 <= i < |segments| ==> StillUsable(byId, overrides, policy, vehicle, segments[i])
  {
    if segments != [] {
      NoProblemsMeansUsable(byId, overrides, policy, vehicle, segments[..|segments| - 1]);
      UsableIffTraversable(byId, overrides, policy, vehicle, segments[|segments| - 1]);
      hide StillUsable, Effective, Evaluate;
    }
  }

  /** The problem blames the segment's own edge, and the edge's road if it still has one. */
  predicate Blames(byId: map<EdgeId, EdgeData>, s: Segment, p: Problem) {
    if s.edgeId !in byId then p == Problem(EdgeGone(s.edgeId), s.roadId)
    else p.reason.RoadImpassable? && p.reason.edge == s.edgeId && p.reason.road == p.road == byId[s.edgeId].roadId
  }

  /** Each problem blames a segment that is not usable now, and each such segment is blamed. */
  lemma {:induction false} ProblemsAreReal(byId: map<EdgeId, EdgeData>, overrides: map<RoadId, RoadOverride>,
                                           policy: RoutingPolicy, vehicle: VehicleType, segments: seq<Segment>)
    ensures forall p :: p in Problems(byId, overrides, policy, vehicle, segments) ==>
              exists s :: s in segments && !StillUsable(byId, overrides, policy, vehicle, s) && Blames(byId, s, p)
    ensures forall s :: s in segments && !StillUsable(byId, overrides, policy, vehicle, s) ==>
              exists p :: p in Problems(byId, overrides, policy, vehicle, segments) && Blames(byId, s, p)
  {
    if segments != [] {
      var init, last := segments[..|segments| - 1], segments[|segments| - 1];
      assert segments == init + [last];
      ProblemsAreReal(byId, overrides, policy, vehicle, init);
      UsableIffTraversable(byId, overrides, policy, vehicle, last);
      var found := SegmentProblem(byId, overrides, policy, vehicle, last);
      assert found.Some? <==> !StillUsable(byId, overrides, policy, vehicle, last);
      assert found.Some? ==> Blames(byId, last, found.value);
      assert Problems(byId, overrides, policy, vehicle, segments)
          == Problems(byId, overrides, policy, vehicle, init) + if found.Some? then [found.value] else [];
      hide StillUsable, SegmentProblem, Problems, Blames;
    }
  }

  datatype ReroutingResult = ReroutingResult(
    rerouteRequired: bool,
    oldRoute: RouteResult,
    newRoute: Option<RouteResult>,
    distanceDelta: real,
    durationDelta: real,
    problems: seq<Problem>,
    versionBefore: nat,
    versionAfter: nat,
    noPathFound: bool)

  /** The request a reroute uses: the caller's, else the route's own, else one rebuilt with defaults. */
  function RequestFor(route: RouteResult, custom: Option<RouteRequest>): RouteRequest {
    if custom.Some? then custom.value
    else if route.request.Some? then route.request.value
    else RouteRequest(route.origin, route.destination, route.vehicle, route.mode, 2500.0, true, true, false, Dijkstra)
  }

  /** The caller's request wins, then the one the route was computed for; otherwise one with the defaults, for the same trip. */
  lemma RequestForMeans(route: RouteResult, custom: Option<RouteRequest>)
    ensures custom.Some? ==> RequestFor(route, custom) == custom.value
    ensures custom.None? && route.request.Some? ==> RequestFor(route, custom) == route.request.value
    ensures custom.None? && route.request.None? ==>
      var r := RequestFor(route, custom);
      && r.origin == route.origin && r.destination == route.destination && r.vehicle == route.vehicle && r.mode == route.mode
      && r.searchRadius == 2500.0 && r.allowRestricted && r.allowUnknown && !r.allowPrivate && r.algorithm == Dijkstra
  {
  }

  // ---- Why a reroute settles --------------------------------------------------------

  /** Every edge of a path passes re-validation under the router's own policy. */
  ghost predicate Revalidates(routerPolicy: RoutingPolicy, q: Query, byId: map<EdgeId, EdgeData>, es: seq<EdgeData>) {
    forall i :: 0 <= i < |es| ==> StillUsable(byId, q.overrides, routerPolicy, q.vehicle, SegmentOf(es[i]))
  }

  lemma PathsRevalidate(routerPolicy: RoutingPolicy, q: Query, byId: map<EdgeId, EdgeData>,
                        ns: seq<NodeId>, es: seq<EdgeData>)
    requires AtLeastAsPermissive(routerPolicy, q.policy) && IndexAgrees(byId, q.network.arcs)
    requires IsPath(NetOf(q), ns, es)
    ensures Revalidates(routerPolicy, q, byId, es)
  {
    forall i | 0 <= i < |es| ensures StillUsable(byId, q.overrides, routerPolicy, q.vehicle, SegmentOf(es[i])) {
      HopsAreEffectiveArcs(q, ns[i], ns[i + 1], es[i]);
      UsableIffTraversable(byId, q.overrides, routerPolicy, q.vehicle, SegmentOf(es[i]));
      hide StillUsable, Hops;
    }
  }

  /** A one-edge network whose only route is over the given edge. */
  function OneEdge(e: EdgeData): RoadNetwork {
    RoadNetwork(map["a" := (0.0, 0.0), "b" := (1.0, 0.0)], [Arc("a", "b", e)])
  }

  /** Every path usable under the search policy stays valid when re-evaluated. */
  ghost predicate AlwaysSettles(routerPolicy: RoutingPolicy, searchPolicy: RoutingPolicy) {
    forall q: Query, byId, ns, es ::
      q.policy == searchPolicy && IndexAgrees(byId, q.network.arcs) && IsPath(NetOf(q), ns, es) ==>
        Revalidates(routerPolicy, q, byId, es)
  }

  /**
    Rerouting is a fixpoint on every network exactly when the router's own policy allows whatever the
    request's flags allow. Otherwise some network makes it ask for another reroute forever.
  */
  lemma SettlesIffRouterPermissive(routerPolicy: RoutingPolicy, searchPolicy: RoutingPolicy)
    ensures AlwaysSettles(routerPolicy, searchPolicy) <==> AtLeastAsPermissive(routerPolicy, searchPolicy)
  {
    if AtLeastAsPermissive(routerPolicy, searchPolicy) {
      forall q: Query, byId, ns, es | q.policy == searchPolicy && IndexAgrees(byId, q.network.arcs) && IsPath(NetOf(q), ns, es)
        ensures Revalidates(routerPolicy, q, byId, es)
      {
        PathsRevalidate(routerPolicy, q, byId, ns, es);
      }
    } else {
      StrictRouterRefusesNewRoute(routerPolicy, searchPolicy);
    }
  }

  lemma StrictRouterRefusesNewRoute(routerPolicy: RoutingPolicy, searchPolicy: RoutingPolicy)
    requires !AtLeastAsPermissive(routerPolicy, searchPolicy)
    ensures var e := Separator(routerPolicy, searchPolicy);
            var q := Query(OneEdge(e), map[], searchPolicy, GeneralEmergency, Distance);
            && IndexAgrees(map[e.edgeId := e], q.network.arcs)
            && IsPath(NetOf(q), ["a", "b"], [e])
            && !Revalidates(routerPolicy, q, map[e.edgeId := e], [e])
  {
    var e := Separator(routerPolicy, searchPolicy);
    var q := Query(OneEdge(e), map[], searchPolicy, GeneralEmergency, Distance);
    assert Arc("a", "b", e) == q.network.arcs[0];
    HopsAreEffectiveArcs(q, "a", "b", e);
    assert NetOf(q).hop("a", "b", e);
    UsableIffTraversable(map[e.edgeId := e], q.overrides, routerPolicy, q.vehicle, SegmentOf([e][0]));
    hide StillUsable, Hops;
    assert !StillUsable(map[e.edgeId := e], q.overrides, routerPolicy, q.vehicle, SegmentOf([e][0]));
  }

  // ---- Closures ---------------------------------------------------------------------

  /**
    A reroute after pure closures from an optimal route never reports an improvement in the objective:
    the new figure, and the rounded difference, are at least zero above the old one.
  */
  lemma ClosuresNeverImproveTheObjective(network: RoadNetwork, before: map<RoadId, RoadOverride>,
                                         after: map<RoadId, RoadOverride>, request: RouteRequest,
                                         first: RouteResult, firstEdges: seq<EdgeData>,
                                         second: RouteResult, secondEdges: seq<EdgeData>)
    requires OnlyCloses(before, after)
    requires Reports(QueryOf(network, before, request), first, firstEdges)
    requires Reports(QueryOf(network, after, request), second, secondEdges)
    requires first.snappedOrigin == second.snappedOrigin && first.snappedDestination == second.snappedDestination
    requires var net := NetOf(QueryOf(network, before, request));
             NoCheaper(net, first.snappedOrigin, first.snappedDestination, Cost(net, firstEdges))
    ensures Objective(second) >= Objective(first) && Round2(Objective(second) - Objective(first)) >= 0.0
  {
    var q, q' := QueryOf(network, before, request), QueryOf(network, after, request);
    assert q' == q.(overrides := after);
    ClosuresNeverHelp(q, after, first.snappedOrigin, first.snappedDestination);
    Round2Monotone(Cost(NetOf(q), firstEdges), Cost(NetOf(q'), secondEdges));
  }

  // ---- The rerouter ------------------------------------------------------------------

  class DynamicRerouter {
    const adapter: RoutingGraphAdapter
    const policy: RoutingPolicy
    const overlay: StateOverlay
    const geo: Geodesic

    /** The adapter is wired to this rerouter's overlay. */
    ghost predicate Valid()
      reads adapter
    {
      adapter.Valid() && adapter.overlay == overlay
    }

    /** Every segment of the route exists and may be used now. */
    ghost predicate AllUsable(route: RouteResult)
      reads overlay
    {
      forall i :: 0 <= i < |route.segments| ==>
        StillUsable(adapter.index.byId, overlay.overrides, policy, route.vehicle, route.segments[i])
    }

    /** Wires the graph adapter to the overlay and indexes its edges there. */
    constructor (adapter: RoutingGraphAdapter, policy: RoutingPolicy, overlay: StateOverlay, geo: Geodesic)
      requires adapter.Valid()
      modifies adapter`overlay, overlay
      ensures Valid() && this.adapter == adapter && this.policy == policy && this.overlay == overlay && this.geo == geo
      ensures overlay.View() == RegisterIndexed(old(overlay.View()), adapter.index, adapter.index.ids)
    {
      this.adapter, this.policy, this.overlay, this.geo := adapter, policy, overlay, geo;
      new;
      adapter.SetOverlay(overlay);
    }

    /** Checks every segment; the route is valid exactly when each one is still usable. */
    method IsRouteValid(route: RouteResult) returns (valid: bool, problems: seq<Problem>)
      requires Valid()
      ensures problems == Problems(adapter.index.byId, overlay.overrides, policy, route.vehicle, route.segments)
      ensures valid <==> AllUsable(route)
      ensures valid <==> problems == []
    {
      problems := [];
      for i := 0 to |route.segments|
        invariant problems == Problems(adapter.index.byId, overlay.overrides, policy, route.vehicle, route.segments[..i])
      {
        assert route.segments[..i + 1][..i] == route.segments[..i];
        var s := route.segments[i];
        var e := adapter.GetEdgeById(s.edgeId);
        if e.None? {
          problems := problems + [Problem(EdgeGone(s.edgeId), s.roadId)];
          continue;
        }
        var refusal := Evaluate(policy, e.value, route.vehicle);
        if refusal.Some? {
          problems := problems + [Problem(RoadImpassable(e.value.roadId, s.edgeId, refusal.value), e.value.roadId)];
        }
      }
      assert route.segments[..|route.segments|] == route.segments;
      NoProblemsMeansUsable(adapter.index.byId, overlay.overrides, policy, route.vehicle, route.segments);
      valid := problems == [];
    }

    /**
      Raises exactly when some segment is unusable and the request's coordinates are invalid. Otherwise
      there is no reroute exactly when every segment is usable now. A new route is a valid path for the
      current overlay, as good as its algorithm promises, and passes re-evaluation at once if the router's
      policy is at least as permissive as the request. `noPathFound` means that an end has no node within
      reach, that no usable path joins the ends, or that the path chosen was refused.
    */
    method EvaluateAndReroute(route: RouteResult, custom: Option<RouteRequest>)
      returns (r: Result<ReroutingResult, RouteError>, ghost edges: seq<EdgeData>)
      requires Valid()
      ensures r.Err? <==> !AllUsable(route) && OutOfBounds(adapter.network.coords, geo, RequestFor(route, custom))
      ensures r.Err? ==> r.error == InvalidCoordinates
      ensures r.Ok? ==> r.value.oldRoute == route
                        && r.value.versionBefore == route.stateVersion && r.value.versionAfter == overlay.version
                        && r.value.problems == Problems(adapter.index.byId, overlay.overrides, policy, route.vehicle, route.segments)
      ensures r.Ok? ==> (!r.value.rerouteRequired <==> AllUsable(route))
      ensures r.Ok? && !r.value.rerouteRequired ==> r.value.newRoute == Some(route) && !r.value.noPathFound
      ensures r.Ok? && r.value.rerouteRequired ==> (r.value.noPathFound <==> r.value.newRoute.None?)
      ensures r.Ok? && r.value.rerouteRequired && r.value.newRoute.Some? ==>
        var request, res := RequestFor(route, custom), r.value.newRoute.value;
        var q := QueryOf(adapter.network, overlay.overrides, request);
        && GoodRoute(q, geo, request, res, edges)
        && r.value.distanceDelta == Round2(res.distance - route.distance)
        && r.value.durationDelta == Round2(res.duration - route.duration)
        && (IndexAgrees(adapter.index.byId, adapter.network.arcs) && AtLeastAsPermissive(policy, q.policy) ==> AllUsable(res))
        && (forall asked :: custom == Some(asked) || (custom.None? && route.request == Some(asked)) ==> res.request == Some(asked))
      ensures r.Ok? && r.value.rerouteRequired ==>
        var request := RequestFor(route, custom);
        var q := QueryOf(adapter.network, overlay.overrides, request);
        && (r.value.noPathFound ==>
              OutOfReach(adapter.network.coords, geo, request) || Disconnected(q, geo, request) || PathRefused(q, geo, request, edges))
        && (OutOfReach(adapter.network.coords, geo, request) || Disconnected(q, geo, request) ==> r.value.noPathFound)
    {
      hide GoodRoute, OutOfBounds, OutOfReach, Disconnected, PathRefused, IndexAgrees, AtLeastAsPermissive, StillUsable, Round2;
      edges := [];
      var valid, problems := IsRouteValid(route);
      var before, after := route.stateVersion, overlay.version;
      if valid {
        return Ok(ReroutingResult(false, route, Some(route), 0.0, 0.0, [], before, after, false)), [];
      }
      var request := RequestFor(route, custom);
      var rerouted, chosen := Router.Route(adapter.network, overlay.overrides, overlay.version, geo, request);
      edges := chosen;
      if rerouted.Err? {
        if IsValueError(rerouted.error) {
          return Ok(ReroutingResult(true, route, None, 0.0, 0.0, problems, before, after, true)), chosen;
        }
        return Err(rerouted.error), [];
      }
      var res := rerouted.value;
      r := Ok(ReroutingResult(true, route, Some(res), Round2(res.distance - route.distance),
                              Round2(res.duration - route.duration), problems, before, after, false));
      GoodRouteReports(QueryOf(adapter.network, overlay.overrides, request), geo, request, res, edges);
      NewRouteRevalidates(policy, QueryOf(adapter.network, overlay.overrides, request), adapter.index.byId, res, edges);
    }
  }

  lemma GoodRouteReports(q: Query, geo: Geodesic, request: RouteRequest, res: RouteResult, edges: seq<EdgeData>)
    requires GoodRoute(q, geo, request, res, edges)
    ensures Reports(q, res, edges) && res.request == Some(request)
  {
  }

  lemma NewRouteRevalidates(routerPolicy: RoutingPolicy, q: Query, byId: map<EdgeId, EdgeData>,
                            res: RouteResult, edges: seq<EdgeData>)
    requires Reports(q, res, edges)
    ensures IndexAgrees(byId, q.network.arcs) && AtLeastAsPermissive(routerPolicy, q.policy) ==>
              forall i :: 0 <= i < |res.segments| ==>
                StillUsable(byId, q.overrides, routerPolicy, res.vehicle, res.segments[i])
  {
    if IndexAgrees(byId, q.network.arcs) && AtLeastAsPermissive(routerPolicy, q.policy) {
      PathsRevalidate(routerPolicy, q, byId, res.pathNodes, edges);
    }
  }

  // ---- Where a refusal can occur --------------------------------------------------------------

  /** Some cheapest repetition-free path, which Dijkstra may choose between its ends, has a refused edge. */
  ghost predicate RefusalPossible(q: Query) {
    exists o, d, nodes, edges ::
      Joins(NetOf(q), o, d, nodes, edges) && Distinct(nodes) && NoCheaper(NetOf(q), o, d, Cost(NetOf(q), edges))
      && exists e :: e in edges && !ValidSegment(e)
  }

  /** A refused edge is usable and no path between its two different ends undercuts it. */
  ghost predicate RefusedEdgeIsCheapest(q: Query, u: NodeId, v: NodeId, e: EdgeData) {
    u != v && e in Hops(q, u, v) && !ValidSegment(e) && NoCheaper(NetOf(q), u, v, Weight(q, e))
  }

  /** Between some ends a chosen path can be refused exactly where a refused edge is a cheapest way between its own. */
  lemma RefusalPossibleIff(q: Query)
    ensures RefusalPossible(q) <==> exists u, v, e :: RefusedEdgeIsCheapest(q, u, v, e)
  {
    forall o, d, nodes, edges, e
      | Joins(NetOf(q), o, d, nodes, edges) && Distinct(nodes) && NoCheaper(NetOf(q), o, d, Cost(NetOf(q), edges))
        && e in edges && !ValidSegment(e)
      ensures exists u, v :: RefusedEdgeIsCheapest(q, u, v, e)
    {
      RefusedEdgeOnPath(q, o, d, nodes, edges, e);
    }
    forall u, v, e | RefusedEdgeIsCheapest(q, u, v, e) ensures RefusalPossible(q) {
      RefusedEdgeAlone(q, u, v, e);
    }
    hide RefusedEdgeIsCheapest, Joins, NoCheaper, NetOf, ValidSegment;
  }

  /** So where every refused edge is undercut, a Dijkstra request that finds no path has none. */
  lemma UndercutEdgesAreNeverRefused(q: Query, geo: Geodesic, request: RouteRequest, edges: seq<EdgeData>)
    requires request.algorithm == Dijkstra && forall u, v, e :: !RefusedEdgeIsCheapest(q, u, v, e)
    ensures !PathRefused(q, geo, request, edges)
  {
    RefusalPossibleIff(q);
    hide RefusedEdgeIsCheapest, Snaps, Joins, NoCheaper, NetOf, ValidSegment;
  }

  lemma RefusedEdgeOnPath(q: Query, o: NodeId, d: NodeId, nodes: seq<NodeId>, edges: seq<EdgeData>, e: EdgeData)
    requires Joins(NetOf(q), o, d, nodes, edges) && Distinct(nodes) && NoCheaper(NetOf(q), o, d, Cost(NetOf(q), edges))
    requires e in edges && !ValidSegment(e)
    ensures exists u, v :: RefusedEdgeIsCheapest(q, u, v, e)
  {
    var i :| 0 <= i < |edges| && edges[i] == e;
    EdgesOfCheapestAreCheapest(NetOf(q), o, d, nodes, edges, i);
    NetOfIs(q, nodes[i], nodes[i + 1]);
    assert nodes[i] != nodes[i + 1];
    hide NoCheaper, ValidSegment, Weight, Hops;
    assert RefusedEdgeIsCheapest(q, nodes[i], nodes[i + 1], e);
  }

  lemma RefusedEdgeAlone(q: Query, u: NodeId, v: NodeId, e: EdgeData)
    requires RefusedEdgeIsCheapest(q, u, v, e)
    ensures RefusalPossible(q)
  {
    NetOfIs(q, u, v);
    var net, none: seq<EdgeData> := NetOf(q), [];
    CostCons(net, e, none);
    assert [e] + none == [e] && e in [e];
    assert Joins(net, u, v, [u, v], [e]) && Distinct([u, v]);
    hide ValidSegment, Weight, Hops, NetOf, NoCheaper;
    assert NoCheaper(net, u, v, Cost(net, [e]));
  }

  // ---- A path that is not found ------------------------------------------------------------

  /** An open, traversable edge without geometry, which the segment model refuses. */
  const MALFORMED := PLAIN_EDGE.(geometry := [])

  function ShortTrip(): RouteRequest {
    RouteRequest((0.0, 0.0), (1.0, 0.0), GeneralEmergency, Distance, 2500.0, true, true, false, Dijkstra)
  }

  /** A route whose only segment no longer exists. */
  function LostRoute(): RouteResult {
    RouteResult((0.0, 0.0), (1.0, 0.0), "a", "b", ["a", "b"], [Segment("GONE", "R", 1.0, 1.0)], [], 1.0, 1.0,
                GeneralEmergency, Distance, 1, Some(ShortTrip()))
  }

  lemma LineRoundings()
    ensures Round2(LineDistance()((0.0, 0.0), (0.0, 0.0))) == 0.0 == Round2(LineDistance()((1.0, 0.0), (1.0, 0.0)))
    ensures Round2(LineDistance()((0.0, 0.0), (1.0, 0.0))) == 1.0 == Round2(LineDistance()((1.0, 0.0), (0.0, 0.0)))
  {
    IntegerIsHundredth(0.0, 0);
    Round2Fixed(0.0);
    IntegerIsHundredth(1.0, 100);
    Round2Fixed(1.0);
  }

  lemma ShortTripSnaps(network: RoadNetwork)
    requires network.coords == map["a" := (0.0, 0.0), "b" := (1.0, 0.0)]
    ensures Snaps(network.coords, LineDistance(), ShortTrip(), "a", "b")
  {
    LineRoundings();
    hide LineDistance, Round2;
    StrLeqTotal("a", "a");
    StrLeqTotal("b", "b");
  }

  /** On this network the only edge is malformed, so the only path is. */
  lemma MalformedPath(q: Query)
    requires q.network == OneEdge(MALFORMED) && q.overrides == map[] && q.policy == RequestPolicy(ShortTrip())
    ensures Joins(NetOf(q), "a", "b", ["a", "b"], [MALFORMED])
    ensures forall ns, es :: Joins(NetOf(q), "a", "b", ns, es) ==> exists e :: e in es && !ValidSegment(e)
  {
    assert Arc("a", "b", MALFORMED) == q.network.arcs[0];
    HopsAreEffectiveArcs(q, "a", "b", MALFORMED);
    assert NetOf(q).hop("a", "b", MALFORMED);
    forall ns, es | Joins(NetOf(q), "a", "b", ns, es) ensures exists e :: e in es && !ValidSegment(e) {
      assert es != [];
      var e := es[0];
      HopsAreEffectiveArcs(q, ns[0], ns[1], e);
      assert e in es && !ValidSegment(e);
    }
  }

  /** The rerouter reports that no path was found although a usable path joins the ends. */
  method MalformedEdgeHidesAPath() returns (r: ReroutingResult)
    ensures r.noPathFound && r.newRoute.None?
    ensures Snaps(OneEdge(MALFORMED).coords, LineDistance(), ShortTrip(), "a", "b")
    ensures Reachable(NetOf(QueryOf(OneEdge(MALFORMED), map[], ShortTrip())), "a", "b")
  {
    var overlay := new StateOverlay();
    var adapter := new RoutingGraphAdapter(OneEdge(MALFORMED));
    var rerouter := new DynamicRerouter(adapter, DEFAULT_POLICY, overlay, LineDistance());
    RegistrationIsQuiet(FRESH, adapter.index, adapter.index.ids);
    DistinctIdsIndexAgrees(adapter.network.arcs);
    var route := LostRoute();
    assert overlay.overrides == map[];
    assert !StillUsable(adapter.index.byId, map[], DEFAULT_POLICY, GeneralEmergency, route.segments[0]);
    var result, edges := rerouter.EvaluateAndReroute(route, None);
    NoGoodRoute(QueryOf(adapter.network, map[], ShortTrip()), if result.Ok? then result.value.newRoute else None, edges);
    hide GoodRoute, StillUsable, Reachable, Snaps, NetOf, Round2;
    r := result.value;
  }

  lemma NoGoodRoute(q: Query, res: Option<RouteResult>, edges: seq<EdgeData>)
    requires q.network == OneEdge(MALFORMED) && q.overrides == map[] && q.policy == RequestPolicy(ShortTrip())
    ensures Snaps(q.network.coords, LineDistance(), ShortTrip(), "a", "b")
    ensures Reachable(NetOf(q), "a", "b") && !OutOfBounds(q.network.coords, LineDistance(), ShortTrip())
    ensures res.Some? ==> !GoodRoute(q, LineDistance(), ShortTrip(), res.value, edges)
  {
    ShortTripSnaps(q.network);
    MalformedPath(q);
    SnapsAreUnique(q.network.coords, LineDistance(), ShortTrip(), "a", "b");
    hide Snaps, NetOf, LineDistance, ValidSegment;
  }
}
