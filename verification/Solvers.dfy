/** The two shortest-path solvers: Dijkstra, and A* with a rounded geodesic heuristic. */
module Solvers {
  import opened Basics
  import opened RoadGraph
  import opened Policy
  import opened Paths
  import opened Queries
  import opened SearchTheory
  import opened Search

  /** Great-circle distance in metres, before rounding. */
  type Geodesic = (Point, Point) -> real

  const ZERO_HEURISTIC: NodeId -> real := _ => 0.0

  lemma ZeroIsConsistent(q: Query)
    ensures Consistent(NetOf(q), ZERO_HEURISTIC, 0.0)
  {
  }

  /**
    Dijkstra: sound, complete and optimal on every finite multigraph. The result is empty exactly
    when the target is unreachable; otherwise it is a repetition-free usable path of least cost.
  */
  method SolveDijkstra(q: Query, source: NodeId, target: NodeId)
    returns (nodes: seq<NodeId>, edges: seq<EdgeData>)
    ensures nodes == [] <==> !Reachable(NetOf(q), source, target)
    ensures nodes == [] ==> edges == []
    ensures nodes != [] ==> Joins(NetOf(q), source, target, nodes, edges) && Distinct(nodes)
    ensures nodes != [] ==> NoCheaper(NetOf(q), source, target, Cost(NetOf(q), edges))
  {
    ZeroIsConsistent(q);
    ghost var net := NetOf(q);
    var s, t := Explore(q, ZERO_HEURISTIC, source, target, 0.0);
    if target !in s.parent && source != target {
      assert target in s.score ==> Linked(net, s, t, target);
      return [], [];
    }
    nodes, edges := Reconstruct(q, source, target, s, t);
    SlackAndOptimality(net, source, target, s.score[target], 0.0);
  }

  /** 120 km/h in metres per second. */
  const MAX_SPEED_MS: real := 120.0 / 3.6

  /** Straight-line distance to the destination, or the time it takes at top speed; 0 without coordinates. */
  function Heuristic(q: Query, geo: Geodesic, destination: Point): NodeId -> real {
    n =>
      if n !in q.network.coords then 0.0
      else
        var metres := Round2(geo(q.network.coords[n], destination));
        if q.mode == Distance then metres else metres / MAX_SPEED_MS
  }

  /** The estimate is the rounded straight line, as metres or as seconds at 120 km/h, and nothing without coordinates. */
  lemma EstimateMeans(q: Query, geo: Geodesic, destination: Point, n: NodeId)
    ensures n !in q.network.coords ==> Heuristic(q, geo, destination)(n) == 0.0
    ensures n in q.network.coords ==>
              Heuristic(q, geo, destination)(n)
              == Round2(geo(q.network.coords[n], destination)) / (if q.mode == Distance then 1.0 else 120.0 / 3.6)
  {
  }

  /**
    A*, without reopening closed nodes. For any heuristic at all the result is empty exactly when
    the target is unreachable and is otherwise a repetition-free usable path that avoids nodes whose
    estimate exceeds a direct edge. If the heuristic is consistent up to eps on every usable edge, the
    path costs at most eps per edge more than any other.
  */
  method SolveAstar(q: Query, geo: Geodesic, source: NodeId, target: NodeId, ghost eps: real)
    returns (nodes: seq<NodeId>, edges: seq<EdgeData>)
    requires eps >= 0.0
    ensures nodes == [] <==> !Reachable(NetOf(q), source, target)
    ensures nodes == [] ==> edges == []
    ensures nodes != [] ==> Joins(NetOf(q), source, target, nodes, edges) && Distinct(nodes)
    ensures nodes != [] && (target in q.network.coords ==>
              Consistent(NetOf(q), Heuristic(q, geo, q.network.coords[target]), eps)) ==>
              NearOptimal(NetOf(q), source, target, Cost(NetOf(q), edges), eps)
    ensures nodes != [] && target in q.network.coords ==>
              Focused(NetOf(q), Heuristic(q, geo, q.network.coords[target]), source, target, nodes)
  {
    if target !in q.network.coords {
      nodes, edges := SolveDijkstra(q, source, target);
      if nodes != [] {
        SlackAndOptimality(NetOf(q), source, target, Cost(NetOf(q), edges), eps);
      }
      return;
    }
    ghost var net := NetOf(q);
    var h := Heuristic(q, geo, q.network.coords[target]);
    var s, t := Explore(q, h, source, target, eps);
    if target !in s.parent && source != target {
      assert target in s.score ==> Linked(net, s, t, target);
      return [], [];
    }
    nodes, edges := Reconstruct(q, source, target, s, t);
    ClosedPathIsFocused(net, h, source, target, s, t, nodes);
    hide NetOf, Rooted, Focused, Reachable, NearOptimal, Heuristic, ParentsClosed, DirectBound;
  }

  // ---- How consistent the rounded heuristic is -------------------------------------

  ghost predicate TriangleInequality(geo: Geodesic) {
    forall a, b, c :: geo(a, c) <= geo(a, b) + geo(b, c)
  }

  /** Both ends of an edge have coordinates, and it is no shorter than the rounded straight line. */
  ghost predicate SurveyedHop(q: Query, geo: Geodesic, u: NodeId, v: NodeId, e: EdgeData) {
    && u in q.network.coords && v in q.network.coords
    && 0.0 <= Round2(geo(q.network.coords[u], q.network.coords[v])) <= e.length
  }

  ghost predicate Surveyed(q: Query, geo: Geodesic) {
    forall u, v, e :: e in Hops(q, u, v) ==> SurveyedHop(q, geo, u, v, e)
  }

  /** No usable edge is faster than the heuristic's top speed. */
  ghost predicate SpeedLimited(q: Query) {
    forall u, v, e :: e in Hops(q, u, v) ==> SpeedMs(e) <= MAX_SPEED_MS
  }

  /** Only an explicit limit above 120 km/h makes an edge too fast; no default speed does. */
  lemma TooFastIff(e: EdgeData)
    ensures SpeedMs(e) > MAX_SPEED_MS <==> e.speedLimit.Some? && e.speedLimit.value > 120.0
  {
  }

  /** What rounding to two decimals can cost per edge: a centimetre, or 5.3 milliseconds. */
  function RoundingSlack(mode: RoutingMode): real {
    if mode == Distance then 0.01 else 0.0053
  }

  /** Rounding three terms of a triangle inequality loses at most one hundredth. */
  lemma RoundedTriangle(ac: real, ab: real, bc: real)
    requires ac <= ab + bc
    ensures Round2(ac) <= Round2(ab) + Round2(bc) + 0.01
  {
    var x, y, z := Round2(ac), Round2(ab), Round2(bc);
    HundredthsAdd(x, y);
    HundredthsAdd(x - y, z);
    HundredthsGap(x - y - z, 0.015);
  }

  lemma HundredthsGap(x: real, bound: real)
    requires Hundredths(x) && x <= bound < 0.02
    ensures x <= 0.01
  {
  }

  lemma DurationLowerBound(e: EdgeData, length: real)
    requires length >= 0.0 && SpeedMs(e) <= MAX_SPEED_MS
    ensures length / MAX_SPEED_MS - 0.005 <= Duration(e, length)
  {
    DivideMonotone(length, SpeedMs(e), MAX_SPEED_MS);
  }

  lemma ProductNonNegative(a: real, b: real)
    requires a >= 0.0 && b >= 0.0
    ensures a * b >= 0.0
  {
  }

  lemma FactorNonNegative(a: real, k: real)
    requires a * k >= 0.0 && k > 0.0
    ensures a >= 0.0
  {
  }

  lemma DivideMonotone(x: real, small: real, large: real)
    requires x >= 0.0 && 0.0 < small <= large
    ensures x / large <= x / small
  {
    var a, b := x / large, x / small;
    assert a * large == x && b * small == x;
    ProductNonNegative(b, large - small);
    assert (b - a) * large == b * (large - small);
    FactorNonNegative(b - a, large);
  }

  lemma PenaltyOnlyAdds(q: Query, e: EdgeData)
    requires e.length >= 0.0
    ensures Weight(q, e) >= if q.mode == Distance then e.length else Duration(e, e.length)
  {
    var base := if q.mode == Distance then e.length else Duration(e, e.length);
    if q.policy.maxPenalty > 1.0 {
      ProductNonNegative(base, q.policy.maxPenalty - 1.0);
      assert base * q.policy.maxPenalty == base * (q.policy.maxPenalty - 1.0) + base;
    }
  }

  /** The geodesic heuristic is consistent up to the rounding slack. */
  lemma GeodesicIsNearlyConsistent(q: Query, geo: Geodesic, destination: Point)
    requires TriangleInequality(geo) && Surveyed(q, geo)
    requires q.mode == TravelTime ==> SpeedLimited(q)
    ensures Consistent(NetOf(q), Heuristic(q, geo, destination), RoundingSlack(q.mode))
  {
    var net, h := NetOf(q), Heuristic(q, geo, destination);
    forall u, v, e | net.hop(u, v, e) ensures h(u) <= net.weight(e) + h(v) + RoundingSlack(q.mode) {
      assert e in Hops(q, u, v) && SurveyedHop(q, geo, u, v, e);
      var a, b := q.network.coords[u], q.network.coords[v];
      RoundedTriangle(geo(a, destination), geo(a, b), geo(b, destination));
      PenaltyOnlyAdds(q, e);
      if q.mode == TravelTime {
        DurationLowerBound(e, e.length);
      }
    }
  }

  // ---- The documented "never overestimates" is false --------------------------------

  /** Two hops of 4 mm each: both lengths round to zero, the straight line rounds to a centimetre. */
  function ShortLine(): RoadNetwork {
    var hop := PLAIN_EDGE.(length := 0.0);
    RoadNetwork(map["a" := (0.0, 0.0), "b" := (0.004, 0.0), "c" := (0.008, 0.0)],
                [Arc("a", "b", hop), Arc("b", "c", hop)])
  }

  function LineDistance(): Geodesic {
    (p: Point, r: Point) => if p.0 <= r.0 then r.0 - p.0 else p.0 - r.0
  }

  /** The query on that network with every default. */
  function ShortQuery(): Query {
    Query(ShortLine(), map[], DEFAULT_POLICY, GeneralEmergency, Distance)
  }

  lemma ShortLineHops(u: NodeId, v: NodeId, e: EdgeData)
    ensures e in Hops(ShortQuery(), u, v) <==> ShortHop(u, v) && e == PLAIN_EDGE.(length := 0.0)
  {
    HopsAreEffectiveArcs(ShortQuery(), u, v, e);
    var arcs := ShortLine().arcs;
    assert arcs[0] in arcs && arcs[1] in arcs;
  }

  predicate ShortHop(u: NodeId, v: NodeId) {
    (u == "a" && v == "b") || (u == "b" && v == "c")
  }

  lemma ShortCoordinates()
    ensures ShortLine().coords.Keys == {"a", "b", "c"}
    ensures ShortLine().coords["a"] == (0.0, 0.0)
    ensures ShortLine().coords["b"] == (0.004, 0.0)
    ensures ShortLine().coords["c"] == (0.008, 0.0)
  {
  }

  lemma ShortRoundings()
    ensures Round2(LineDistance()((0.0, 0.0), (0.004, 0.0))) == 0.0
    ensures Round2(LineDistance()((0.004, 0.0), (0.008, 0.0))) == 0.0
    ensures Round2(LineDistance()((0.0, 0.0), (0.008, 0.0))) == 0.01
  {
  }

  lemma ShortHopIsSurveyed(u: NodeId, v: NodeId)
    requires ShortHop(u, v)
    ensures u in ShortLine().coords && v in ShortLine().coords
    ensures Round2(LineDistance()(ShortLine().coords[u], ShortLine().coords[v])) == 0.0
  {
  }

  lemma ShortLineIsSurveyed()
    ensures Surveyed(ShortQuery(), LineDistance())
  {
    hide ShortLine, LineDistance, Round2, Hops;
    forall u, v, e | e in Hops(ShortQuery(), u, v) ensures SurveyedHop(ShortQuery(), LineDistance(), u, v, e) {
      ShortLineHops(u, v, e);
      ShortHopIsSurveyed(u, v);
    }
  }

  lemma LineTriangle()
    ensures TriangleInequality(LineDistance())
  {
  }

  lemma ShortPathIsFree()
    ensures var net, es := NetOf(ShortQuery()), [PLAIN_EDGE.(length := 0.0), PLAIN_EDGE.(length := 0.0)];
            Joins(net, "a", "c", ["a", "b", "c"], es) && Cost(net, es) == 0.0
  {
    var net, hop := NetOf(ShortQuery()), PLAIN_EDGE.(length := 0.0);
    ShortLineHops("a", "b", hop);
    ShortLineHops("b", "c", hop);
    var none: seq<EdgeData> := [];
    CostCons(net, hop, none);
    CostCons(net, hop, [hop]);
    assert [hop] + none == [hop] && [hop] + [hop] == [hop, hop];
    hide Hops;
    assert net.weight(hop) == 0.0;
  }

  /** On a correctly surveyed network the heuristic can exceed the true cost, so it is not admissible. */
  lemma HeuristicCanOverestimate()
    ensures TriangleInequality(LineDistance()) && Surveyed(ShortQuery(), LineDistance())
    ensures exists ns, es ::
              && Joins(NetOf(ShortQuery()), "a", "c", ns, es)
              && Cost(NetOf(ShortQuery()), es) < Heuristic(ShortQuery(), LineDistance(), (0.008, 0.0))("a")
  {
    LineTriangle();
    ShortLineIsSurveyed();
    ShortPathIsFree();
    ShortCoordinates();
    ShortRoundings();
    hide Joins, Cost, ShortLine, LineDistance, Round2, TriangleInequality, Surveyed;
    assert Heuristic(ShortQuery(), LineDistance(), (0.008, 0.0))("a") == 0.01;
  }

  // ---- How much slack is needed, and up to which speed ---------------------------------

  /** The distance heuristic is consistent up to eps on every surveyed network. */
  ghost predicate DistanceSlackSuffices(eps: real) {
    forall q: Query, geo: Geodesic, destination: Point ::
      q.mode == Distance && TriangleInequality(geo) && Surveyed(q, geo) ==>
        Consistent(NetOf(q), Heuristic(q, geo, destination), eps)
  }

  /** One centimetre per edge is exactly what the rounding costs: any less fails on some network. */
  lemma DistanceSlackIsExact(eps: real)
    ensures DistanceSlackSuffices(eps) <==> eps >= 0.01
  {
    if eps >= 0.01 {
      forall q: Query, geo: Geodesic, destination: Point
        | q.mode == Distance && TriangleInequality(geo) && Surveyed(q, geo)
        ensures Consistent(NetOf(q), Heuristic(q, geo, destination), eps)
      {
        GeodesicIsNearlyConsistent(q, geo, destination);
      }
    } else {
      ShortLineNeedsACentimetre(eps);
    }
  }

  lemma ShortLineNeedsACentimetre(eps: real)
    requires eps < 0.01
    ensures !DistanceSlackSuffices(eps)
  {
    var q, geo, hop := ShortQuery(), LineDistance(), PLAIN_EDGE.(length := 0.0);
    LineTriangle();
    ShortLineIsSurveyed();
    ShortLineHops("a", "b", hop);
    ShortCoordinates();
    ShortRoundings();
    hide ShortLine, LineDistance, Round2, TriangleInequality, Surveyed, Hops;
    var h := Heuristic(q, geo, (0.008, 0.0));
    assert h("a") == 0.01 && h("b") == 0.0;
    assert NetOf(q).hop("a", "b", hop) && NetOf(q).weight(hop) == 0.0;
  }

  /** The travel-time heuristic is consistent up to eps on every surveyed network within the speed cap. */
  ghost predicate TravelSlackSuffices(eps: real) {
    forall q: Query, geo: Geodesic, destination: Point ::
      q.mode == TravelTime && TriangleInequality(geo) && Surveyed(q, geo) && SpeedLimited(q) ==>
        Consistent(NetOf(q), Heuristic(q, geo, destination), eps)
  }

  /** 5.3 milliseconds per edge is exactly what the roundings of distance and time cost together. */
  lemma TravelSlackIsExact(eps: real)
    ensures TravelSlackSuffices(eps) <==> eps >= 0.0053
  {
    if eps >= 0.0053 {
      forall q: Query, geo: Geodesic, destination: Point
        | q.mode == TravelTime && TriangleInequality(geo) && Surveyed(q, geo) && SpeedLimited(q)
        ensures Consistent(NetOf(q), Heuristic(q, geo, destination), eps)
      {
        GeodesicIsNearlyConsistent(q, geo, destination);
      }
    } else {
      TightQueryNeedsAllSlack(eps);
    }
  }

  /** One edge at 120 km/h whose length rounds down, whose time rounds down, and past which the line rounds up. */
  function TightQuery(): Query {
    Query(RoadNetwork(map["a" := (0.0, 0.0), "b" := (1.504, 0.0)], [Arc("a", "b", TightEdge())]),
          map[], DEFAULT_POLICY, GeneralEmergency, TravelTime)
  }

  function TightEdge(): EdgeData {
    PLAIN_EDGE.(length := 1.5, speedLimit := Some(120.0))
  }

  lemma TightRoundings()
    ensures Round2(LineDistance()((0.0, 0.0), (1.508, 0.0))) == 1.51
    ensures Round2(LineDistance()((1.504, 0.0), (1.508, 0.0))) == 0.0
    ensures Round2(LineDistance()((0.0, 0.0), (1.504, 0.0))) == 1.5
    ensures Duration(TightEdge(), 1.5) == 0.04 && SpeedMs(TightEdge()) == MAX_SPEED_MS
  {
    assert 150.8.Floor == 150 && 150.4.Floor == 150 && 0.4.Floor == 0 && 4.5.Floor == 4;
    assert 1.5 / (120.0 / 3.6) == 0.045;
  }

  lemma TightHops(u: NodeId, v: NodeId, e: EdgeData)
    ensures e in Hops(TightQuery(), u, v) <==> u == "a" && v == "b" && e == TightEdge()
  {
    HopsAreEffectiveArcs(TightQuery(), u, v, e);
    assert TightQuery().network.arcs[0] in TightQuery().network.arcs;
  }

  lemma TightQueryNeedsAllSlack(eps: real)
    requires eps < 0.0053
    ensures !TravelSlackSuffices(eps)
  {
    var q, geo, e := TightQuery(), LineDistance(), TightEdge();
    LineTriangle();
    TightRoundings();
    TightHops("a", "b", e);
    hide Hops, Round2, LineDistance, SpeedMs, TriangleInequality;
    forall u, v, d | d in Hops(q, u, v) ensures SurveyedHop(q, geo, u, v, d) && SpeedMs(d) <= MAX_SPEED_MS {
      TightHops(u, v, d);
    }
    var h := Heuristic(q, geo, (1.508, 0.0));
    assert h("a") == 1.51 / MAX_SPEED_MS == 0.0453 && h("b") == 0.0;
    assert NetOf(q).hop("a", "b", e) && NetOf(q).weight(e) == 0.04;
  }

  /** With every usable edge at most this fast, the travel-time heuristic is consistent up to its slack. */
  ghost predicate SpeedCapSuffices(cap: real) {
    forall q: Query, geo: Geodesic, destination: Point ::
      q.mode == TravelTime && TriangleInequality(geo) && Surveyed(q, geo)
      && (forall u, v, e :: e in Hops(q, u, v) ==> SpeedMs(e) <= cap) ==>
        Consistent(NetOf(q), Heuristic(q, geo, destination), RoundingSlack(TravelTime))
  }

  /** 120 km/h is exactly the cap: consistency fails on some network that allows anything faster. */
  lemma SpeedCapIsExact(cap: real)
    ensures SpeedCapSuffices(cap) <==> cap <= MAX_SPEED_MS
  {
    if cap <= MAX_SPEED_MS {
      forall q: Query, geo: Geodesic, destination: Point
        | q.mode == TravelTime && TriangleInequality(geo) && Surveyed(q, geo)
          && (forall u, v, e :: e in Hops(q, u, v) ==> SpeedMs(e) <= cap)
        ensures Consistent(NetOf(q), Heuristic(q, geo, destination), RoundingSlack(TravelTime))
      {
        GeodesicIsNearlyConsistent(q, geo, destination);
      }
    } else {
      FastRoadBreaksConsistency(cap);
    }
  }

  /** A straight road of whole metres, long enough that going at `speed` beats the assumed top speed by a second. */
  function FastQuery(metres: nat, speed: real): Query {
    Query(RoadNetwork(map["a" := (0.0, 0.0), "b" := (metres as real, 0.0)], [Arc("a", "b", FastEdge(metres, speed))]),
          map[], DEFAULT_POLICY, GeneralEmergency, TravelTime)
  }

  function FastEdge(metres: nat, speed: real): EdgeData {
    PLAIN_EDGE.(length := metres as real, speedLimit := Some(speed * 3.6))
  }

  lemma FastHops(metres: nat, speed: real, u: NodeId, v: NodeId, e: EdgeData)
    ensures e in Hops(FastQuery(metres, speed), u, v) <==> u == "a" && v == "b" && e == FastEdge(metres, speed)
  {
    HopsAreEffectiveArcs(FastQuery(metres, speed), u, v, e);
    assert FastQuery(metres, speed).network.arcs[0] in FastQuery(metres, speed).network.arcs;
  }

  /** Some whole number of metres takes more than a second longer at the assumed top speed. */
  lemma LongEnough(speed: real) returns (metres: nat)
    requires speed > MAX_SPEED_MS
    ensures metres as real / MAX_SPEED_MS > metres as real / speed + 1.0
  {
    var a, b := 1.0 / MAX_SPEED_MS, 1.0 / speed;
    Reciprocals(speed, MAX_SPEED_MS);
    var m, p;
    metres, m, p := PassesOne(a - b);
    Quotient(m, MAX_SPEED_MS, a);
    Quotient(m, speed, b);
    Spread(m, a, b, p, m / MAX_SPEED_MS, m / speed);
  }

  lemma Spread(m: real, a: real, b: real, p: real, ma: real, mb: real)
    requires p == m * (a - b) && p > 1.0 && ma == m * a && mb == m * b
    ensures ma > mb + 1.0
  {
    calc { ma - mb; m * a - m * b; m * (a - b); p; }
  }

  lemma Quotient(x: real, y: real, r: real)
    requires y > 0.0 && r == 1.0 / y
    ensures x / y == x * r
  {
  }

  lemma Reciprocals(large: real, small: real)
    requires 0.0 < small < large
    ensures 1.0 / large < 1.0 / small
  {
  }

  /** Some whole number of gaps adds up to more than one. */
  lemma PassesOne(gap: real) returns (n: nat, m: real, p: real)
    requires gap > 0.0
    ensures m == n as real && p == m * gap && p > 1.0
  {
    var x := Reciprocal(gap);
    n := Above(x);
    m := n as real;
    p := m * gap;
    ScaleStrictly(m, x, gap, 1.0, p);
  }

  lemma Reciprocal(gap: real) returns (x: real)
    requires gap > 0.0
    ensures x * gap == 1.0 && x > 0.0
  {
    x := 1.0 / gap;
  }

  lemma Above(x: real) returns (n: nat)
    requires x > 0.0
    ensures n as real > x
  {
    n := x.Floor + 1;
  }

  lemma ScaleStrictly(m: real, x: real, gap: real, xg: real, mg: real)
    requires m > x && gap > 0.0 && x * gap == xg && m * gap == mg
    ensures mg > xg
  {
    var d := m - x;
    assert d * gap > 0.0;
    calc { mg; (x + d) * gap; x * gap + d * gap; xg + d * gap; }
  }

  lemma FastRoadBreaksConsistency(speed: real)
    requires speed > MAX_SPEED_MS
    ensures !SpeedCapSuffices(speed)
  {
    var metres := LongEnough(speed);
    var q, geo, e := FastQuery(metres, speed), LineDistance(), FastEdge(metres, speed);
    var destination := (metres as real, 0.0);
    LineTriangle();
    FastHops(metres, speed, "a", "b", e);
    FastRoundings(metres, speed);
    forall u, v, d | d in Hops(q, u, v) ensures SurveyedHop(q, geo, u, v, d) && SpeedMs(d) <= speed {
      FastHops(metres, speed, u, v, d);
    }
    var h := Heuristic(q, geo, destination);
    hide Hops, Round2, LineDistance, SpeedMs, TriangleInequality;
    assert h("a") == metres as real / MAX_SPEED_MS && h("b") == 0.0;
    assert NetOf(q).hop("a", "b", e) && NetOf(q).weight(e) == Duration(e, metres as real);
  }

  lemma FastRoundings(metres: nat, speed: real)
    requires speed > MAX_SPEED_MS
    ensures Round2(LineDistance()((0.0, 0.0), (metres as real, 0.0))) == metres as real
    ensures Round2(LineDistance()((metres as real, 0.0), (metres as real, 0.0))) == 0.0
    ensures SpeedMs(FastEdge(metres, speed)) == speed
    ensures Duration(FastEdge(metres, speed), metres as real) <= metres as real / speed + 0.005
  {
    IntegerIsHundredth(metres as real, 100 * metres);
    Round2Fixed(metres as real);
    IntegerIsHundredth(0.0, 0);
    Round2Fixed(0.0);
  }

  // ---- Beyond the cap the A* bound itself fails ------------------------------------------------

  /**
    Two fast legs of equal length along a straight line, and a direct road that takes half a second more
    than both together. The heuristic thinks the second leg takes at least a second longer than it does.
  */
  function DetourQuery(metres: nat, speed: real): Query {
    Query(RoadNetwork(map["a" := (0.0, 0.0), "m" := (metres as real, 0.0), "z" := (2.0 * metres as real, 0.0)],
                      [Arc("a", "m", FastEdge(metres, speed)), Arc("m", "z", FastEdge(metres, speed)),
                       Arc("a", "z", LongWay(metres, speed))]),
          map[], DEFAULT_POLICY, GeneralEmergency, TravelTime)
  }

  function LongWay(metres: nat, speed: real): EdgeData {
    PLAIN_EDGE.(edgeId := "L", length := 2.0 * metres as real + speed / 2.0, speedLimit := Some(speed * 3.6))
  }

  predicate DetourHop(metres: nat, speed: real, u: NodeId, v: NodeId, e: EdgeData) {
    || (u == "a" && v == "m" && e == FastEdge(metres, speed))
    || (u == "m" && v == "z" && e == FastEdge(metres, speed))
    || (u == "a" && v == "z" && e == LongWay(metres, speed))
  }

  lemma DetourHops(metres: nat, speed: real, u: NodeId, v: NodeId, e: EdgeData)
    ensures NetOf(DetourQuery(metres, speed)).hop(u, v, e) <==> DetourHop(metres, speed, u, v, e)
  {
    var q := DetourQuery(metres, speed);
    HopsAreEffectiveArcs(q, u, v, e);
    NetOfIs(q, u, v);
    var arcs := q.network.arcs;
    assert arcs[0] in arcs && arcs[1] in arcs && arcs[2] in arcs;
    hide Hops, EdgesBetween;
  }

  lemma QuotientIs(x: real, y: real, r: real)
    requires y > 0.0 && r * y == x
    ensures x / y == r
  {
  }

  /** The long way takes half a second more than two legs, before rounding. */
  lemma LongWayTime(metres: real, speed: real)
    requires speed > 0.0
    ensures (2.0 * metres + speed / 2.0) / speed == 2.0 * (metres / speed) + 0.5
  {
    var t := metres / speed;
    QuotientTimes(metres, speed);
    TwiceAndHalf(t, speed, metres);
    QuotientIs(2.0 * metres + speed / 2.0, speed, 2.0 * t + 0.5);
  }

  lemma QuotientTimes(a: real, b: real)
    requires b > 0.0
    ensures (a / b) * b == a
  {
  }

  lemma TwiceAndHalf(t: real, speed: real, metres: real)
    requires t * speed == metres
    ensures (2.0 * t + 0.5) * speed == 2.0 * metres + speed / 2.0
  {
  }

  /** The costs and estimates of the detour network; `t` is one leg's time before rounding. */
  lemma DetourTimes(metres: nat, speed: real)
    requires speed > MAX_SPEED_MS && metres as real / MAX_SPEED_MS > metres as real / speed + 1.0
    ensures var q, t := DetourQuery(metres, speed), metres as real / speed;
            var h := Heuristic(q, LineDistance(), (2.0 * metres as real, 0.0));
            && t - 0.005 <= Weight(q, FastEdge(metres, speed)) <= t + 0.005
            && 2.0 * t + 0.495 <= Weight(q, LongWay(metres, speed)) <= 2.0 * t + 0.505
            && h("z") == 0.0 && h("m") > t + 1.0
    ensures SpeedMs(FastEdge(metres, speed)) == speed == SpeedMs(LongWay(metres, speed))
  {
    LongWayTime(metres as real, speed);
    DetourDistances(metres);
    hide Round2, LineDistance;
  }

  lemma DetourDistances(metres: nat)
    ensures Round2(LineDistance()((0.0, 0.0), (metres as real, 0.0))) == metres as real
    ensures Round2(LineDistance()((metres as real, 0.0), (2.0 * metres as real, 0.0))) == metres as real
    ensures Round2(LineDistance()((0.0, 0.0), (2.0 * metres as real, 0.0))) == 2.0 * metres as real
    ensures Round2(LineDistance()((2.0 * metres as real, 0.0), (2.0 * metres as real, 0.0))) == 0.0
  {
    IntegerIsHundredth(0.0, 0);
    Round2Fixed(0.0);
    IntegerIsHundredth(metres as real, 100 * metres);
    Round2Fixed(metres as real);
    IntegerIsHundredth(2.0 * metres as real, 200 * metres);
    Round2Fixed(2.0 * metres as real);
  }

  lemma DetourIsSurveyed(metres: nat, speed: real)
    requires speed > MAX_SPEED_MS
    ensures Surveyed(DetourQuery(metres, speed), LineDistance())
  {
    var q := DetourQuery(metres, speed);
    DetourDistances(metres);
    hide Round2, LineDistance, Hops;
    forall u, v, e | e in Hops(q, u, v) ensures SurveyedHop(q, LineDistance(), u, v, e) {
      NetOfIs(q, u, v);
      DetourHops(metres, speed, u, v, e);
    }
  }

  /** Getting to the middle takes at least one leg. */
  lemma MiddleTakesALeg(metres: nat, speed: real, c: real)
    requires Within(NetOf(DetourQuery(metres, speed)), "a", "m", c)
    ensures Weight(DetourQuery(metres, speed), FastEdge(metres, speed)) <= c
  {
    var q := DetourQuery(metres, speed);
    var net := NetOf(q);
    forall ns, es | Joins(net, "a", "m", ns, es) ensures Weight(q, FastEdge(metres, speed)) <= Cost(net, es) {
      PathPrefix(net, "a", "m", ns, es);
      DetourHops(metres, speed, ns[|ns| - 2], "m", es[|es| - 1]);
      CostNonNegative(net, es[..|es| - 1]);
      NetOfIs(q, "a", "m");
    }
    hide Joins, Weight, NetOf;
  }

  lemma DetourIsFast(metres: nat, speed: real)
    ensures var q := DetourQuery(metres, speed);
            var es := [FastEdge(metres, speed), FastEdge(metres, speed)];
            && Joins(NetOf(q), "a", "z", ["a", "m", "z"], es)
            && Padded(NetOf(q), es, RoundingSlack(TravelTime)) == 2.0 * Weight(q, FastEdge(metres, speed)) + 0.0106
  {
    var q, e := DetourQuery(metres, speed), FastEdge(metres, speed);
    var net, es := NetOf(q), [e, e];
    DetourHops(metres, speed, "a", "m", e);
    DetourHops(metres, speed, "m", "z", e);
    NetOfIs(q, "a", "m");
    assert es[..1] == [e] && [e][..0] == [];
    hide NetOf, Weight, FastEdge, DetourQuery;
    assert Padded(net, [e], RoundingSlack(TravelTime)) == net.weight(e) + 0.0053;
  }

  /** A path that avoids nodes whose estimate exceeds the direct road is the direct road here, and misses the bound. */
  lemma FocusedPathMissesDetour(metres: nat, speed: real, nodes: seq<NodeId>, edges: seq<EdgeData>)
    requires speed > MAX_SPEED_MS && metres as real / MAX_SPEED_MS > metres as real / speed + 1.0
    requires var q := DetourQuery(metres, speed);
             && Joins(NetOf(q), "a", "z", nodes, edges) && Distinct(nodes)
             && Focused(NetOf(q), Heuristic(q, LineDistance(), (2.0 * metres as real, 0.0)), "a", "z", nodes)
    ensures !NearOptimal(NetOf(DetourQuery(metres, speed)), "a", "z", Cost(NetOf(DetourQuery(metres, speed)), edges),
                         RoundingSlack(TravelTime))
  {
    var q := DetourQuery(metres, speed);
    var net, long := NetOf(q), LongWay(metres, speed);
    DetourTimes(metres, speed);
    DetourHops(metres, speed, "a", nodes[1], edges[0]);
    DetourHops(metres, speed, "a", "z", long);
    NetOfIs(q, "a", "z");
    hide DetourQuery, NetOf, Heuristic, LineDistance, LongWay, FastEdge, Weight, Within;
    if |nodes| > 2 {
      assert nodes[1] == "m" && net.hop("a", "z", long);
      var h := Heuristic(q, LineDistance(), (2.0 * metres as real, 0.0));
      assert Within(net, "a", "m", net.weight(long) + h("z") - h("m"));
      MiddleTakesALeg(metres, speed, net.weight(long) + h("z") - h("m"));
      assert false;
    } else {
      assert edges == [long] && edges[..0] == [];
      DetourIsFast(metres, speed);
    }
  }

  /** Above 120 km/h the path A* returns can miss its bound: for every such speed `LongEnough` gives the leg. */
  method AstarMissesFastDetour(metres: nat, speed: real) returns (nodes: seq<NodeId>, edges: seq<EdgeData>)
    requires speed > MAX_SPEED_MS && metres as real / MAX_SPEED_MS > metres as real / speed + 1.0
    ensures var q := DetourQuery(metres, speed);
            && TriangleInequality(LineDistance()) && Surveyed(q, LineDistance())
            && (forall u, v, e :: e in Hops(q, u, v) ==> SpeedMs(e) <= speed)
            && Joins(NetOf(q), "a", "z", nodes, edges)
            && !NearOptimal(NetOf(q), "a", "z", Cost(NetOf(q), edges), RoundingSlack(TravelTime))
  {
    var q := DetourQuery(metres, speed);
    nodes, edges := SolveAstar(q, LineDistance(), "a", "z", 0.0);
    DetourIsFast(metres, speed);
    LineTriangle();
    DetourIsSurveyed(metres, speed);
    DetourSpeeds(metres, speed);
    FocusedPathMissesDetour(metres, speed, nodes, edges);
    hide NearOptimal, Cost, Surveyed, TriangleInequality, Hops, SpeedMs, NetOf, Focused, LineDistance;
  }

  lemma DetourSpeeds(metres: nat, speed: real)
    requires speed > MAX_SPEED_MS
    ensures forall u, v, e :: e in Hops(DetourQuery(metres, speed), u, v) ==> SpeedMs(e) <= speed
  {
    forall u, v, e | e in Hops(DetourQuery(metres, speed), u, v) ensures SpeedMs(e) <= speed {
      NetOfIs(DetourQuery(metres, speed), u, v);
      DetourHops(metres, speed, u, v, e);
      hide Hops;
    }
  }

  // ---- In distance mode too the answer can be worse than Dijkstra's --------------------------------

  /**
    Five nodes a few millimetres apart on a line, every edge as long as the rounded distance between its
    ends. The three last steps round to nothing, so going through "m" costs a centimetre and the direct
    road two; but the line left at "m" rounds up, and the search never gets there.
  */
  function StepsQuery(): Query {
    Query(RoadNetwork(map["a" := (0.0, 0.0), "m" := (0.006, 0.0), "n" := (0.011, 0.0), "p" := (0.016, 0.0), "z" := (0.021, 0.0)],
                      StepArcs()),
          map[], DEFAULT_POLICY, GeneralEmergency, Distance)
  }

  function StepArcs(): seq<Arc> {
    [Arc("a", "m", StepEdge(0.01)), Arc("m", "n", StepEdge(0.0)), Arc("n", "p", StepEdge(0.0)),
     Arc("p", "z", StepEdge(0.0)), Arc("a", "z", StepEdge(0.02))]
  }

  function StepEdge(length: real): EdgeData {
    PLAIN_EDGE.(length := length)
  }

  predicate StepHop(u: NodeId, v: NodeId, e: EdgeData) {
    || (u == "a" && v == "m" && e == StepEdge(0.01))
    || (u == "m" && v == "n" && e == StepEdge(0.0))
    || (u == "n" && v == "p" && e == StepEdge(0.0))
    || (u == "p" && v == "z" && e == StepEdge(0.0))
    || (u == "a" && v == "z" && e == StepEdge(0.02))
  }

  lemma StepArcsAreHops(a: Arc)
    ensures a in StepArcs() <==> StepHop(a.from, a.to, a.data)
  {
    hide StepEdge;
    var arcs := StepArcs();
    assert arcs[0] in arcs && arcs[1] in arcs && arcs[2] in arcs && arcs[3] in arcs && arcs[4] in arcs;
  }

  lemma StepEdgesAreUsable(length: real)
    ensures Traversable(DEFAULT_POLICY, StepEdge(length), GeneralEmergency)
    ensures Effective(map[], StepEdge(length)) == StepEdge(length)
  {
  }

  lemma StepHops(u: NodeId, v: NodeId, e: EdgeData)
    ensures NetOf(StepsQuery()).hop(u, v, e) <==> StepHop(u, v, e)
  {
    var q := StepsQuery();
    HopsAreEffectiveArcs(q, u, v, e);
    NetOfIs(q, u, v);
    StepEdgesAreUsable(0.0);
    StepEdgesAreUsable(0.01);
    StepEdgesAreUsable(0.02);
    hide Hops, StepArcs, StepEdge, NetOf, Traversable;
    forall a ensures a in StepArcs() <==> StepHop(a.from, a.to, a.data) {
      StepArcsAreHops(a);
    }
    if StepHop(u, v, e) {
      assert Arc(u, v, e) in StepArcs();
    }
  }

  lemma StepWeights(length: real)
    requires length >= 0.0
    ensures NetOf(StepsQuery()).weight(StepEdge(length)) == length
  {
  }

  lemma StepDistances()
    ensures Round2(LineDistance()((0.0, 0.0), (0.006, 0.0))) == 0.01
    ensures Round2(LineDistance()((0.006, 0.0), (0.011, 0.0))) == 0.0
    ensures Round2(LineDistance()((0.011, 0.0), (0.016, 0.0))) == 0.0
    ensures Round2(LineDistance()((0.016, 0.0), (0.021, 0.0))) == 0.0
    ensures Round2(LineDistance()((0.0, 0.0), (0.021, 0.0))) == 0.02
    ensures Round2(LineDistance()((0.006, 0.0), (0.021, 0.0))) == 0.02
    ensures Round2(LineDistance()((0.021, 0.0), (0.021, 0.0))) == 0.0
  {
    assert 0.6.Floor == 0 && 0.5.Floor == 0 && 2.1.Floor == 2 && 1.5.Floor == 1 && 0.0.Floor == 0;
  }

  /** Both ends have coordinates, and the length is exactly the rounded distance, as for every built edge. */
  ghost predicate MeasuredHop(q: Query, geo: Geodesic, u: NodeId, v: NodeId, e: EdgeData) {
    && u in q.network.coords && v in q.network.coords
    && 0.0 <= e.length == Round2(geo(q.network.coords[u], q.network.coords[v]))
  }

  lemma StepsAreMeasured(u: NodeId, v: NodeId, e: EdgeData)
    requires StepHop(u, v, e)
    ensures MeasuredHop(StepsQuery(), LineDistance(), u, v, e)
  {
    StepDistances();
    hide Round2, LineDistance;
  }

  lemma StepEstimates()
    ensures var h := Heuristic(StepsQuery(), LineDistance(), (0.021, 0.0)); h("m") == 0.02 && h("z") == 0.0
  {
    StepDistances();
    hide Round2, LineDistance;
  }

  /** Getting to "m" costs a centimetre. */
  lemma MiddleCostsACentimetre(c: real)
    requires Within(NetOf(StepsQuery()), "a", "m", c)
    ensures 0.01 <= c
  {
    var net := NetOf(StepsQuery());
    forall ns, es | Joins(net, "a", "m", ns, es) ensures 0.01 <= Cost(net, es) {
      PathPrefix(net, "a", "m", ns, es);
      StepHops(ns[|ns| - 2], "m", es[|es| - 1]);
      StepWeights(0.01);
      CostNonNegative(net, es[..|es| - 1]);
    }
    hide Joins, NetOf, Cost;
  }

  lemma StepsCostACentimetre()
    ensures Within(NetOf(StepsQuery()), "a", "z", 0.01)
  {
    var net, first, rest := NetOf(StepsQuery()), StepEdge(0.01), StepEdge(0.0);
    StepHops("a", "m", first);
    StepHops("m", "n", rest);
    StepHops("n", "p", rest);
    StepHops("p", "z", rest);
    StepWeights(0.01);
    StepWeights(0.0);
    hide NetOf, StepEdge, Within;
    WithinHere(net, "z");
    WithinCons(net, "p", "z", "z", rest, 0.0);
    WithinCons(net, "n", "p", "z", rest, 0.0);
    WithinCons(net, "m", "n", "z", rest, 0.0);
    WithinCons(net, "a", "m", "z", first, 0.0);
  }

  /** Any path A* can return here is the direct road, and the steps are cheaper. */
  lemma FocusedPathMissesSteps(nodes: seq<NodeId>, edges: seq<EdgeData>)
    requires var q := StepsQuery();
             && Joins(NetOf(q), "a", "z", nodes, edges) && Distinct(nodes)
             && Focused(NetOf(q), Heuristic(q, LineDistance(), (0.021, 0.0)), "a", "z", nodes)
    ensures Cost(NetOf(StepsQuery()), edges) == 0.02
    ensures !NoCheaper(NetOf(StepsQuery()), "a", "z", Cost(NetOf(StepsQuery()), edges))
  {
    hide StepsQuery, NetOf, Heuristic, LineDistance, StepEdge, Within;
    var q := StepsQuery();
    var net, direct := NetOf(q), StepEdge(0.02);
    StepEstimates();
    StepHops("a", nodes[1], edges[0]);
    StepHops("a", "z", direct);
    StepWeights(0.02);
    if |nodes| > 2 {
      assert nodes[1] == "m" && net.hop("a", "z", direct);
      var h := Heuristic(q, LineDistance(), (0.021, 0.0));
      assert Within(net, "a", "m", net.weight(direct) + h("z") - h("m"));
      MiddleCostsACentimetre(net.weight(direct) + h("z") - h("m"));
      assert false;
    } else {
      assert edges == [direct] && edges[..0] == [];
      StepsCostACentimetre();
      if NoCheaper(net, "a", "z", Cost(net, edges)) {
        NoCheaperThanWithin(net, "a", "z", 0.01, Cost(net, edges));
      }
    }
  }

  /** In distance mode, on a network measured as built ones are, A* returns a path twice as costly as Dijkstra's. */
  method AstarMissesShortSteps() returns (nodes: seq<NodeId>, edges: seq<EdgeData>, best: seq<EdgeData>)
    ensures TriangleInequality(LineDistance())
    ensures forall u, v, e :: e in Hops(StepsQuery(), u, v) ==> MeasuredHop(StepsQuery(), LineDistance(), u, v, e)
    ensures var net := NetOf(StepsQuery());
            && Joins(net, "a", "z", nodes, edges) && Cost(net, edges) == 0.02
            && (exists other :: Joins(net, "a", "z", other, best)) && Cost(net, best) <= 0.01
  {
    hide Cost, TriangleInequality, NetOf, Focused, LineDistance, StepEdge, Within, NoCheaper, Heuristic, Reachable;
    var q := StepsQuery();
    nodes, edges := SolveAstar(q, LineDistance(), "a", "z", 0.0);
    var other;
    other, best := SolveDijkstra(q, "a", "z");
    LineTriangle();
    StepsAreAllMeasured();
    StepsCostACentimetre();
    WithinIsReachable(NetOf(q), "a", "z", 0.01);
    FocusedPathMissesSteps(nodes, edges);
    NoCheaperThanWithin(NetOf(q), "a", "z", 0.01, Cost(NetOf(q), best));
  }

  lemma StepsAreAllMeasured()
    ensures forall u, v, e :: e in Hops(StepsQuery(), u, v) ==> MeasuredHop(StepsQuery(), LineDistance(), u, v, e)
  {
    hide Hops, MeasuredHop, NetOf, StepHop;
    forall u, v, e | e in Hops(StepsQuery(), u, v) ensures MeasuredHop(StepsQuery(), LineDistance(), u, v, e) {
      NetOfIs(StepsQuery(), u, v);
      StepHops(u, v, e);
      StepsAreMeasured(u, v, e);
    }
  }
}
