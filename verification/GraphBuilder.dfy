/** Building the routable multigraph and its serialised definition from map ways. */
module GraphBuilder {
  import opened Basics
  import opened Overlay
  import opened RoadGraph
  import opened Policy
  import opened Queries
  import opened Solvers
  import opened Router
  import opened Paths
  import opened Rerouting

  /** `oneway` tag values, grouped as the parser groups them. */
  datatype OnewayTag = OnewayYes | OnewayNo | OnewayReverse | OnewayOther

  datatype Direction = ForwardOnly | BackwardOnly | Bidirectional

  datatype Way = Way(
    id: int, nodes: seq<int>, oneway: OnewayTag, roundabout: bool, roadType: RoadType,
    speedLimit: Option<real>, accessibility: Accessibility, isBridge: bool)

  /** Roundabouts and motorways are one-way by default; a motorway yields only to an explicit "no". */
  function ParseOneway(w: Way): Direction {
    if w.roundabout then ForwardOnly
    else if w.roadType == Motorway && w.oneway != OnewayNo then ForwardOnly
    else if w.oneway == OnewayYes then ForwardOnly
    else if w.oneway == OnewayReverse then BackwardOnly
    else Bidirectional
  }

  /** A reversed one-way tag is honoured except on roundabouts and motorways, which it leaves forward. */
  lemma ReverseTagHonouredIff(w: Way)
    requires w.oneway == OnewayReverse
    ensures ParseOneway(w) == BackwardOnly <==> !w.roundabout && w.roadType != Motorway
    ensures ParseOneway(w) != BackwardOnly ==> ParseOneway(w) == ForwardOnly
  {
  }

  // ---- Names ----------------------------------------------------------------------------

  function NodeName(n: int): NodeId {
    "NODE-" + IntToString(n)
  }

  function EdgeName(way: int, from: int, to: int): EdgeId {
    "EDGE-" + IntToString(way) + "-" + NodeName(from) + "-" + NodeName(to)
  }

  function RoadName(way: int): RoadId {
    "OSM-ROAD-" + IntToString(way)
  }

  function BridgeName(way: int): BridgeId {
    "BRIDGE-" + IntToString(way)
  }

  predicate IsNumeral(s: string) {
    forall c :: c in s ==> c == '-' || c in DIGITS
  }

  lemma {:induction false} NatToStringIsNumeral(n: nat)
    ensures forall c :: c in NatToString(n) ==> c in DIGITS
  {
    if n >= 10 {
      NatToStringIsNumeral(n / 10);
    }
  }

  lemma IntToStringIsNumeral(n: int)
    ensures IsNumeral(IntToString(n))
  {
    NatToStringIsNumeral(if n < 0 then -n else n);
  }

  lemma DigitsDiffer(a: nat, b: nat)
    requires a < 10 && b < 10 && DIGITS[a] == DIGITS[b]
    ensures a == b
  {
  }

  lemma {:induction false} NatToStringInjective(a: nat, b: nat)
    requires NatToString(a) == NatToString(b)
    ensures a == b
  {
    if a < 10 && b < 10 {
      DigitsDiffer(a, b);
    } else if a >= 10 && b >= 10 {
      var sa, sb := NatToString(a), NatToString(b);
      assert sa[|sa| - 1] == DIGITS[a % 10] && sb[|sb| - 1] == DIGITS[b % 10];
      DigitsDiffer(a % 10, b % 10);
      assert sa[..|sa| - 1] == NatToString(a / 10) && sb[..|sb| - 1] == NatToString(b / 10);
      NatToStringInjective(a / 10, b / 10);
    }
  }

  lemma StartsWithDigit(n: nat)
    ensures NatToString(n)[0] != '-'
  {
  }

  lemma IntToStringInjective(a: int, b: int)
    requires IntToString(a) == IntToString(b)
    ensures a == b
  {
    StartsWithDigit(if a < 0 then -a else a);
    StartsWithDigit(if b < 0 then -b else b);
    hide NatToString;
    if a < 0 && b < 0 {
      assert IntToString(a)[1..] == NatToString(-a) && IntToString(b)[1..] == NatToString(-b);
      NatToStringInjective(-a, -b);
    } else if a >= 0 && b >= 0 {
      NatToStringInjective(a, b);
    }
  }

  /** A numeral before "-NODE-" is recovered from the whole. */
  lemma SplitAtNode(a: string, x: string, b: string, y: string)
    requires IsNumeral(a) && IsNumeral(b)
    requires a + "-NODE-" + x == b + "-NODE-" + y
    ensures a == b && x == y
  {
    var s, t := a + "-NODE-" + x, b + "-NODE-" + y;
    assert s[|a| + 1] == 'N' && t[|b| + 1] == 'N';
    if |a| < |b| {
      NoNodeInside(b, y, |a| + 1);
    } else if |b| < |a| {
      NoNodeInside(a, x, |b| + 1);
    }
    assert a == s[..|a|] && b == t[..|b|];
    assert x == s[|a| + 6..] && y == t[|b| + 6..];
  }

  lemma NoNodeInside(a: string, x: string, i: nat)
    requires IsNumeral(a) && i <= |a|
    ensures (a + "-NODE-" + x)[i] != 'N'
  {
    var s := a + "-NODE-" + x;
    if i < |a| {
      assert s[i] == a[i] && a[i] in a;
    } else {
      assert s[i] == '-';
    }
  }

  lemma NodeNameInjective(a: int, b: int)
    requires NodeName(a) == NodeName(b)
    ensures a == b
  {
    assert NodeName(a)[5..] == IntToString(a) && NodeName(b)[5..] == IntToString(b);
    IntToStringInjective(a, b);
  }

  /** An edge id determines its way and its two ends. */
  lemma EdgeNameInjective(w: int, u: int, v: int, w': int, u': int, v': int)
    requires EdgeName(w, u, v) == EdgeName(w', u', v')
    ensures w == w' && u == u' && v == v'
  {
    var x, x' := IntToString(u) + "-NODE-" + IntToString(v), IntToString(u') + "-NODE-" + IntToString(v');
    EdgeNameTail(w, u, v);
    EdgeNameTail(w', u', v');
    IntToStringIsNumeral(w);
    IntToStringIsNumeral(w');
    SplitAtNode(IntToString(w), x, IntToString(w'), x');
    IntToStringIsNumeral(u);
    IntToStringIsNumeral(u');
    SplitAtNode(IntToString(u), IntToString(v), IntToString(u'), IntToString(v'));
    IntToStringInjective(w, w');
    IntToStringInjective(u, u');
    IntToStringInjective(v, v');
  }

  lemma EdgeNameTail(w: int, u: int, v: int)
    ensures EdgeName(w, u, v)[5..] == IntToString(w) + "-NODE-" + (IntToString(u) + "-NODE-" + IntToString(v))
  {
    assert "-" + "NODE-" == "-NODE-";
    assert EdgeName(w, u, v) == "EDGE-" + (IntToString(w) + "-NODE-" + (IntToString(u) + "-NODE-" + IntToString(v)));
  }

  lemma {:induction false} NumeralsHaveNoBridge(s: string)
    requires IsNumeral(s)
    ensures BridgeIdAsRoadId(s) == s
  {
    if s != "" {
      assert s[0] in s && s[0] != 'B';
      NumeralsHaveNoBridge(s[1..]);
    }
  }

  /** The overlay's naming fallback sends a built bridge to exactly its own road, indexed or not. */
  lemma BridgeFallbackFindsRoad(way: int)
    ensures BridgeIdAsRoadId(BridgeName(way)) == RoadName(way)
  {
    IntToStringIsNumeral(way);
    NumeralsHaveNoBridge(IntToString(way));
    assert BridgeName(way)[7..] == IntToString(way);
  }

  // ---- The edges of a way -----------------------------------------------------------------

  type NodeMap = map<int, Point>

  /** Both ends of segment i are known. */
  predicate KnownSegment(w: Way, known: NodeMap, i: int) {
    0 <= i < |w.nodes| - 1 && w.nodes[i] in known && w.nodes[i + 1] in known
  }

  /** One directed edge of way w; its length is measured along the way's own direction. */
  function EdgeFor(w: Way, from: int, to: int, geometry: seq<Point>, length: real): Arc {
    Arc(NodeName(from), NodeName(to),
        EdgeData(EdgeName(w.id, from, to), RoadName(w.id), if w.isBridge then Some(BridgeName(w.id)) else None,
                 length, w.roadType, w.speedLimit, Open, w.accessibility, OtherAccess, OtherEmergency, geometry))
  }

  function SegmentArcs(w: Way, known: NodeMap, geo: Geodesic, i: int): seq<Arc> {
    if !KnownSegment(w, known, i) then []
    else
      var u, v := w.nodes[i], w.nodes[i + 1];
      var length := Round2(geo(known[u], known[v]));
      var there, back := EdgeFor(w, u, v, [known[u], known[v]], length), EdgeFor(w, v, u, [known[v], known[u]], length);
      match ParseOneway(w)
      case ForwardOnly => [there]
      case BackwardOnly => [back]
      case Bidirectional => [there, back]
  }

  function WayArcs(w: Way, known: NodeMap, geo: Geodesic, n: nat): seq<Arc> {
    if n == 0 then [] else WayArcs(w, known, geo, n - 1) + SegmentArcs(w, known, geo, n - 1)
  }

  function SegmentCount(w: Way): nat {
    if |w.nodes| == 0 then 0 else |w.nodes| - 1
  }

  function AllArcs(ways: seq<Way>, known: NodeMap, geo: Geodesic): seq<Arc> {
    if ways == [] then []
    else
      AllArcs(ways[..|ways| - 1], known, geo)
      + WayArcs(ways[|ways| - 1], known, geo, SegmentCount(ways[|ways| - 1]))
  }

  /** Segment i of w runs from u to v, or from v to u, and the way's direction emits it as the edge u to v. */
  predicate Emits(w: Way, known: NodeMap, i: int, u: int, v: int) {
    && KnownSegment(w, known, i)
    && ((ParseOneway(w) != BackwardOnly && w.nodes[i] == u && w.nodes[i + 1] == v)
        || (ParseOneway(w) != ForwardOnly && w.nodes[i] == v && w.nodes[i + 1] == u))
  }

  /** An arc that some segment among the first n of w emits, with everything an edge carries. */
  ghost predicate EmittedBy(a: Arc, w: Way, known: NodeMap, geo: Geodesic, i: int, u: int, v: int) {
    && Emits(w, known, i, u, v)
    && a == EdgeFor(w, u, v, [known[u], known[v]], Round2(geo(known[w.nodes[i]], known[w.nodes[i + 1]])))
  }

  lemma SegmentArcsAreEmitted(w: Way, known: NodeMap, geo: Geodesic, i: int, a: Arc)
    ensures a in SegmentArcs(w, known, geo, i) <==> exists u, v :: EmittedBy(a, w, known, geo, i, u, v)
  {
    if KnownSegment(w, known, i) {
      var u, v := w.nodes[i], w.nodes[i + 1];
      var length := Round2(geo(known[u], known[v]));
      hide Round2, EdgeName, NodeName, RoadName, BridgeName;
      if a in SegmentArcs(w, known, geo, i) {
        assert EmittedBy(a, w, known, geo, i, u, v) || EmittedBy(a, w, known, geo, i, v, u);
      }
    }
  }

  /** A way emits exactly its known segments, each in the directions it allows. */
  lemma {:induction false} WayArcsAreEmitted(w: Way, known: NodeMap, geo: Geodesic, n: nat, a: Arc)
    ensures a in WayArcs(w, known, geo, n) <==>
            exists i, u, v :: 0 <= i < n && EmittedBy(a, w, known, geo, i, u, v)
  {
    hide EmittedBy, SegmentArcs;
    if n > 0 {
      WayArcsAreEmitted(w, known, geo, n - 1, a);
      SegmentArcsAreEmitted(w, known, geo, n - 1, a);
      assert a in WayArcs(w, known, geo, n) <==> a in WayArcs(w, known, geo, n - 1) || a in SegmentArcs(w, known, geo, n - 1);
      hide WayArcs;
    }
  }

  lemma {:induction false} AllArcsAreEmitted(ways: seq<Way>, known: NodeMap, geo: Geodesic, a: Arc)
    ensures a in AllArcs(ways, known, geo) <==>
            exists w, i, u, v :: w in ways && EmittedBy(a, w, known, geo, i, u, v)
  {
    if ways != [] {
      var init, w := ways[..|ways| - 1], ways[|ways| - 1];
      assert AllArcs(ways, known, geo) == AllArcs(init, known, geo) + WayArcs(w, known, geo, SegmentCount(w));
      AllArcsAreEmitted(init, known, geo, a);
      WayArcsAreEmitted(w, known, geo, SegmentCount(w), a);
      forall i, u, v | EmittedBy(a, w, known, geo, i, u, v) ensures 0 <= i < SegmentCount(w) {
      }
      hide *;
      assert forall x :: x in ways <==> x in init || x == w by {
        assert ways == init + [w];
      }
      if a in AllArcs(init, known, geo) {
        var x, i, u, v :| x in init && EmittedBy(a, x, known, geo, i, u, v);
        assert x in ways;
      } else if x, i, u, v :| x in ways && EmittedBy(a, x, known, geo, i, u, v) {
        assert x == w;
      }
    }
  }

  /** Tags that let traffic run along the way's own direction: all but a reversed one-way tag on an ordinary road. */
  predicate RunsForward(w: Way) {
    w.roundabout || w.roadType == Motorway || w.oneway != OnewayReverse
  }

  /** Tags that let it run against it: a reversed tag, or none and an explicit "no" on motorways. */
  predicate RunsBackward(w: Way) {
    !w.roundabout && (w.oneway == OnewayNo || (w.roadType != Motorway && w.oneway != OnewayYes))
  }

  /** Everything an edge of way w from u to v carries. */
  predicate IsEdgeOf(a: Arc, w: Way, known: NodeMap, u: int, v: int)
    requires u in known && v in known
  {
    && a.from == "NODE-" + IntToString(u) && a.to == "NODE-" + IntToString(v)
    && a.data.edgeId == "EDGE-" + IntToString(w.id) + "-" + a.from + "-" + a.to
    && a.data.roadId == "OSM-ROAD-" + IntToString(w.id)
    && a.data.bridgeId == (if w.isBridge then Some("BRIDGE-" + IntToString(w.id)) else None)
    && a.data.geometry == [known[u], known[v]]
    && a.data.roadType == w.roadType && a.data.speedLimit == w.speedLimit && a.data.accessibility == w.accessibility
    && a.data.status == Open && a.data.access == OtherAccess && a.data.emergency == OtherEmergency
  }

  /** Between consecutive known nodes a way emits exactly the directions its tags let run, with the rounded length. */
  lemma EmissionMeans(a: Arc, w: Way, known: NodeMap, geo: Geodesic, i: int, u: int, v: int)
    ensures EmittedBy(a, w, known, geo, i, u, v) <==>
      && 0 <= i && i + 1 < |w.nodes| && u in known && v in known && w.nodes[i] in known && w.nodes[i + 1] in known
      && ((RunsForward(w) && u == w.nodes[i] && v == w.nodes[i + 1]) || (RunsBackward(w) && u == w.nodes[i + 1] && v == w.nodes[i]))
      && IsEdgeOf(a, w, known, u, v) && a.data.length == Round2(geo(known[w.nodes[i]], known[w.nodes[i + 1]]))
  {
    assert "-" + "NODE-" == "-NODE-";
    hide IntToString, Round2;
  }

  /** The reversed edge: swapped ends and swapped geometry, same road and length. */
  ghost predicate Reverses(a: Arc, b: Arc) {
    && a.from == b.to && a.to == b.from && a.data.roadId == b.data.roadId && a.data.length == b.data.length
    && |a.data.geometry| == 2 && b.data.geometry == [a.data.geometry[1], a.data.geometry[0]]
  }

  /** A bidirectional way's edges are closed under reversal; a one-way way emits only along its own direction. */
  lemma DirectionsAreRespected(ways: seq<Way>, known: NodeMap, geo: Geodesic, w: Way, i: int, u: int, v: int, a: Arc)
    requires w in ways && EmittedBy(a, w, known, geo, i, u, v)
    ensures ParseOneway(w) == Bidirectional ==> exists b :: b in AllArcs(ways, known, geo) && Reverses(a, b)
    ensures ParseOneway(w) == ForwardOnly ==> u == w.nodes[i] && v == w.nodes[i + 1]
    ensures ParseOneway(w) == BackwardOnly ==> u == w.nodes[i + 1] && v == w.nodes[i]
  {
    if ParseOneway(w) == Bidirectional {
      var b := EdgeFor(w, v, u, [known[v], known[u]], a.data.length);
      assert EmittedBy(b, w, known, geo, i, v, u);
      AllArcsAreEmitted(ways, known, geo, b);
      hide EdgeName, NodeName, RoadName, AllArcs;
    }
  }

  ghost predicate DistinctWays(ways: seq<Way>) {
    forall w, x :: w in ways && x in ways && w.id == x.id ==> w == x
  }

  ghost predicate Symmetric(geo: Geodesic) {
    forall p, q :: geo(p, q) == geo(q, p)
  }

  /** Even when a way revisits a node pair, an edge id names one edge: same ends, same attributes. */
  lemma SameIdSameArc(ways: seq<Way>, known: NodeMap, geo: Geodesic, a: Arc, b: Arc)
    requires DistinctWays(ways) && Symmetric(geo)
    requires a in AllArcs(ways, known, geo) && b in AllArcs(ways, known, geo) && a.data.edgeId == b.data.edgeId
    ensures a == b
  {
    AllArcsAreEmitted(ways, known, geo, a);
    AllArcsAreEmitted(ways, known, geo, b);
    hide AllArcs, EdgeName, NodeName, RoadName, BridgeName, Round2;
    var w, i, u, v :| w in ways && EmittedBy(a, w, known, geo, i, u, v);
    var x, j, u', v' :| x in ways && EmittedBy(b, x, known, geo, j, u', v');
    EdgeNameInjective(w.id, u, v, x.id, u', v');
  }

  // ---- The multigraph ---------------------------------------------------------------------

  /** An edge is keyed by its ends and an id: two pairs of nodes may each have an edge under one id. */
  type Key = (NodeId, NodeId, EdgeId)

  /** Keyed edge attributes in insertion order; adding an existing key replaces its attributes. */
  datatype Multigraph = Multigraph(order: seq<Key>, edges: map<Key, EdgeData>)

  function KeyOf(a: Arc): Key {
    (a.from, a.to, a.data.edgeId)
  }

  function ArcAt(g: Multigraph, k: Key): Arc
    requires k in g.edges
  {
    Arc(k.0, k.1, g.edges[k])
  }

  ghost predicate Ordered(g: Multigraph) {
    forall k :: k in g.order <==> k in g.edges
  }

  function AddEdge(g: Multigraph, a: Arc): Multigraph {
    Multigraph(if KeyOf(a) in g.edges then g.order else g.order + [KeyOf(a)], g.edges[KeyOf(a) := a.data])
  }

  function AddAll(arcs: seq<Arc>): (g: Multigraph)
    ensures Ordered(g)
  {
    if arcs == [] then Multigraph([], map[]) else AddEdge(AddAll(arcs[..|arcs| - 1]), arcs[|arcs| - 1])
  }

  /** The graph holds emitted edges only, one under each emitted key. */
  lemma {:induction false} AddAllIsOk(arcs: seq<Arc>)
    ensures forall i, j :: 0 <= i < j < |AddAll(arcs).order| ==> AddAll(arcs).order[i] != AddAll(arcs).order[j]
    ensures forall k :: k in AddAll(arcs).edges ==> ArcAt(AddAll(arcs), k) in arcs && AddAll(arcs).edges[k].edgeId == k.2
    ensures forall a :: a in arcs ==> KeyOf(a) in AddAll(arcs).edges
  {
    if arcs != [] {
      var init, last := arcs[..|arcs| - 1], arcs[|arcs| - 1];
      AddAllIsOk(init);
      assert arcs == init + [last];
      var before, after := AddAll(init), AddAll(arcs);
      forall k | k in after.edges ensures ArcAt(after, k) in arcs && after.edges[k].edgeId == k.2 {
        if k != KeyOf(last) {
          assert ArcAt(before, k) in init;
        }
      }
    }
  }

  function EdgesOf(arcs: seq<Arc>): (es: seq<EdgeData>)
    ensures |es| == |arcs| && forall i :: 0 <= i < |arcs| ==> es[i] == arcs[i].data
  {
    if arcs == [] then [] else EdgesOf(arcs[..|arcs| - 1]) + [arcs[|arcs| - 1].data]
  }

  /** Edges that share an id share their ends. */
  ghost predicate IdsDetermineKeys(arcs: seq<Arc>) {
    forall a, b :: a in arcs && b in arcs && a.data.edgeId == b.data.edgeId ==> KeyOf(a) == KeyOf(b)
  }

  /** Built ids name both ends, whatever the ways: this is what the id format buys. */
  lemma BuiltIdsDetermineKeys(ways: seq<Way>, known: NodeMap, geo: Geodesic)
    ensures IdsDetermineKeys(AllArcs(ways, known, geo))
  {
    var arcs := AllArcs(ways, known, geo);
    hide AllArcs, EdgeName, NodeName, RoadName, BridgeName, Round2;
    forall a, b | a in arcs && b in arcs && a.data.edgeId == b.data.edgeId ensures KeyOf(a) == KeyOf(b) {
      AllArcsAreEmitted(ways, known, geo, a);
      AllArcsAreEmitted(ways, known, geo, b);
      var w, i, u, v :| w in ways && EmittedBy(a, w, known, geo, i, u, v);
      var x, j, u', v' :| x in ways && EmittedBy(b, x, known, geo, j, u', v');
      EdgeNameInjective(w.id, u, v, x.id, u', v');
    }
  }

  /** The definition's edges by id and the multigraph's edges by key are the same edges under corresponding names. */
  ghost predicate SameEdges(byId: map<EdgeId, EdgeData>, g: Multigraph) {
    && (forall k :: k in g.edges ==> k.2 in byId && byId[k.2] == g.edges[k])
    && (forall id :: id in byId ==> exists k :: k in g.edges && k.2 == id)
    && (forall k, l :: k in g.edges && l in g.edges && k.2 == l.2 ==> k == l)
  }

  lemma {:induction false} KeyedAlike(arcs: seq<Arc>)
    requires IdsDetermineKeys(arcs)
    ensures SameEdges(IndexDefinition(EMPTY_INDEX, EdgesOf(arcs)).byId, AddAll(arcs))
  {
    if arcs != [] {
      var init, last := arcs[..|arcs| - 1], arcs[|arcs| - 1];
      assert arcs == init + [last];
      KeyedAlike(init);
      assert EdgesOf(arcs)[..|arcs| - 1] == EdgesOf(init);
      AddAllIsOk(init);
      var before := AddAll(init);
      forall k | k in before.edges && k.2 == last.data.edgeId ensures k == KeyOf(last) {
        assert ArcAt(before, k) in arcs && last in arcs;
      }
      AddedAlike(IndexDefinition(EMPTY_INDEX, EdgesOf(init)).byId, before, last);
    }
  }

  lemma AddedAlike(byId: map<EdgeId, EdgeData>, g: Multigraph, a: Arc)
    requires SameEdges(byId, g) && forall k :: k in g.edges && k.2 == a.data.edgeId ==> k == KeyOf(a)
    ensures SameEdges(byId[a.data.edgeId := a.data], AddEdge(g, a))
  {
    var byId', g' := byId[a.data.edgeId := a.data], AddEdge(g, a);
    assert g'.edges == g.edges[KeyOf(a) := a.data];
    hide AddEdge;
    forall id | id in byId' ensures exists k :: k in g'.edges && k.2 == id {
      if id == a.data.edgeId {
        assert KeyOf(a) in g'.edges && KeyOf(a).2 == id;
      } else {
        var k :| k in g.edges && k.2 == id;
        assert k in g'.edges;
      }
    }
  }

  /** The serialised definition, keyed by edge id, and the multigraph, keyed by ends and id, are the same edges. */
  lemma DefinitionAgreesWithGraph(ways: seq<Way>, known: NodeMap, geo: Geodesic)
    ensures var definition := AllArcs(ways, known, geo);
            SameEdges(IndexDefinition(EMPTY_INDEX, EdgesOf(definition)).byId, AddAll(definition))
  {
    BuiltIdsDetermineKeys(ways, known, geo);
    KeyedAlike(AllArcs(ways, known, geo));
    hide AllArcs, SameEdges, IdsDetermineKeys;
  }

  /** Without that format the two differ: one id on two pairs of nodes is one edge by id and two by key. */
  lemma SharedIdsWouldSplit()
    ensures var arcs := [Arc("a", "b", PLAIN_EDGE), Arc("c", "d", PLAIN_EDGE)];
            && !IdsDetermineKeys(arcs) && !SameEdges(IndexDefinition(EMPTY_INDEX, EdgesOf(arcs)).byId, AddAll(arcs))
            && |AddAll(arcs).order| == 2 && !DistinctIds(NetworkOf(AddAll(arcs), map[]).arcs)
  {
    var a, b := Arc("a", "b", PLAIN_EDGE), Arc("c", "d", PLAIN_EDGE);
    var arcs := [a, b];
    assert arcs[..1] == [a] && [a][..0] == [] && arcs[0] in arcs && arcs[1] in arcs;
    var empty := Multigraph([], map[]);
    assert AddAll([a]) == AddEdge(empty, a);
    var g := AddAll(arcs);
    assert g == AddEdge(AddEdge(empty, a), b);
    assert KeyOf(a) in g.edges && KeyOf(b) in g.edges && g.order == [KeyOf(a), KeyOf(b)];
    var net := NetworkOf(g, map[]).arcs;
    assert net[0].data.edgeId == net[1].data.edgeId;
  }

  function ArcsInOrder(g: Multigraph, keys: seq<Key>): (arcs: seq<Arc>)
    requires forall k :: k in keys ==> k in g.edges
    ensures |arcs| == |keys| && forall i :: 0 <= i < |keys| ==> arcs[i] == ArcAt(g, keys[i])
  {
    if keys == [] then [] else [ArcAt(g, keys[0])] + ArcsInOrder(g, keys[1..])
  }

  /** The network a router sees for this graph. */
  function NetworkOf(g: Multigraph, coords: map<NodeId, Point>): RoadNetwork
    requires Ordered(g)
  {
    RoadNetwork(coords, ArcsInOrder(g, g.order))
  }

  // ---- Nodes --------------------------------------------------------------------------------

  /** Every edge end is a registered node, at the coordinates of the map node it is named after. */
  ghost predicate Registered(coords: map<NodeId, Point>, known: NodeMap, arcs: seq<Arc>) {
    && (forall a :: a in arcs ==> a.from in coords && a.to in coords)
    && (forall n :: n in known && NodeName(n) in coords ==> coords[NodeName(n)] == known[n])
    && (forall id :: id in coords ==> exists n :: n in known && id == NodeName(n))
  }

  /** Every registered node is an end of some edge. */
  ghost predicate NoStrayNodes(coords: map<NodeId, Point>, arcs: seq<Arc>) {
    forall id :: id in coords ==> exists a :: a in arcs && (a.from == id || a.to == id)
  }

  function Place(coords: map<NodeId, Point>, known: NodeMap, n: int): map<NodeId, Point>
    requires n in known
  {
    if NodeName(n) in coords then coords else coords[NodeName(n) := known[n]]
  }

  lemma PlaceKeepsRegistered(coords: map<NodeId, Point>, known: NodeMap, n: int, arcs: seq<Arc>)
    requires n in known && Registered(coords, known, arcs)
    ensures Registered(Place(coords, known, n), known, arcs)
    ensures NodeName(n) in Place(coords, known, n)
  {
    hide NodeName;
    var after := Place(coords, known, n);
    forall m | m in known && NodeName(m) in after ensures after[NodeName(m)] == known[m] {
      if NodeName(m) == NodeName(n) {
        NodeNameInjective(m, n);
      }
    }
  }

  /** The definition's node list, in insertion order, and the multigraph's nodes. */
  datatype Nodes = Nodes(listed: seq<(NodeId, Point)>, inGraph: map<NodeId, Point>)

  predicate Lists(listed: seq<(NodeId, Point)>, id: NodeId) {
    exists k :: 0 <= k < |listed| && listed[k].0 == id
  }

  /** The list and the graph hold the same nodes at the same coordinates, each listed once. */
  ghost predicate SameNodes(nodes: Nodes) {
    && (forall id :: id in nodes.inGraph <==> Lists(nodes.listed, id))
    && (forall k :: 0 <= k < |nodes.listed| ==>
          nodes.listed[k].0 in nodes.inGraph && nodes.inGraph[nodes.listed[k].0] == nodes.listed[k].1)
    && (forall j, k :: 0 <= j < k < |nodes.listed| ==> nodes.listed[j].0 != nodes.listed[k].0)
  }

  /** A node not yet listed goes into both. */
  function AddNode(nodes: Nodes, known: NodeMap, n: int): Nodes
    requires n in known
  {
    if Lists(nodes.listed, NodeName(n)) then nodes
    else Nodes(nodes.listed + [(NodeName(n), known[n])], nodes.inGraph[NodeName(n) := known[n]])
  }

  lemma AddNodeKeepsSame(nodes: Nodes, known: NodeMap, n: int)
    requires n in known && SameNodes(nodes)
    ensures SameNodes(AddNode(nodes, known, n))
    ensures AddNode(nodes, known, n).inGraph == Place(nodes.inGraph, known, n)
  {
    hide NodeName;
    var after := AddNode(nodes, known, n);
    if !Lists(nodes.listed, NodeName(n)) {
      forall id ensures Lists(after.listed, id) <==> Lists(nodes.listed, id) || id == NodeName(n) {
        if Lists(nodes.listed, id) {
          var k :| 0 <= k < |nodes.listed| && nodes.listed[k].0 == id;
          assert after.listed[k].0 == id;
        }
        assert after.listed[|nodes.listed|].0 == NodeName(n);
      }
      forall k | 0 <= k < |nodes.listed| ensures nodes.listed[k].0 != NodeName(n) {
      }
    }
  }

  // ---- The builder ----------------------------------------------------------------------------

  function InsertWay(sorted: seq<Way>, w: Way): (r: seq<Way>)
    ensures |r| == |sorted| + 1
    ensures forall x :: x in r <==> x in sorted || x == w
  {
    if sorted == [] || w.id <= sorted[0].id then [w] + sorted else [sorted[0]] + InsertWay(sorted[1..], w)
  }

  function SortWays(ways: seq<Way>): (r: seq<Way>)
    ensures |r| == |ways|
    ensures forall x :: x in r <==> x in ways
  {
    if ways == [] then [] else InsertWay(SortWays(ways[1..]), ways[0])
  }

  function WithId(ways: seq<Way>, id: int): seq<Way> {
    if ways == [] then [] else (if ways[0].id == id then [ways[0]] else []) + WithId(ways[1..], id)
  }

  ghost predicate AscendingIds(ways: seq<Way>) {
    forall i, j :: 0 <= i < j < |ways| ==> ways[i].id <= ways[j].id
  }

  lemma {:induction false} InsertWayInOrder(sorted: seq<Way>, w: Way)
    requires AscendingIds(sorted)
    ensures AscendingIds(InsertWay(sorted, w))
  {
    if sorted != [] && sorted[0].id < w.id {
      InsertWayInOrder(sorted[1..], w);
      var rest := InsertWay(sorted[1..], w);
      forall j | 0 <= j < |rest| ensures sorted[0].id <= rest[j].id {
        assert rest[j] in rest;
        assert rest[j] in sorted[1..] || rest[j] == w;
      }
    }
  }

  lemma WithIdCons(head: Way, tail: seq<Way>, id: int)
    ensures WithId([head] + tail, id) == (if head.id == id then [head] else []) + WithId(tail, id)
  {
  }

  lemma {:induction false} InsertWayIsStable(sorted: seq<Way>, w: Way, id: int)
    ensures WithId(InsertWay(sorted, w), id) == (if w.id == id then [w] else []) + WithId(sorted, id)
  {
    hide WithId;
    if sorted == [] || w.id <= sorted[0].id {
      WithIdCons(w, sorted, id);
    } else {
      var head, tail := sorted[0], sorted[1..];
      assert sorted == [head] + tail;
      InsertWayIsStable(tail, w, id);
      WithIdCons(head, tail, id);
      WithIdCons(head, InsertWay(tail, w), id);
    }
  }

  /** Ways are processed by id; ways that share an id keep their order, and none is lost or repeated. */
  lemma {:induction false} WaysAreSorted(ways: seq<Way>, id: int)
    ensures AscendingIds(SortWays(ways))
    ensures WithId(SortWays(ways), id) == WithId(ways, id)
  {
    if ways != [] {
      WaysAreSorted(ways[1..], id);
      InsertWayInOrder(SortWays(ways[1..]), ways[0]);
      InsertWayIsStable(SortWays(ways[1..]), ways[0], id);
      hide AscendingIds, InsertWay;
    }
  }

  /** Walks ways in id order and their consecutive node pairs, filling both node sets, definition and graph together. */
  method BuildRoadGraph(known: NodeMap, ways: seq<Way>, geo: Geodesic)
    returns (nodes: Nodes, definition: seq<Arc>, graph: Multigraph)
    ensures definition == AllArcs(SortWays(ways), known, geo)
    ensures graph == AddAll(definition)
    ensures SameNodes(nodes) && Registered(nodes.inGraph, known, definition) && NoStrayNodes(nodes.inGraph, definition)
  {
    var sorted := SortWays(ways);
    nodes, definition, graph := Nodes([], map[]), [], Multigraph([], map[]);
    assert graph == AddAll(definition);
    assert SameNodes(nodes) && Registered(nodes.inGraph, known, definition) && NoStrayNodes(nodes.inGraph, definition);
    hide SortWays, SegmentCount, WayArcs, AddAll, SameNodes, Registered, NoStrayNodes;
    for k := 0 to |sorted|
      invariant definition == AllArcs(sorted[..k], known, geo) && graph == AddAll(definition)
      invariant SameNodes(nodes) && Registered(nodes.inGraph, known, definition) && NoStrayNodes(nodes.inGraph, definition)
    {
      assert sorted[..k + 1][..k] == sorted[..k];
      nodes, definition, graph := BuildWay(sorted[k], known, geo, nodes, definition, graph);
    }
    assert sorted[..|sorted|] == sorted;
  }

  /** One way: each consecutive node pair, skipped when an end is unknown. */
  method BuildWay(w: Way, known: NodeMap, geo: Geodesic, nodes0: Nodes, definition0: seq<Arc>, graph0: Multigraph)
    returns (nodes: Nodes, definition: seq<Arc>, graph: Multigraph)
    requires graph0 == AddAll(definition0)
    requires SameNodes(nodes0) && Registered(nodes0.inGraph, known, definition0) && NoStrayNodes(nodes0.inGraph, definition0)
    ensures definition == definition0 + WayArcs(w, known, geo, SegmentCount(w))
    ensures graph == AddAll(definition)
    ensures SameNodes(nodes) && Registered(nodes.inGraph, known, definition) && NoStrayNodes(nodes.inGraph, definition)
  {
    nodes, definition, graph := nodes0, definition0, graph0;
    ghost var emitted: seq<Arc> := [];
    hide Registered, SameNodes, NoStrayNodes, AddAll, SegmentArcs, AddNode, Place, NodeName;
    for i := 0 to SegmentCount(w)
      invariant emitted == WayArcs(w, known, geo, i) && definition == definition0 + emitted
      invariant graph == AddAll(definition)
      invariant SameNodes(nodes) && Registered(nodes.inGraph, known, definition) && NoStrayNodes(nodes.inGraph, definition)
    {
      emitted := emitted + SegmentArcs(w, known, geo, i);
      if w.nodes[i] !in known || w.nodes[i + 1] !in known {
        UnknownSegmentEmitsNothing(w, known, geo, i);
        continue;
      }
      ghost var before := nodes.inGraph;
      AddBothEnds(w, known, geo, i, nodes, definition);
      nodes := AddNode(AddNode(nodes, known, w.nodes[i]), known, w.nodes[i + 1]);
      SegmentLeavesNoStray(w, known, geo, i, before, nodes.inGraph, definition);
      definition, graph := AddEdges(SegmentArcs(w, known, geo, i), nodes.inGraph, known, definition, graph);
    }
  }

  /** Registering both ends of a segment. */
  lemma AddBothEnds(w: Way, known: NodeMap, geo: Geodesic, i: nat, nodes: Nodes, definition: seq<Arc>)
    requires i < SegmentCount(w) && w.nodes[i] in known && w.nodes[i + 1] in known
    requires SameNodes(nodes) && Registered(nodes.inGraph, known, definition)
    ensures var after := AddNode(AddNode(nodes, known, w.nodes[i]), known, w.nodes[i + 1]);
            && SameNodes(after) && Registered(after.inGraph, known, definition)
            && after.inGraph.Keys == nodes.inGraph.Keys + {NodeName(w.nodes[i]), NodeName(w.nodes[i + 1])}
            && forall a :: a in SegmentArcs(w, known, geo, i) ==> a.from in after.inGraph && a.to in after.inGraph
  {
    var u, v := w.nodes[i], w.nodes[i + 1];
    var first := AddNode(nodes, known, u);
    AddNodeKeepsSame(nodes, known, u);
    PlaceKeepsRegistered(nodes.inGraph, known, u, definition);
    AddNodeKeepsSame(first, known, v);
    PlaceKeepsRegistered(first.inGraph, known, v, definition);
    SegmentEndsAreNamed(w, known, geo, i, Place(first.inGraph, known, v), first.inGraph);
    hide SameNodes, Registered, AddNode, NodeName, SegmentArcs;
  }

  /** The nodes a segment adds are ends of the edges it emits. */
  lemma SegmentLeavesNoStray(w: Way, known: NodeMap, geo: Geodesic, i: nat,
                             before: map<NodeId, Point>, after: map<NodeId, Point>, definition: seq<Arc>)
    requires i < SegmentCount(w) && w.nodes[i] in known && w.nodes[i + 1] in known
    requires NoStrayNodes(before, definition)
    requires after.Keys == before.Keys + {NodeName(w.nodes[i]), NodeName(w.nodes[i + 1])}
    ensures NoStrayNodes(after, definition + SegmentArcs(w, known, geo, i))
  {
    var u, v, emitted := NodeName(w.nodes[i]), NodeName(w.nodes[i + 1]), SegmentArcs(w, known, geo, i);
    assert emitted[0] in emitted && {emitted[0].from, emitted[0].to} == {u, v} by {
      hide NodeName, EdgeName, RoadName, BridgeName, Round2;
    }
    hide SegmentArcs, NodeName;
    forall id | id in after ensures exists a :: a in definition + emitted && (a.from == id || a.to == id) {
      if id == u || id == v {
        assert emitted[0] in definition + emitted;
      } else {
        var a :| a in definition && (a.from == id || a.to == id);
        assert a in definition + emitted;
      }
    }
  }

  lemma UnknownSegmentEmitsNothing(w: Way, known: NodeMap, geo: Geodesic, i: nat)
    requires i < SegmentCount(w) && (w.nodes[i] !in known || w.nodes[i + 1] !in known)
    ensures SegmentArcs(w, known, geo, i) == []
  {
  }

  lemma SegmentEndsAreNamed(w: Way, known: NodeMap, geo: Geodesic, i: nat, after: map<NodeId, Point>, before: map<NodeId, Point>)
    requires i < SegmentCount(w) && w.nodes[i] in known && w.nodes[i + 1] in known
    requires NodeName(w.nodes[i]) in before && after == Place(before, known, w.nodes[i + 1])
    ensures forall a :: a in SegmentArcs(w, known, geo, i) ==> a.from in after && a.to in after
  {
    hide NodeName, EdgeName, RoadName, BridgeName, Round2;
  }

  /** Appends one segment's directed edges to the definition and the graph. */
  method AddEdges(emitted: seq<Arc>, coords: map<NodeId, Point>, known: NodeMap, definition0: seq<Arc>, graph0: Multigraph)
    returns (definition: seq<Arc>, graph: Multigraph)
    requires graph0 == AddAll(definition0) && Registered(coords, known, definition0)
    requires forall a :: a in emitted ==> a.from in coords && a.to in coords
    ensures definition == definition0 + emitted
    ensures graph == AddAll(definition) && Registered(coords, known, definition)
  {
    definition, graph := definition0, graph0;
    hide NodeName, AddEdge;
    for k := 0 to |emitted|
      invariant definition == definition0 + emitted[..k]
      invariant graph == AddAll(definition)
    {
      assert (definition + [emitted[k]])[..|definition|] == definition;
      definition := definition + [emitted[k]];
      graph := AddEdge(graph, emitted[k]);
    }
  }

  // ---- What routing gets from a built graph ------------------------------------------------------

  lemma NetworkArcsAreEmitted(ways: seq<Way>, known: NodeMap, geo: Geodesic, coords: map<NodeId, Point>, a: Arc)
    requires a in NetworkOf(AddAll(AllArcs(ways, known, geo)), coords).arcs
    ensures a in AllArcs(ways, known, geo)
  {
    var arcs := AllArcs(ways, known, geo);
    AddAllIsOk(arcs);
    hide AllArcs, AddAll;
    var g := AddAll(arcs);
    var i :| 0 <= i < |g.order| && a == NetworkOf(g, coords).arcs[i];
    assert g.order[i] in g.order;
  }

  /**
    Edge ids of a built network are distinct, because a built id names both ends, so the adapter's index
    finds every edge under its own id.
  */
  lemma BuiltIdsAreDistinct(ways: seq<Way>, known: NodeMap, geo: Geodesic, coords: map<NodeId, Point>)
    ensures var net := NetworkOf(AddAll(AllArcs(ways, known, geo)), coords).arcs;
            DistinctIds(net) && IndexAgrees(IndexArcs(EMPTY_INDEX, net).byId, net)
  {
    var arcs := AllArcs(ways, known, geo);
    BuiltIdsDetermineKeys(ways, known, geo);
    AddAllIsOk(arcs);
    hide AllArcs, AddAll, IndexArcs, IndexAgrees;
    var g := AddAll(arcs);
    var net := NetworkOf(g, coords).arcs;
    forall i, j | 0 <= i < j < |net| ensures net[i].data.edgeId != net[j].data.edgeId {
      assert g.order[i] in g.order && g.order[j] in g.order;
      assert KeyOf(net[i]) == g.order[i] && KeyOf(net[j]) == g.order[j];
    }
    DistinctIdsIndexAgrees(net);
  }

  ghost predicate NonNegativeDistance(geo: Geodesic) {
    forall p, q :: geo(p, q) >= 0.0
  }

  lemma EmittedArcIsSurveyed(known: NodeMap, geo: Geodesic, coords: map<NodeId, Point>, arcs: seq<Arc>,
                             a: Arc, w: Way, i: int, u: int, v: int)
    requires Symmetric(geo) && NonNegativeDistance(geo) && Registered(coords, known, arcs) && a in arcs
    requires EmittedBy(a, w, known, geo, i, u, v)
    ensures a.from in coords && a.to in coords
    ensures a.data.length == Round2(geo(coords[a.from], coords[a.to])) >= 0.0
    ensures |a.data.geometry| == 2
  {
    assert a.from == NodeName(u) && a.to == NodeName(v);
    hide NodeName, EdgeName, RoadName, BridgeName;
    assert coords[a.from] == known[u] && coords[a.to] == known[v];
  }

  /**
    Any query over a built network is surveyed and reports no invalid segment, whatever the overlay:
    the A* bound applies to it, and a failed route means no path.
  */
  lemma BuiltNetworksAreSurveyed(ways: seq<Way>, known: NodeMap, geo: Geodesic, coords: map<NodeId, Point>, q: Query)
    requires Symmetric(geo) && NonNegativeDistance(geo)
    requires var arcs := AllArcs(ways, known, geo);
             && Registered(coords, known, arcs)
             && q.network == NetworkOf(AddAll(arcs), coords)
    ensures Surveyed(q, geo)
    ensures forall a :: a in q.network.arcs ==> ValidSegment(Effective(q.overrides, a.data))
  {
    forall a | a in q.network.arcs ensures IsSurveyedArc(a, q.network.coords, geo) {
      BuiltArcIsSurveyed(ways, known, geo, coords, a);
    }
    hide AllArcs, AddAll, Registered, Symmetric, NonNegativeDistance, NetworkOf, IsSurveyedArc, ValidSegment, Surveyed;
    SurveyedArcsMakeSurveyedQueries(q, geo);
    SurveyedArcsAreValid(q, geo);
  }

  lemma PathsAreValid(q: Query, ns: seq<NodeId>, es: seq<EdgeData>)
    requires forall a :: a in q.network.arcs ==> ValidSegment(Effective(q.overrides, a.data))
    requires IsPath(NetOf(q), ns, es)
    ensures forall e :: e in es ==> ValidSegment(e)
  {
    hide ValidSegment, Effective, Hops;
    forall i | 0 <= i < |es| ensures ValidSegment(es[i]) {
      HopsAreEffectiveArcs(q, ns[i], ns[i + 1], es[i]);
    }
  }

  /** On a network of valid segments no chosen path is ever refused, so a failed route means no path. */
  lemma ValidSegmentsAreNeverRefused(q: Query, geo: Geodesic, request: RouteRequest, edges: seq<EdgeData>)
    requires forall a :: a in q.network.arcs ==> ValidSegment(Effective(q.overrides, a.data))
    ensures !PathRefused(q, geo, request, edges)
  {
    forall o, d, nodes | Joins(NetOf(q), o, d, nodes, edges) ensures forall e :: e in edges ==> ValidSegment(e) {
      PathsAreValid(q, nodes, edges);
    }
    hide ValidSegment, Snaps, AsGoodAsPromised, Joins;
  }

  lemma SurveyedArcsMakeSurveyedQueries(q: Query, geo: Geodesic)
    requires forall a :: a in q.network.arcs ==> IsSurveyedArc(a, q.network.coords, geo)
    ensures Surveyed(q, geo)
  {
    hide Round2, Hops;
    forall u, v, e | e in Hops(q, u, v) ensures SurveyedHop(q, geo, u, v, e) {
      HopsAreEffectiveArcs(q, u, v, e);
      var a :| a in q.network.arcs && a.from == u && a.to == v && e == Effective(q.overrides, a.data);
      assert IsSurveyedArc(a, q.network.coords, geo) && e.length == a.data.length;
    }
  }

  lemma SurveyedArcsAreValid(q: Query, geo: Geodesic)
    requires forall a :: a in q.network.arcs ==> IsSurveyedArc(a, q.network.coords, geo)
    ensures forall a :: a in q.network.arcs ==> ValidSegment(Effective(q.overrides, a.data))
  {
  }

  /** The arc joins known nodes, is as long as the rounded distance between them, and is drawn with two points. */
  ghost predicate IsSurveyedArc(a: Arc, coords: map<NodeId, Point>, geo: Geodesic) {
    && a.from in coords && a.to in coords
    && a.data.length == Round2(geo(coords[a.from], coords[a.to])) >= 0.0
    && |a.data.geometry| == 2
  }

  lemma BuiltArcIsSurveyed(ways: seq<Way>, known: NodeMap, geo: Geodesic, coords: map<NodeId, Point>, a: Arc)
    requires Symmetric(geo) && NonNegativeDistance(geo)
    requires var arcs := AllArcs(ways, known, geo);
             && Registered(coords, known, arcs)
             && a in NetworkOf(AddAll(arcs), coords).arcs
    ensures IsSurveyedArc(a, coords, geo)
  {
    NetworkArcsAreEmitted(ways, known, geo, coords, a);
    AllArcsAreEmitted(ways, known, geo, a);
    hide AllArcs, EmittedBy, AddAll, NetworkOf;
    var w, i, u, v :| w in ways && EmittedBy(a, w, known, geo, i, u, v);
    EmittedArcIsSurveyed(known, geo, coords, AllArcs(ways, known, geo), a, w, i, u, v);
  }

  // ---- What rerouting and the overlay get from a built graph ---------------------------------------

  /**
    Built edges carry no access tag, so the private-road flag never matters on them: a rerouter with the
    default policy accepts every path any request can find, and rerouting settles.
  */
  lemma BuiltNetworksSettleUnderDefaults(ways: seq<Way>, known: NodeMap, geo: Geodesic, coords: map<NodeId, Point>,
                                         q: Query, request: RouteRequest, ns: seq<NodeId>, es: seq<EdgeData>)
    requires q.network == NetworkOf(AddAll(AllArcs(ways, known, geo)), coords)
    requires q.policy == RequestPolicy(request) && IsPath(NetOf(q), ns, es)
    ensures Revalidates(DEFAULT_POLICY, q, IndexArcs(EMPTY_INDEX, q.network.arcs).byId, es)
  {
    var byId := IndexArcs(EMPTY_INDEX, q.network.arcs).byId;
    BuiltIdsAreDistinct(ways, known, geo, coords);
    forall i | 0 <= i < |es| ensures StillUsable(byId, q.overrides, DEFAULT_POLICY, q.vehicle, SegmentOf(es[i])) {
      HopsAreEffectiveArcs(q, ns[i], ns[i + 1], es[i]);
      var a :| a in q.network.arcs && es[i] == Effective(q.overrides, a.data) && Traversable(q.policy, es[i], q.vehicle);
      BuiltArcIsUntagged(ways, known, geo, coords, a);
      hide AllArcs, AddAll, NetworkOf, IndexArcs, IsPath, Hops, StillUsable, Traversable;
      UntaggedSettles(request, a.data, q.overrides, q.vehicle);
      UsableIffTraversable(byId, q.overrides, DEFAULT_POLICY, q.vehicle, SegmentOf(es[i]));
    }
  }

  lemma UntaggedSettles(request: RouteRequest, base: EdgeData, overrides: map<RoadId, RoadOverride>, vehicle: VehicleType)
    requires base.access == OtherAccess && Traversable(RequestPolicy(request), Effective(overrides, base), vehicle)
    ensures Traversable(DEFAULT_POLICY, Effective(overrides, base), vehicle)
  {
  }

  lemma BuiltArcIsUntagged(ways: seq<Way>, known: NodeMap, geo: Geodesic, coords: map<NodeId, Point>, a: Arc)
    requires a in NetworkOf(AddAll(AllArcs(ways, known, geo)), coords).arcs
    ensures a.data.access == OtherAccess && a.data.status == Open
    ensures exists way :: OfWay(a.data, way)
  {
    NetworkArcsAreEmitted(ways, known, geo, coords, a);
    AllArcsAreEmitted(ways, known, geo, a);
    hide AllArcs, AddAll, NetworkOf;
    var w, i, u, v :| w in ways && EmittedBy(a, w, known, geo, i, u, v);
    assert OfWay(a.data, w.id);
  }

  /** The edge's road, and its bridge if it has one, are named after the way. */
  predicate OfWay(e: EdgeData, way: int) {
    e.roadId == RoadName(way) && (e.bridgeId.Some? ==> e.bridgeId.value == BridgeName(way))
  }

  /** Every indexed bridge maps to the road of its own way. */
  ghost predicate BridgesAreNamed(o: OverlayState) {
    forall b :: b in o.bridgeToRoad ==> exists way :: b == BridgeName(way) && o.bridgeToRoad[b] == RoadName(way)
  }

  lemma {:induction false} RegistrationNamesBridges(o: OverlayState, ix: EdgeIndex, ids: seq<EdgeId>)
    requires BridgesAreNamed(o) && forall id :: id in ids ==> id in ix.byId && exists way :: OfWay(ix.byId[id], way)
    ensures BridgesAreNamed(RegisterIndexed(o, ix, ids))
  {
    if ids != [] {
      var init, last := ids[..|ids| - 1], ids[|ids| - 1];
      assert last in ids && forall id :: id in init ==> id in ids;
      RegistrationNamesBridges(o, ix, init);
      var way :| OfWay(ix.byId[last], way);
      hide BridgeName, RoadName;
    }
  }

  lemma NamedBridgesResolve(o: OverlayState, way: int)
    requires BridgesAreNamed(o)
    ensures ResolveBridge(o, BridgeName(way)) == RoadName(way)
  {
    BridgeFallbackFindsRoad(way);
    var b := BridgeName(way);
    if b in o.bridgeToRoad {
      var w :| b == BridgeName(w) && o.bridgeToRoad[b] == RoadName(w);
      assert BridgeName(w)[7..] == IntToString(w) && b[7..] == IntToString(way);
      IntToStringInjective(w, way);
    }
  }

  /** The adapter's index of a built network. */
  function BuiltIndex(arcs: seq<Arc>, coords: map<NodeId, Point>): EdgeIndex
  {
    IndexArcs(EMPTY_INDEX, NetworkOf(AddAll(arcs), coords).arcs)
  }

  lemma {:induction false} IndexListsItsIds(arcs: seq<Arc>)
    ensures IndexOk(IndexArcs(EMPTY_INDEX, arcs))
    ensures forall id :: id in IndexArcs(EMPTY_INDEX, arcs).byId ==>
              exists a :: a in arcs && a.data == IndexArcs(EMPTY_INDEX, arcs).byId[id]
  {
    if arcs != [] {
      var init, last := arcs[..|arcs| - 1], arcs[|arcs| - 1];
      IndexListsItsIds(init);
      assert arcs == init + [last];
    }
  }

  /**
    Attaching a fresh overlay to a built network makes its road-to-edges index exactly the inverse of
    the edges' road ids, and sends every bridge of the map to the road of its own way.
  */
  lemma FreshOverlayIndexesBuiltNetwork(ways: seq<Way>, known: NodeMap, geo: Geodesic, coords: map<NodeId, Point>,
                                        road: RoadId, id: EdgeId, way: int)
    ensures var ix := BuiltIndex(AllArcs(ways, known, geo), coords);
            && (forall i :: i in ix.ids ==> i in ix.byId)
            && var o := RegisterIndexed(FRESH, ix, ix.ids);
               && (Indexed(o, road, id) <==>
                     exists a :: a in AllArcs(ways, known, geo) && a.data.edgeId == id && a.data.roadId == road)
               && ResolveBridge(o, BridgeName(way)) == RoadName(way)
  {
    var arcs := AllArcs(ways, known, geo);
    var net := NetworkOf(AddAll(arcs), coords).arcs;
    var ix := BuiltIndex(arcs, coords);
    IndexListsItsIds(net);
    forall i | i in ix.ids ensures exists w :: OfWay(ix.byId[i], w) {
      var a :| a in net && a.data == ix.byId[i];
      BuiltArcIsUntagged(ways, known, geo, coords, a);
    }
    RegistrationNamesBridges(FRESH, ix, ix.ids);
    NamedBridgesResolve(RegisterIndexed(FRESH, ix, ix.ids), way);
    RegistrationInverts(FRESH, ix, ix.ids, road, id);
    BuiltRoadsAreIndexed(ways, known, geo, coords, road, id);
  }

  /** The built index files each edge under the road that all its emissions share. */
  lemma BuiltRoadsAreIndexed(ways: seq<Way>, known: NodeMap, geo: Geodesic, coords: map<NodeId, Point>,
                             road: RoadId, id: EdgeId)
    ensures var ix := BuiltIndex(AllArcs(ways, known, geo), coords);
            (road != "" && id in ix.byId && ix.byId[id].roadId == road) <==>
            exists a :: a in AllArcs(ways, known, geo) && a.data.edgeId == id && a.data.roadId == road
  {
    var arcs := AllArcs(ways, known, geo);
    var net := NetworkOf(AddAll(arcs), coords).arcs;
    var ix := BuiltIndex(arcs, coords);
    AddAllIsOk(arcs);
    BuiltIdsAreDistinct(ways, known, geo, coords);
    IndexListsItsIds(net);
    hide AllArcs, IndexArcs;
    if id in ix.byId {
      var b :| b in net && b.data == ix.byId[id];
      NetworkArcsAreEmitted(ways, known, geo, coords, b);
      forall a | a in arcs && a.data.edgeId == id ensures a.data.roadId == b.data.roadId != "" {
        SameIdSameRoad(ways, known, geo, a, b);
      }
    } else {
      forall a | a in arcs && a.data.edgeId == id ensures false {
        EdgeIsInNetwork(arcs, coords, KeyOf(a));
      }
    }
  }

  lemma EdgeIsInNetwork(arcs: seq<Arc>, coords: map<NodeId, Point>, k: Key)
    requires k in AddAll(arcs).edges
    ensures ArcAt(AddAll(arcs), k) in NetworkOf(AddAll(arcs), coords).arcs
  {
    var g := AddAll(arcs);
    assert k in g.order;
    var i :| 0 <= i < |g.order| && g.order[i] == k;
    assert NetworkOf(g, coords).arcs[i] == ArcAt(g, k);
  }

  lemma SameIdSameRoad(ways: seq<Way>, known: NodeMap, geo: Geodesic, a: Arc, b: Arc)
    requires a in AllArcs(ways, known, geo) && b in AllArcs(ways, known, geo) && a.data.edgeId == b.data.edgeId
    ensures a.data.roadId == b.data.roadId != ""
  {
    AllArcsAreEmitted(ways, known, geo, a);
    AllArcsAreEmitted(ways, known, geo, b);
    hide AllArcs, EdgeName, NodeName, BridgeName, Round2;
    var w, i, u, v :| w in ways && EmittedBy(a, w, known, geo, i, u, v);
    var x, j, u', v' :| x in ways && EmittedBy(b, x, known, geo, j, u', v');
    EdgeNameInjective(w.id, u, v, x.id, u', v');
  }
}
