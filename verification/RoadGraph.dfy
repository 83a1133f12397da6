/** Edges of the road network, their overlay-effective form, and the adapter the router queries. */
module RoadGraph {
  import opened Basics
  import opened Overlay

  type Point = (real, real)

  datatype RoadType =
    | Motorway | Trunk | Primary | Secondary | Tertiary | Residential | Service | LivingStreet
    | Bridge | Culvert | Unclassified | OtherType

  /** OSM `access` and `emergency` tags, already lower-cased and stripped. */
  datatype AccessTag = NoAccess | Private | OtherAccess

  datatype EmergencyTag = EmergencyYes | EmergencyDesignated | EmergencyOnlyTag | OtherEmergency

  /** The attributes of one directed edge; an absent status reads as OPEN. */
  datatype EdgeData = EdgeData(
    edgeId: EdgeId,
    roadId: RoadId,
    bridgeId: Option<BridgeId>,
    length: real,
    roadType: RoadType,
    speedLimit: Option<real>,
    status: RoadStatus,
    accessibility: Accessibility,
    access: AccessTag,
    emergency: EmergencyTag,
    geometry: seq<Point>)

  /** A directed edge of the multigraph: several arcs may join the same two nodes. */
  datatype Arc = Arc(from: NodeId, to: NodeId, data: EdgeData)

  datatype RoadNetwork = RoadNetwork(coords: map<NodeId, Point>, arcs: seq<Arc>)

  /** Dynamic state wins over the base edge; an override without a speed or access level keeps the base one. */
  function Effective(overrides: map<RoadId, RoadOverride>, e: EdgeData): EdgeData {
    if e.roadId !in overrides then e
    else
      var ov := overrides[e.roadId];
      e.(status := ov.status,
         accessibility := if ov.accessibility.Some? then ov.accessibility.value else e.accessibility,
         speedLimit := if ov.speedLimit.Some? then ov.speedLimit else e.speedLimit)
  }

  /**
    e is the base edge as the overrides show it: an overridden road has the override's status, and its
    accessibility and speed limit where it gives them; everything else is the base edge's own.
  */
  ghost predicate Shows(overrides: map<RoadId, RoadOverride>, base: EdgeData, e: EdgeData) {
    && e.edgeId == base.edgeId && e.roadId == base.roadId && e.bridgeId == base.bridgeId
    && e.length == base.length && e.roadType == base.roadType && e.geometry == base.geometry
    && e.access == base.access && e.emergency == base.emergency
    && (base.roadId !in overrides ==>
          e.status == base.status && e.accessibility == base.accessibility && e.speedLimit == base.speedLimit)
    && (base.roadId in overrides ==>
          var ov := overrides[base.roadId];
          && e.status == ov.status
          && (ov.accessibility.Some? ==> e.accessibility == ov.accessibility.value)
          && (ov.accessibility.None? ==> e.accessibility == base.accessibility)
          && (ov.speedLimit.Some? ==> e.speedLimit == ov.speedLimit)
          && (ov.speedLimit.None? ==> e.speedLimit == base.speedLimit))
  }

  /** The effective edge is the one edge that the overrides show. */
  lemma EffectiveIsShown(overrides: map<RoadId, RoadOverride>, base: EdgeData, e: EdgeData)
    ensures e == Effective(overrides, base) <==> Shows(overrides, base, e)
  {
  }

  /** All directed edges from u to v, in insertion order, with the overlay applied. */
  function EdgesBetween(arcs: seq<Arc>, overrides: map<RoadId, RoadOverride>, u: NodeId, v: NodeId): seq<EdgeData> {
    if arcs == [] then []
    else
      var rest := EdgesBetween(arcs[1..], overrides, u, v);
      if arcs[0].from == u && arcs[0].to == v then [Effective(overrides, arcs[0].data)] + rest else rest
  }

  lemma {:induction false} EdgesBetweenAreArcs(
      arcs: seq<Arc>, overrides: map<RoadId, RoadOverride>, u: NodeId, v: NodeId, e: EdgeData)
    ensures e in EdgesBetween(arcs, overrides, u, v) <==>
            exists a :: a in arcs && a.from == u && a.to == v && e == Effective(overrides, a.data)
  {
    if arcs != [] {
      EdgesBetweenAreArcs(arcs[1..], overrides, u, v, e);
      assert arcs == [arcs[0]] + arcs[1..];
    }
  }

  /** Clearing a road's override gives back exactly its base edges. */
  lemma ClearedRoadIsBase(o: OverlayState, roadId: RoadId, e: EdgeData)
    requires e.roadId == roadId
    ensures Effective(ClearRoad(o, roadId).overrides, e) == e
  {
  }

  // ---- Edge index and overlay registration ----------------------------------

  /** Insertion-ordered dictionary of edges by id. */
  datatype EdgeIndex = EdgeIndex(ids: seq<EdgeId>, byId: map<EdgeId, EdgeData>)

  function Put(ix: EdgeIndex, e: EdgeData): EdgeIndex {
    EdgeIndex(if e.edgeId in ix.byId then ix.ids else ix.ids + [e.edgeId], ix.byId[e.edgeId := e])
  }

  /** Definition edges overwrite: the last edge with an id is kept. */
  function IndexDefinition(ix: EdgeIndex, edges: seq<EdgeData>): EdgeIndex {
    if edges == [] then ix
    else Put(IndexDefinition(ix, edges[..|edges| - 1]), edges[|edges| - 1])
  }

  /** Graph edges only fill gaps: the first edge with an id is kept. */
  function IndexArcs(ix: EdgeIndex, arcs: seq<Arc>): EdgeIndex {
    if arcs == [] then ix
    else
      var before, e := IndexArcs(ix, arcs[..|arcs| - 1]), arcs[|arcs| - 1].data;
      if e.edgeId in before.byId then before else Put(before, e)
  }

  const EMPTY_INDEX := EdgeIndex([], map[])

  ghost predicate IndexOk(ix: EdgeIndex) {
    && (forall id :: id in ix.ids <==> id in ix.byId)
    && (forall id :: id in ix.byId ==> ix.byId[id].edgeId == id)
  }

  /** Distinct edge ids across the whole graph. */
  ghost predicate DistinctIds(arcs: seq<Arc>) {
    forall i, j :: 0 <= i < j < |arcs| ==> arcs[i].data.edgeId != arcs[j].data.edgeId
  }

  /** Every edge of the graph is found under its own id. */
  ghost predicate IndexAgrees(byId: map<EdgeId, EdgeData>, arcs: seq<Arc>) {
    forall a :: a in arcs ==> a.data.edgeId in byId && byId[a.data.edgeId] == a.data
  }

  lemma {:induction false} DistinctIdsIndexAgrees(arcs: seq<Arc>)
    requires DistinctIds(arcs)
    ensures IndexAgrees(IndexArcs(EMPTY_INDEX, arcs).byId, arcs)
    ensures forall id :: id in IndexArcs(EMPTY_INDEX, arcs).byId ==> exists a :: a in arcs && a.data.edgeId == id
  {
    if arcs != [] {
      var init, last := arcs[..|arcs| - 1], arcs[|arcs| - 1];
      DistinctIdsIndexAgrees(init);
      assert arcs == init + [last];
      assert last.data.edgeId !in IndexArcs(EMPTY_INDEX, init).byId;
    }
  }

  /** Of graph edges that share an id the first is found under it. */
  lemma {:induction false} FirstArcIsKept(arcs: seq<Arc>, i: nat)
    requires i < |arcs| && forall j :: 0 <= j < i ==> arcs[j].data.edgeId != arcs[i].data.edgeId
    ensures Lookup(IndexArcs(EMPTY_INDEX, arcs).byId, arcs[i].data.edgeId) == Some(arcs[i].data)
  {
    var init := arcs[..|arcs| - 1];
    if i < |init| {
      FirstArcIsKept(init, i);
    } else {
      NewIdIsAbsent(init, arcs[i].data.edgeId);
    }
  }

  lemma {:induction false} NewIdIsAbsent(arcs: seq<Arc>, id: EdgeId)
    requires forall j :: 0 <= j < |arcs| ==> arcs[j].data.edgeId != id
    ensures id !in IndexArcs(EMPTY_INDEX, arcs).byId
  {
    if arcs != [] {
      NewIdIsAbsent(arcs[..|arcs| - 1], id);
    }
  }

  function RegisterIndexed(o: OverlayState, ix: EdgeIndex, ids: seq<EdgeId>): OverlayState
    requires forall id :: id in ids ==> id in ix.byId
  {
    if ids == [] then o
    else
      var before, e := RegisterIndexed(o, ix, ids[..|ids| - 1]), ix.byId[ids[|ids| - 1]];
      if e.roadId == "" then before else RegisterEdge(before, e.roadId, ids[|ids| - 1], e.bridgeId)
  }

  /** Edge `id` is indexed under road r. */
  predicate Indexed(o: OverlayState, r: RoadId, id: EdgeId) {
    r in o.roadToEdges && id in o.roadToEdges[r]
  }

  lemma RegisterEdgeIndexes(o: OverlayState, road: RoadId, edge: EdgeId, bridge: Option<BridgeId>, r: RoadId, id: EdgeId)
    ensures Indexed(RegisterEdge(o, road, edge, bridge), r, id) <==> Indexed(o, r, id) || (r == road && id == edge)
  {
  }

  /** The road-to-edges index is the inverse of the edges' road ids, over what was there before. */
  lemma {:induction false} RegistrationInverts(o: OverlayState, ix: EdgeIndex, ids: seq<EdgeId>, r: RoadId, id: EdgeId)
    requires forall i :: i in ids ==> i in ix.byId
    ensures Indexed(RegisterIndexed(o, ix, ids), r, id) <==>
            Indexed(o, r, id) || (r != "" && id in ids && ix.byId[id].roadId == r)
  {
    if ids != [] {
      var init, last := ids[..|ids| - 1], ids[|ids| - 1];
      RegistrationInverts(o, ix, init, r, id);
      var before, e := RegisterIndexed(o, ix, init), ix.byId[last];
      assert ids == init + [last];
      hide RegisterEdge, Indexed;
      RegisterEdgeIndexes(before, e.roadId, last, e.bridgeId, r, id);
    }
  }

  /** Edge `id` carries bridge b on a named road. */
  predicate CarriesBridge(ix: EdgeIndex, b: BridgeId, id: EdgeId) {
    id in ix.byId && ix.byId[id].bridgeId == Some(b) && ix.byId[id].roadId != ""
  }

  /** A bridge that some listed edge of a named road carries is indexed under such a road; others stay as they were. */
  lemma {:induction false} RegistrationIndexesBridges(o: OverlayState, ix: EdgeIndex, ids: seq<EdgeId>, b: BridgeId)
    requires b != "" && forall i :: i in ids ==> i in ix.byId
    ensures var o' := RegisterIndexed(o, ix, ids);
      && ((exists id :: id in ids && CarriesBridge(ix, b, id)) ==>
            exists id :: id in ids && CarriesBridge(ix, b, id) && Lookup(o'.bridgeToRoad, b) == Some(ix.byId[id].roadId))
      && ((forall id :: id in ids ==> !CarriesBridge(ix, b, id)) ==> Lookup(o'.bridgeToRoad, b) == Lookup(o.bridgeToRoad, b))
  {
    if ids != [] {
      var init, last := ids[..|ids| - 1], ids[|ids| - 1];
      assert ids == init + [last];
      RegistrationIndexesBridges(o, ix, init, b);
      var before, e := RegisterIndexed(o, ix, init), ix.byId[last];
      var after := RegisterIndexed(o, ix, ids);
      EdgeIndexesBridge(before, e.roadId, last, e.bridgeId, b);
      assert Lookup(after.bridgeToRoad, b)
          == if CarriesBridge(ix, b, last) then Some(e.roadId) else Lookup(before.bridgeToRoad, b);
      hide RegisterIndexed, RegisterEdge, CarriesBridge;
      assert last in ids && forall id :: id in init ==> id in ids;
    }
  }

  lemma EdgeIndexesBridge(o: OverlayState, road: RoadId, edge: EdgeId, bridge: Option<BridgeId>, b: BridgeId)
    requires b != ""
    ensures Lookup(RegisterEdge(o, road, edge, bridge).bridgeToRoad, b)
         == if bridge == Some(b) then Some(road) else Lookup(o.bridgeToRoad, b)
  {
  }

  /** Registration leaves overrides and history alone. */
  lemma {:induction false} RegistrationIsQuiet(o: OverlayState, ix: EdgeIndex, ids: seq<EdgeId>)
    requires forall i :: i in ids ==> i in ix.byId
    ensures var after := RegisterIndexed(o, ix, ids);
            after.overrides == o.overrides && after.version == o.version && after.events == o.events
  {
    if ids != [] {
      RegistrationIsQuiet(o, ix, ids[..|ids| - 1]);
    }
  }

  class RoutingGraphAdapter {
    const network: RoadNetwork
    const index: EdgeIndex
    var overlay: StateOverlay?

    ghost predicate Valid()
      reads this
    {
      IndexOk(index)
    }

    /** The active overrides: none when no overlay is attached. */
    function Overrides(): map<RoadId, RoadOverride>
      reads this, overlay
    {
      if overlay == null then map[] else overlay.overrides
    }

    /** Without a serialised definition: coordinates and edges come from the graph itself. */
    constructor (network: RoadNetwork)
      ensures Valid() && overlay == null && this.network == network
      ensures index == IndexArcs(EMPTY_INDEX, network.arcs)
    {
      var ix := EMPTY_INDEX;
      for i := 0 to |network.arcs|
        invariant IndexOk(ix) && ix == IndexArcs(EMPTY_INDEX, network.arcs[..i])
      {
        assert network.arcs[..i + 1][..i] == network.arcs[..i];
        var e := network.arcs[i].data;
        if e.edgeId !in ix.byId {
          ix := Put(ix, e);
        }
      }
      assert network.arcs[..|network.arcs|] == network.arcs;
      this.network, this.index, this.overlay := network, ix, null;
    }

    /** Attaching an overlay registers every indexed edge of a named road with it. */
    method SetOverlay(value: StateOverlay)
      requires Valid()
      modifies this`overlay, value
      ensures Valid() && overlay == value
      ensures value.View() == RegisterIndexed(old(value.View()), index, index.ids)
    {
      overlay := value;
      for i := 0 to |index.ids|
        invariant Valid() && overlay == value
        invariant value.View() == RegisterIndexed(old(value.View()), index, index.ids[..i])
      {
        assert index.ids[..i + 1][..i] == index.ids[..i];
        var e := index.byId[index.ids[i]];
        if e.roadId != "" {
          value.RegisterRoadEdge(e.roadId, index.ids[i], e.bridgeId);
        }
      }
      assert index.ids[..|index.ids|] == index.ids;
    }

    /** Lookup by id, with the overlay applied. */
    method GetEdgeById(id: EdgeId) returns (e: Option<EdgeData>)
      ensures e == if id in index.byId then Some(Effective(Overrides(), index.byId[id])) else None
      ensures e.Some? ==> Shows(Overrides(), index.byId[id], e.value)
    {
      if id !in index.byId {
        return None;
      }
      return Some(Effective(Overrides(), index.byId[id]));
    }
  }
}
