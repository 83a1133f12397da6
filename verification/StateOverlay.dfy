/** The dynamic road-state layer: overrides on top of the immutable base network, and their history. */
module Overlay {
  import opened Basics

  datatype RoadStatus = Open | Restricted | Blocked | Unknown

  datatype Accessibility = AllVehicles | EmergencyOnly | HighClearanceOnly | Impassable

  datatype OverrideSource =
    | FieldReport | CommandCenter | Simulation | InfrastructureUpdate | AuthorizedOperator | TestFixture

  datatype RoadOverride = RoadOverride(
    roadId: RoadId,
    status: RoadStatus,
    accessibility: Option<Accessibility>,
    speedLimit: Option<real>,
    source: OverrideSource,
    bridgeId: Option<BridgeId>)

  /** One entry of the overlay's event list; `next` is None when a road (or everything) was cleared. */
  datatype RoadChange = RoadChange(
    roadId: RoadId, previous: Option<RoadStatus>, next: Option<RoadStatus>, version: nat)

  /** The overlay as a value: what `StateOverlay` objects hold. */
  datatype OverlayState = OverlayState(
    overrides: map<RoadId, RoadOverride>,
    bridgeToRoad: map<BridgeId, RoadId>,
    roadToEdges: map<RoadId, set<EdgeId>>,
    version: nat,
    events: seq<RoadChange>)

  const FRESH := OverlayState(map[], map[], map[], 1, [])

  datatype OverlayError = EmptyRoadId

  // ---- Operations on values -------------------------------------------------

  function RegisterEdge(o: OverlayState, roadId: RoadId, edgeId: EdgeId, bridgeId: Option<BridgeId>): OverlayState {
    var known := if roadId in o.roadToEdges then o.roadToEdges[roadId] else {};
    var indexed := o.(roadToEdges := o.roadToEdges[roadId := known + {edgeId}]);
    if bridgeId.Some? && bridgeId.value != "" then
      indexed.(bridgeToRoad := o.bridgeToRoad[bridgeId.value := roadId])
    else
      indexed
  }

  /** The status currently overriding a road, if any. */
  function StatusOf(o: OverlayState, roadId: RoadId): Option<RoadStatus> {
    if roadId in o.overrides then Some(o.overrides[roadId].status) else None
  }

  /** Records one change: the version goes up by one and stamps the event. */
  function Record(o: OverlayState, overrides: map<RoadId, RoadOverride>,
                  roadId: RoadId, previous: Option<RoadStatus>, next: Option<RoadStatus>): OverlayState
  {
    o.(overrides := overrides,
       version := o.version + 1,
       events := o.events + [RoadChange(roadId, previous, next, o.version + 1)])
  }

  function SetRoad(o: OverlayState, ov: RoadOverride): OverlayState {
    Record(o, o.overrides[ov.roadId := ov], ov.roadId, StatusOf(o, ov.roadId), Some(ov.status))
  }

  function ClearRoad(o: OverlayState, roadId: RoadId): OverlayState {
    if roadId in o.overrides then
      Record(o, o.overrides - {roadId}, roadId, StatusOf(o, roadId), None)
    else o
  }

  function ClearAll(o: OverlayState): OverlayState {
    if o.overrides == map[] then o else Record(o, map[], "ALL", None, None)
  }

  /** `replace("BRIDGE-", "OSM-ROAD-")`: every occurrence, left to right. */
  function BridgeIdAsRoadId(s: string): (r: string)
    ensures s != "" ==> r != ""
  {
    if s == "" then ""
    else if "BRIDGE-" <= s then "OSM-ROAD-" + BridgeIdAsRoadId(s[7..])
    else [s[0]] + BridgeIdAsRoadId(s[1..])
  }

  predicate StartsAsBridge(s: string) {
    "BRIDGE-" <= s
  }

  /** One step of the replacement: an occurrence at the front, or a character that stays. */
  lemma FrontIsReplaced(s: string)
    ensures s == "" ==> BridgeIdAsRoadId(s) == ""
    ensures StartsAsBridge(s) ==> BridgeIdAsRoadId(s) == "OSM-ROAD-" + BridgeIdAsRoadId(s[7..])
    ensures s != "" && !StartsAsBridge(s) ==> BridgeIdAsRoadId(s) == [s[0]] + BridgeIdAsRoadId(s[1..])
  {
  }

  /** Up to its first "BRIDGE-" a name stays as it is; the occurrence is replaced, and so on behind it. */
  lemma {:induction false} BridgeNamesBecomeRoadNames(s: string, i: nat)
    requires i <= |s| && forall j :: 0 <= j < i ==> !StartsAsBridge(s[j..])
    ensures BridgeIdAsRoadId(s) == s[..i] + BridgeIdAsRoadId(s[i..])
    ensures i == |s| ==> BridgeIdAsRoadId(s) == s
    ensures StartsAsBridge(s[i..]) ==> BridgeIdAsRoadId(s) == s[..i] + "OSM-ROAD-" + BridgeIdAsRoadId(s[i..][7..])
  {
    hide BridgeIdAsRoadId, StartsAsBridge;
    FrontIsReplaced(s[i..]);
    if i == 0 {
      assert s[0..] == s;
    } else {
      var rest := s[i - 1..];
      FrontIsReplaced(rest);
      assert rest[0] == s[i - 1] && rest[1..] == s[i..] && s[..i] == s[..i - 1] + [s[i - 1]];
      BridgeNamesBecomeRoadNames(s, i - 1);
    }
  }

  /** The road a bridge event lands on: the indexed road, or the naming convention. */
  function ResolveBridge(o: OverlayState, bridgeId: BridgeId): RoadId {
    if bridgeId in o.bridgeToRoad && o.bridgeToRoad[bridgeId] != "" then o.bridgeToRoad[bridgeId]
    else BridgeIdAsRoadId(bridgeId)
  }

  // ---- History --------------------------------------------------------------

  /** Only `clear_all_overrides` leaves both statuses empty. */
  predicate IsClearAll(c: RoadChange) {
    c.previous.None? && c.next.None?
  }

  function ApplyChange(m: map<RoadId, RoadStatus>, c: RoadChange): map<RoadId, RoadStatus> {
    if IsClearAll(c) then map[]
    else if c.next.Some? then m[c.roadId := c.next.value]
    else m - {c.roadId}
  }

  /** The status map that an event list describes on its own. */
  function Fold(events: seq<RoadChange>): map<RoadId, RoadStatus> {
    if events == [] then map[]
    else ApplyChange(Fold(events[..|events| - 1]), events[|events| - 1])
  }

  function Statuses(overrides: map<RoadId, RoadOverride>): map<RoadId, RoadStatus> {
    map r | r in overrides :: overrides[r].status
  }

  /** The overlay is exactly its event history. */
  ghost predicate HistoryOk(o: OverlayState) {
    && o.version == 1 + |o.events|
    && Statuses(o.overrides) == Fold(o.events)
    && (forall i :: 0 <= i < |o.events| ==> o.events[i].version == i + 2)
    && (forall i :: 0 <= i < |o.events| && !IsClearAll(o.events[i]) ==>
          o.events[i].previous == Lookup(Fold(o.events[..i]), o.events[i].roadId))
    && (forall r :: r in o.overrides ==> o.overrides[r].roadId == r)
  }

  lemma RecordKeepsHistory(o: OverlayState, overrides: map<RoadId, RoadOverride>,
                           roadId: RoadId, previous: Option<RoadStatus>, next: Option<RoadStatus>)
    requires HistoryOk(o)
    requires forall r :: r in overrides ==> overrides[r].roadId == r
    requires Statuses(overrides) == ApplyChange(Statuses(o.overrides), RoadChange(roadId, previous, next, 0))
    requires (previous.None? && next.None?) || previous == StatusOf(o, roadId)
    ensures HistoryOk(Record(o, overrides, roadId, previous, next))
  {
    var o' := Record(o, overrides, roadId, previous, next);
    var n := |o.events|;
    assert o'.events[..n] == o.events;
    forall i | 0 <= i < |o'.events| && !IsClearAll(o'.events[i])
      ensures o'.events[i].previous == Lookup(Fold(o'.events[..i]), o'.events[i].roadId)
    {
      if i < n {
        assert o'.events[..i] == o.events[..i];
      }
    }
  }

  datatype OverlayOp =
    | Register(roadId: RoadId, edgeId: EdgeId, bridgeId: Option<BridgeId>)
    | Set(ov: RoadOverride)
    | SetBridge(bridge: BridgeId, status: RoadStatus, source: OverrideSource)
    | Clear(road: RoadId)
    | ClearEverything

  function BridgeOverride(o: OverlayState, bridge: BridgeId, status: RoadStatus, source: OverrideSource): RoadOverride {
    RoadOverride(ResolveBridge(o, bridge), status, None, None, source, Some(bridge))
  }

  /** One call on the overlay; a set with an empty road id is refused and changes nothing. */
  function StepOp(o: OverlayState, op: OverlayOp): OverlayState {
    match op
    case Register(r, e, b) => RegisterEdge(o, r, e, b)
    case Set(ov) => if ov.roadId == "" then o else SetRoad(o, ov)
    case SetBridge(b, s, src) =>
      if ResolveBridge(o, b) == "" then o else SetRoad(o, BridgeOverride(o, b, s, src))
    case Clear(r) => ClearRoad(o, r)
    case ClearEverything => ClearAll(o)
  }

  function RunOps(o: OverlayState, ops: seq<OverlayOp>): OverlayState
    decreases |ops|
  {
    if ops == [] then o else RunOps(StepOp(o, ops[0]), ops[1..])
  }

  lemma SetRoadKeepsHistory(o: OverlayState, ov: RoadOverride)
    requires HistoryOk(o)
    ensures HistoryOk(SetRoad(o, ov))
  {
    RecordKeepsHistory(o, o.overrides[ov.roadId := ov], ov.roadId, StatusOf(o, ov.roadId), Some(ov.status));
  }

  lemma StepKeepsHistory(o: OverlayState, op: OverlayOp)
    requires HistoryOk(o)
    ensures HistoryOk(StepOp(o, op))
  {
    match op
    case Register(r, e, b) =>
    case Set(ov) =>
      SetRoadKeepsHistory(o, ov);
    case SetBridge(b, s, src) =>
      SetRoadKeepsHistory(o, BridgeOverride(o, b, s, src));
    case Clear(r) =>
      if r in o.overrides {
        RecordKeepsHistory(o, o.overrides - {r}, r, StatusOf(o, r), None);
      }
    case ClearEverything =>
      if o.overrides != map[] {
        RecordKeepsHistory(o, map[], "ALL", None, None);
      }
  }

  /**
    Every overlay reachable by calls is exactly its event history: the version counts the events,
    event i carries version i + 2, folding the events gives the current statuses, and each event's
    previous status is what the fold before it says. No road name is special, not even "ALL".
  */
  lemma {:induction false} EveryRunKeepsHistory(o: OverlayState, ops: seq<OverlayOp>)
    requires HistoryOk(o)
    ensures HistoryOk(RunOps(o, ops))
    decreases |ops|
  {
    if ops != [] {
      StepKeepsHistory(o, ops[0]);
      EveryRunKeepsHistory(StepOp(o, ops[0]), ops[1..]);
    }
  }

  /** The overlay is as before but for one recorded change. */
  ghost predicate Changed(o: OverlayState, o': OverlayState, road: RoadId, next: Option<RoadStatus>) {
    && o'.version == o.version + 1
    && o'.bridgeToRoad == o.bridgeToRoad && o'.roadToEdges == o.roadToEdges
    && |o'.events| == |o.events| + 1 && o.events <= o'.events
    && o'.events[|o.events|].roadId == road && o'.events[|o.events|].next == next
  }

  /** What each call leaves, whatever the history: nothing is forgotten and nothing is made up. */
  lemma CallsMean(o: OverlayState, op: OverlayOp)
    ensures var o' := StepOp(o, op);
      match op
      case Set(ov) =>
        if ov.roadId == "" then o' == o
        else Changed(o, o', ov.roadId, Some(ov.status)) && o'.overrides == o.overrides[ov.roadId := ov]
      case SetBridge(b, status, source) =>
        var indexed := b in o.bridgeToRoad && o.bridgeToRoad[b] != "";
        if b == "" && !indexed then o' == o
        else exists r :: r == (if indexed then o.bridgeToRoad[b] else BridgeIdAsRoadId(b)) && Changed(o, o', r, Some(status))
                         && o'.overrides == o.overrides[r := RoadOverride(r, status, None, None, source, Some(b))]
      case Clear(r) =>
        if r !in o.overrides then o' == o
        else Changed(o, o', r, None) && r !in o'.overrides
             && forall x :: x != r ==> Lookup(o'.overrides, x) == Lookup(o.overrides, x)
      case ClearEverything =>
        if o.overrides == map[] then o' == o else Changed(o, o', "ALL", None) && o'.overrides == map[]
      case Register(r, e, b) =>
        && o' == o.(roadToEdges := o'.roadToEdges, bridgeToRoad := o'.bridgeToRoad)
        && r in o'.roadToEdges && e in o'.roadToEdges[r]
        && o'.bridgeToRoad == (if b.None? || b.value == "" then o.bridgeToRoad else o.bridgeToRoad[b.value := r])
  {
    match op
    case SetBridge(b, status, source) =>
      var r := ResolveBridge(o, b);
      if r != "" {
        assert Changed(o, StepOp(o, op), r, Some(status));
      }
    case _ =>
  }

  lemma FreshRunsAreTheirHistory(ops: seq<OverlayOp>)
    ensures HistoryOk(RunOps(FRESH, ops))
  {
    EveryRunKeepsHistory(FRESH, ops);
  }

  // ---- The mutable object ---------------------------------------------------

  class StateOverlay {
    var overrides: map<RoadId, RoadOverride>
    var bridgeToRoad: map<BridgeId, RoadId>
    var roadToEdges: map<RoadId, set<EdgeId>>
    var version: nat
    var events: seq<RoadChange>

    ghost function View(): OverlayState
      reads this
    {
      OverlayState(overrides, bridgeToRoad, roadToEdges, version, events)
    }

    constructor ()
      ensures View() == FRESH
    {
      overrides, bridgeToRoad, roadToEdges := map[], map[], map[];
      version, events := 1, [];
    }

    method RegisterRoadEdge(roadId: RoadId, edgeId: EdgeId, bridgeId: Option<BridgeId>)
      modifies this
      ensures View() == StepOp(old(View()), Register(roadId, edgeId, bridgeId))
    {
      var known := if roadId in roadToEdges then roadToEdges[roadId] else {};
      roadToEdges := roadToEdges[roadId := known + {edgeId}];
      if bridgeId.Some? && bridgeId.value != "" {
        bridgeToRoad := bridgeToRoad[bridgeId.value := roadId];
      }
    }

    method SetRoadOverride(ov: RoadOverride) returns (r: Result<RoadOverride, OverlayError>)
      modifies this
      ensures View() == StepOp(old(View()), Set(ov))
      ensures r.Ok? ==> overrides == old(overrides)[ov.roadId := ov] && version == old(version) + 1
      ensures r.Err? ==> overrides == old(overrides) && version == old(version)
      ensures r == if ov.roadId == "" then Err(EmptyRoadId) else Ok(ov)
    {
      if ov.roadId == "" {
        return Err(EmptyRoadId);
      }
      var previous := if ov.roadId in overrides then Some(overrides[ov.roadId].status) else None;
      overrides := overrides[ov.roadId := ov];
      version := version + 1;
      events := events + [RoadChange(ov.roadId, previous, Some(ov.status), version)];
      return Ok(ov);
    }

    method SetBridgeOverride(bridge: BridgeId, status: RoadStatus, source: OverrideSource)
      returns (r: Result<RoadOverride, OverlayError>)
      modifies this
      ensures View() == StepOp(old(View()), SetBridge(bridge, status, source))
      ensures r.Err? <==> ResolveBridge(old(View()), bridge) == ""
    {
      var road := if bridge in bridgeToRoad then bridgeToRoad[bridge] else "";
      if road == "" {
        road := BridgeIdAsRoadId(bridge);
      }
      r := SetRoadOverride(RoadOverride(road, status, None, None, source, Some(bridge)));
    }

    method ClearRoadOverride(roadId: RoadId) returns (cleared: bool)
      modifies this
      ensures View() == StepOp(old(View()), Clear(roadId))
      ensures overrides == old(overrides) - {roadId}
      ensures cleared == (roadId in old(overrides))
    {
      if roadId !in overrides {
        return false;
      }
      var previous := overrides[roadId].status;
      overrides := overrides - {roadId};
      version := version + 1;
      events := events + [RoadChange(roadId, Some(previous), None, version)];
      return true;
    }

    method ClearAllOverrides() returns (count: nat)
      modifies this
      ensures View() == StepOp(old(View()), ClearEverything)
      ensures overrides == map[]
      ensures count == |old(overrides)|
    {
      count := |overrides|;
      if count > 0 {
        overrides := map[];
        version := version + 1;
        events := events + [RoadChange("ALL", None, None, version)];
      }
    }

    /** An independent copy: equal now, and no later write on either side reaches the other. */
    method Clone() returns (copy: StateOverlay)
      ensures fresh(copy)
      ensures copy.View() == View()
    {
      copy := new StateOverlay();
      copy.overrides, copy.bridgeToRoad, copy.roadToEdges := overrides, bridgeToRoad, roadToEdges;
      copy.version, copy.events := version, events;
    }
  }
}
