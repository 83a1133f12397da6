/** What each event does to the twin and its mirror, in the terms of the event itself. */
module TwinMeaning {
  import opened Basics
  import opened Overlay
  import opened TwinEntities
  import opened TwinState
  import opened TwinReplay
  import opened ReplayTheory
  import opened TwinMirror

  /** The name an entity records for the source of its last change. */
  predicate Named(s: EventSource, name: string) {
    || (s == FieldReportEvent && name == "FIELD_REPORT")
    || (s == CommandCenterEvent && name == "COMMAND_CENTER")
    || (s == SimulationEvent && name == "SIMULATION")
    || (s == SystemEvent && name == "SYSTEM")
    || (s == ImportEvent && name == "IMPORT")
    || (s == TestFixtureEvent && name == "TEST_FIXTURE")
  }

  /** The overlay keeps simulations and fixtures apart; everything else counts as a field report. */
  predicate MirroredSource(s: EventSource, o: OverrideSource) {
    && (s == SimulationEvent <==> o == Simulation)
    && (s == TestFixtureEvent <==> o == TestFixture)
    && (o == Simulation || o == TestFixture || o == FieldReport)
  }

  /** What a bridge in this state means for its road. */
  predicate Leaves(bridge: BridgeStatus, road: RoadStatus) {
    || (bridge == BridgeOpen && road == Open)
    || ((bridge == BridgeRestricted || bridge == BridgeSubmerged) && road == Restricted)
    || ((bridge == BridgeBlocked || bridge == BridgeCollapsed || bridge == BridgeClosed) && road == Blocked)
  }

  /** The event was recorded as the next version. */
  ghost predicate Recorded(t: Twin, t': Twin, ev: Event) {
    && t'.version == t.version + 1 && t'.updatedAt == ev.time
    && t'.log == t.log + [ev.(version := Some(t.version + 1))]
    && t'.seen == t.seen[ev.id := t.version + 1]
  }

  /** The event is remembered but changed nothing: same version, time and log. */
  ghost predicate OnlyHeard(t: Twin, t': Twin, ev: Event) {
    && t'.version == t.version && t'.updatedAt == t.updatedAt && t'.log == t.log
    && t'.seen == t.seen[ev.id := t.version]
    && t'.overlay == t.overlay
  }

  /** All roads but one are as before. */
  ghost predicate OtherRoadsKept(t: Twin, t': Twin, road: RoadId) {
    forall r :: r != road ==> Lookup(t'.entities.roads, r) == Lookup(t.entities.roads, r)
  }

  // ---- Roads ---------------------------------------------------------------------------------

  /** An event seen before changes nothing at all. */
  lemma SeenEventMeans(t: Twin, ev: Event)
    requires ev.id in t.seen
    ensures Apply(t, ev).0 == t && Apply(t, ev).1.Done?
    ensures Apply(t, ev).1.result.isDuplicate && !Apply(t, ev).1.result.applied
  {
  }

  /** The road as it was, or as an unknown road counts. */
  ghost predicate WasRoad(t: Twin, id: RoadId, r: Road) {
    if id in t.entities.roads then r == t.entities.roads[id]
    else r == Road(id, Open, AllVehicles, None, "SYSTEM", None, None)
  }

  ghost predicate RoadAlready(was: Road, ev: Event)
    requires ev.body.RoadChanged?
  {
    && was.status == ev.body.roadStatus
    && (ev.body.accessibility.Some? ==> Some(was.accessibility) == ev.body.accessibility)
    && (ev.body.speed.Some? ==> was.speed == ev.body.speed)
  }

  /** The road has what the event says, and keeps what it leaves open. */
  ghost predicate RoadNow(was: Road, now: Road, ev: Event)
    requires ev.body.RoadChanged?
  {
    && now.roadId == was.roadId && now.status == ev.body.roadStatus
    && now.accessibility == (if ev.body.accessibility.Some? then ev.body.accessibility.value else was.accessibility)
    && now.speed == (if ev.body.speed.Some? then ev.body.speed else was.speed)
    && now.updated == Some(ev.time) && now.reason == ev.reason && Named(ev.source, now.source)
  }

  /** The road's override carries its status and speed, and no access level. */
  ghost predicate RoadMirrored(t: Twin, t': Twin, now: Road, ev: Event) {
    && t.overlay.Some? && t'.overlay.Some?
    && exists source :: MirroredSource(ev.source, source)
         && t'.overlay.value.overrides
            == t.overlay.value.overrides[now.roadId := RoadOverride(now.roadId, now.status, None, now.speed, source, None)]
  }

  /** An unseen road event sets its road, in the twin and in the overlay, or changes nothing if the road is so already. */
  lemma RoadEventMeans(t: Twin, ev: Event, was: Road)
    requires WellKeyed(t) && ev.body.RoadChanged? && ev.id !in t.seen && WasRoad(t, ev.body.road, was)
    requires t.overlay.Some? ==> ev.body.road != ""
    ensures var (t', out) := Apply(t, ev); var id := ev.body.road;
      && out.Done? && id in t'.entities.roads && OtherRoadsKept(t, t', id)
      && t'.entities.bridges == t.entities.bridges && t'.entities.teams == t.entities.teams && t'.entities.others == t.entities.others
      && (RoadAlready(was, ev) ==> OnlyHeard(t, t', ev) && t'.entities.roads[id] == was && out.result.isNoOp && !out.result.applied)
      && (!RoadAlready(was, ev) ==>
            && Recorded(t, t', ev) && RoadNow(was, t'.entities.roads[id], ev) && out.result.applied
            && (t.overlay.None? ==> t'.overlay.None?)
            && (t.overlay.Some? ==> RoadMirrored(t, t', t'.entities.roads[id], ev)))
  {
    ApplyRoad(t, ev);
    assert was == RoadOf(t.entities, ev.body.road);
    assert MirroredSource(ev.source, SourceOverride(SourceName(ev.source)));
  }

  // ---- Bridges and the roads they carry ------------------------------------------------------

  ghost predicate WasBridge(t: Twin, id: BridgeId, b: Bridge) {
    if id in t.entities.bridges then b == t.entities.bridges[id]
    else b == Bridge(id, None, BridgeOpen, "SYSTEM", None, None)
  }

  ghost predicate BridgeNow(was: Bridge, now: Bridge, ev: Event)
    requires ev.body.BridgeChanged?
  {
    && now.bridgeId == was.bridgeId && now.roadId == was.roadId && now.status == ev.body.bridgeStatus
    && now.updated == Some(ev.time) && now.reason == ev.reason && Named(ev.source, now.source)
  }

  /** The override of this road says what the bridge's state leaves of it. */
  ghost predicate MirrorLeft(t: Twin, ev: Event, road: RoadId)
    requires ev.body.BridgeChanged?
  {
    t.overlay.Some? ==>
      road in t.overlay.value.overrides && Leaves(ev.body.bridgeStatus, t.overlay.value.overrides[road].status)
  }

  /** The event propagates to this road, and the id its cascade takes is unused. */
  ghost predicate CascadesTo(t: Twin, was: Bridge, ev: Event, road: RoadId)
    requires ev.body.BridgeChanged?
  {
    ev.body.propagate && was.roadId == Some(road) && road != "" && "CAUSED-" + ev.id + "-" + road !in t.seen
  }

  /** An unseen event that asserts the bridge's own status changes nothing. */
  lemma SameBridgeStatusMeans(t: Twin, ev: Event, was: Bridge)
    requires ev.body.BridgeChanged? && ev.id !in t.seen && WasBridge(t, ev.body.bridge, was) && was.status == ev.body.bridgeStatus
    ensures var (t', out) := Apply(t, ev);
      && OnlyHeard(t, t', ev) && t'.entities == t.entities.(bridges := t.entities.bridges[ev.body.bridge := was])
      && out.Done? && out.result.isNoOp && !out.result.applied
  {
    hide OnOther;
  }

  /** What a bridge change sets before its cascade: the bridge, and the mirror of the road it resolves to. */
  lemma BridgeCommitMeans(t: Twin, ev: Event, was: Bridge)
    requires WellKeyed(t) && ev.body.BridgeChanged? && ev.id !in t.seen && WasBridge(t, ev.body.bridge, was)
    requires was.status != ev.body.bridgeStatus && (t.overlay.Some? ==> MirrorRoad(t, ev) != "")
    ensures Transit(t.entities, ev).Change?
    ensures var committed := Commit(t, Transit(t.entities, ev).after, ev);
      && Sync(committed, ev).Some?
      && var m := committed.(overlay := Sync(committed, ev).value);
         && Apply(t, ev) == Cascade(m, ev) && WellKeyed(m) && Recorded(t, m, ev)
         && m.entities.bridges == t.entities.bridges[ev.body.bridge := BridgeOf(m.entities, ev.body.bridge)]
         && m.entities == t.entities.(bridges := m.entities.bridges)
         && BridgeNow(was, BridgeOf(m.entities, ev.body.bridge), ev)
         && m.overlay.Some? == t.overlay.Some?
         && (t.overlay.Some? ==>
               && MirrorLeft(m, ev, MirrorRoad(t, ev))
               && m.overlay.value.overrides.Keys == t.overlay.value.overrides.Keys + {MirrorRoad(t, ev)})
  {
    assert was == BridgeOf(t.entities, ev.body.bridge);
    CommitKeepsKeys(t, ev);
    hide OnOther, KeysMatch;
  }

  /**
    An unseen change of a bridge's status sets the bridge; the override of the road it resolves to; and,
    when it propagates under an unused id, the road it carries: BLOCKED for a blocked, collapsed or closed
    bridge, RESTRICTED for a restricted or submerged one, OPEN for an open one. Nothing else moves.
  */
  lemma BridgeEventMeans(t: Twin, ev: Event, was: Bridge)
    requires WellKeyed(t) && ev.body.BridgeChanged? && ev.id !in t.seen && WasBridge(t, ev.body.bridge, was)
    requires was.status != ev.body.bridgeStatus && (t.overlay.Some? ==> MirrorRoad(t, ev) != "")
    ensures var (t', out) := Apply(t, ev); var id := ev.body.bridge;
      && out.Done? && out.result.applied
      && id in t'.entities.bridges && BridgeNow(was, t'.entities.bridges[id], ev)
      && t'.entities.bridges == t.entities.bridges[id := t'.entities.bridges[id]]
      && t'.entities.teams == t.entities.teams && t'.entities.others == t.entities.others
      && (forall road :: CascadesTo(t, was, ev, road) ==>
            && road in t'.entities.roads && Leaves(ev.body.bridgeStatus, t'.entities.roads[road].status)
            && OtherRoadsKept(t, t', road)
            && out.result.cascaded == (if Leaves(ev.body.bridgeStatus, RoadOf(t.entities, road).status) then []
                                       else ["CAUSED-" + ev.id + "-" + road]))
      && ((forall road :: !CascadesTo(t, was, ev, road)) ==> t'.entities.roads == t.entities.roads && out.result.cascaded == [])
      && t'.version == t.version + 1 + |out.result.cascaded|
      && t'.overlay.Some? == t.overlay.Some? && (t.overlay.Some? ==> MirrorLeft(t', ev, MirrorRoad(t, ev)))
      && CascadeLogged(t.log + [ev.(version := Some(t.version + 1))], t'.log, ev, out.result.cascaded)
  {
    BridgeCommitMeans(t, ev, was);
    var committed := Commit(t, Transit(t.entities, ev).after, ev);
    var m := committed.(overlay := Sync(committed, ev).value);
    hide Apply, Transit, Commit, Sync, OnOther, ResolveBridge;
    CascadeMeans(t, m, ev, was, if t.overlay.Some? then MirrorRoad(t, ev) else "");
  }

  /** The cascade is logged right after its cause, and names it. */
  ghost predicate CascadeLogged(before: seq<Event>, after: seq<Event>, ev: Event, cascaded: seq<EventId>) {
    cascaded != [] ==>
      && |after| == |before| + 1 && before <= after
      && var c := after[|before|];
         && c.id == cascaded[0] && c.causedBy == Some(ev.id) && c.time == ev.time && c.source == ev.source
         && c.body.RoadChanged? && c.body.accessibility.None? && c.body.speed.None?
  }

  /** A cascade under an unused id changes its road, unless the road is so already. */
  lemma NewCascadeMeans(m: Twin, ev: Event, road: RoadId, mirror: RoadId)
    requires WellKeyed(m) && ev.body.BridgeChanged? && CascadeRoad(m.entities, ev) == Some(road)
    requires CascadeId(ev.id, road) !in m.seen && MirrorLeft(m, ev, mirror)
    ensures var (t', out) := Cascade(m, ev); var id := CascadeId(ev.id, road);
      && out.Done? && out.result.applied && t'.entities == m.entities.(roads := t'.entities.roads)
      && road in t'.entities.roads && Leaves(ev.body.bridgeStatus, t'.entities.roads[road].status) && OtherRoadsKept(m, t', road)
      && out.result.cascaded == (if Leaves(ev.body.bridgeStatus, RoadOf(m.entities, road).status) then [] else [id])
      && t'.version == m.version + |out.result.cascaded|
      && t'.overlay.Some? == m.overlay.Some? && MirrorLeft(t', ev, mirror)
      && CascadeLogged(m.log, t'.log, ev, out.result.cascaded)
  {
    var c := CascadeEvent(ev, road);
    CascadeIdForm(ev.id, road);
    RoadEventMeans(m, c, RoadOf(m.entities, road));
    hide Apply, WellKeyed, Transit;
  }

  /** The cascade of a mirrored change. */
  lemma CascadeMeans(t: Twin, m: Twin, ev: Event, was: Bridge, mirror: RoadId)
    requires WellKeyed(m) && ev.body.BridgeChanged? && Recorded(t, m, ev) && m.entities.roads == t.entities.roads
    requires BridgeOf(m.entities, ev.body.bridge).roadId == was.roadId && MirrorLeft(m, ev, mirror)
    ensures var (t', out) := Cascade(m, ev);
      && out.Done? && out.result.applied
      && t'.entities == m.entities.(roads := t'.entities.roads)
      && (forall road :: CascadesTo(t, was, ev, road) ==>
            && road in t'.entities.roads && Leaves(ev.body.bridgeStatus, t'.entities.roads[road].status)
            && OtherRoadsKept(t, t', road)
            && out.result.cascaded == (if Leaves(ev.body.bridgeStatus, RoadOf(t.entities, road).status) then []
                                       else ["CAUSED-" + ev.id + "-" + road]))
      && ((forall road :: !CascadesTo(t, was, ev, road)) ==> t'.entities.roads == t.entities.roads && out.result.cascaded == [])
      && t'.version == t.version + 1 + |out.result.cascaded|
      && t'.overlay.Some? == m.overlay.Some? && MirrorLeft(t', ev, mirror)
      && CascadeLogged(m.log, t'.log, ev, out.result.cascaded)
  {
    var road := CascadeRoad(m.entities, ev);
    if road.Some? {
      var c := CascadeEvent(ev, road.value);
      CascadeIdForm(ev.id, road.value);
      if c.id !in m.seen {
        NewCascadeMeans(m, ev, road.value, mirror);
        hide Cascade, MirrorLeft, Leaves, CascadeLogged;
      } else {
        SeenEventMeans(m, c);
      }
    }
    hide Apply, WellKeyed;
  }

  // ---- Direct mirroring, as registration and full synchronisation do it --------------------------

  predicate StoredSource(source: string, o: OverrideSource) {
    o == if source == "SIMULATION" then Simulation else if source == "TEST_FIXTURE" then TestFixture else FieldReport
  }

  /** A road with an id is mirrored at its own status and speed. */
  lemma RoadMirrorMeans(o: OverlayState, r: Road)
    ensures SyncRoad(None, r) == Some(None)
    ensures SyncRoad(Some(o), r).None? <==> r.roadId == ""
    ensures r.roadId != "" ==>
      && SyncRoad(Some(o), r).value.Some?
      && exists source :: StoredSource(r.source, source)
           && SyncRoad(Some(o), r).value.value.overrides
              == o.overrides[r.roadId := RoadOverride(r.roadId, r.status, None, r.speed, source, None)]
  {
    assert StoredSource(r.source, SourceOverride(r.source));
  }

  /** A bridge is mirrored on the road it resolves to, at what its state leaves of it. */
  lemma BridgeMirrorMeans(o: OverlayState, b: Bridge)
    ensures SyncBridge(None, b) == Some(None)
    ensures SyncBridge(Some(o), b).None? <==> ResolveBridge(o, b.bridgeId) == ""
    ensures ResolveBridge(o, b.bridgeId) != "" ==>
      && SyncBridge(Some(o), b).value.Some?
      && exists source, status :: StoredSource(b.source, source) && Leaves(b.status, status)
           && SyncBridge(Some(o), b).value.value.overrides
              == o.overrides[ResolveBridge(o, b.bridgeId) :=
                   RoadOverride(ResolveBridge(o, b.bridgeId), status, None, None, source, Some(b.bridgeId))]
  {
    assert StoredSource(b.source, SourceOverride(b.source)) && Leaves(b.status, RoadStatusFor(b.status));
  }

  // ---- Facilities, incidents, floods and people --------------------------------------------------

  /** What any other unseen event does is decided by its rule; roads, bridges, teams and mirror are untouched. */
  lemma OtherEventMeans(t: Twin, ev: Event)
    requires !ev.body.RoadChanged? && !ev.body.BridgeChanged? && ev.id !in t.seen
    ensures var (t', out) := Apply(t, ev); var rule := OnOther(t.entities.others, ev);
      && (rule.Refused? <==> out.Raised?) && (rule.Refused? ==> t' == t)
      && (rule.NoChange? ==> OnlyHeard(t, t', ev) && t'.entities == t.entities && out.result.isNoOp && !out.result.applied)
      && (rule.Change? ==> Recorded(t, t', ev) && t'.overlay == t.overlay && out.result.applied && out.result.cascaded == []
                           && t'.entities == t.entities.(others := rule.after))
  {
    hide OnOther;
  }

  /** An incident is created as reported, replacing any of its id. */
  lemma IncidentCreationMeans(o: Registers, ev: Event)
    requires ev.body.IncidentCreated?
    ensures OnOther(o, ev).Change?
    ensures var o' := OnOther(o, ev).after; var id := ev.body.incident;
      && o' == o.(incidents := o'.incidents)
      && o'.incidents == o.incidents[id := o'.incidents[id]]
      && var i := o'.incidents[id];
         i.status == ev.body.incidentStatus && i.report == ev.body.report && i.updated == ev.time && Named(ev.source, i.source)
  {
  }

  /** The lifecycle: open, acknowledged, in progress, resolved, in that order; cancelled from any of the first three. */
  predicate Follows(from: IncidentStatus, to: IncidentStatus) {
    || (from == IncidentOpen && to == Acknowledged)
    || (from == Acknowledged && to == InProgress)
    || (from == InProgress && to == Resolved)
    || (from != Resolved && from != Cancelled && to == Cancelled)
  }

  /** A known incident stays put, moves along the lifecycle, or refuses. */
  lemma IncidentChangeMeans(o: Registers, ev: Event)
    requires ev.body.IncidentChanged?
    ensures var id, rule := ev.body.incident, OnOther(o, ev);
      && (id !in o.incidents ==> rule.Refused?)
      && (id in o.incidents ==>
            var was, to := o.incidents[id], ev.body.incidentStatus;
            && (rule.NoChange? <==> was.status == to)
            && (rule.Change? <==> Follows(was.status, to))
            && (rule.NoChange? ==> rule.after == o)
            && (rule.Change? ==> rule.after == o.(incidents := o.incidents[id := was.(status := to, updated := ev.time)])))
  {
  }

  /** The facilities of the event's kind, and the registers with them replaced. */
  function Put(o: Registers, kind: FacilityKind, fs: map<string, Facility>): Registers {
    if kind == HospitalFacility then o.(hospitals := fs) else if kind == ShelterFacility then o.(shelters := fs) else o
  }

  function Facilities(o: Registers, kind: FacilityKind): map<string, Facility> {
    if kind == HospitalFacility then o.hospitals else if kind == ShelterFacility then o.shelters else map[]
  }

  /** Only hospitals have intensive-care beds. */
  predicate CapacityAlready(f: Facility, b: Body)
    requires b.CapacityUpdated?
  {
    && f.capacity == b.capacity && f.available == b.available
    && (b.kind == HospitalFacility && b.icu.Some? ==> Some(f.icu) == (if b.icu.Some? then Some(b.icu.value as int) else None))
    && (b.access.Some? ==> Some(f.accessibility) == b.access)
  }

  /** A capacity update sets what it names on a registered facility, unless availability would exceed the total on the way. */
  lemma CapacityMeans(o: Registers, ev: Event)
    requires ev.body.CapacityUpdated?
    ensures var b, rule := ev.body, OnOther(o, ev); var fs := Facilities(o, b.kind);
      && (b.facility !in fs ==> rule.Refused?)
      && (b.facility in fs ==>
            var was := fs[b.facility];
            && (rule.NoChange? <==> CapacityAlready(was, b)) && (rule.NoChange? ==> rule.after == o)
            && (rule.Refused? <==> !CapacityAlready(was, b) && (was.available > b.capacity || b.available > b.capacity))
            && (rule.Change? ==>
                  var now := Facilities(rule.after, b.kind)[b.facility];
                  && rule.after == Put(o, b.kind, fs[b.facility := now])
                  && now.capacity == b.capacity && now.available == b.available
                  && now.icu == (if b.kind == HospitalFacility && b.icu.Some? then b.icu.value else was.icu)
                  && now.accessibility == (if b.access.Some? then b.access.value else was.accessibility)
                  && now.status == was.status && now.updated == Some(ev.time) && Named(ev.source, now.source)))
  {
  }

  predicate KnownStatus(kind: FacilityKind, status: string) {
    || (kind == HospitalFacility && status in {"OPERATIONAL", "OVERLOADED", "EVACUATING", "CLOSED"})
    || (kind == ShelterFacility && status in {"OPEN", "AT_CAPACITY", "STANDBY", "CLOSED"})
  }

  /** A status change sets a registered facility's status to one its kind knows, and nothing else of it. */
  lemma FacilityStatusMeans(o: Registers, ev: Event)
    requires ev.body.FacilityChanged?
    ensures var b, rule := ev.body, OnOther(o, ev); var fs := Facilities(o, b.kind);
      && (b.facility !in fs ==> rule.Refused?)
      && (b.facility in fs ==>
            var was := fs[b.facility];
            && (rule.NoChange? <==> was.status == b.facilityStatus) && (rule.NoChange? ==> rule.after == o)
            && (rule.Change? <==> was.status != b.facilityStatus && KnownStatus(b.kind, b.facilityStatus))
            && (rule.Change? ==>
                  var now := Facilities(rule.after, b.kind)[b.facility];
                  && rule.after == Put(o, b.kind, fs[b.facility := now])
                  && now == was.(status := b.facilityStatus, updated := Some(ev.time), source := now.source)
                  && Named(ev.source, now.source)))
  {
  }

  /** The new text if there is one, else what was there. */
  predicate KeptOr(given: Option<string>, before: Option<string>, now: Option<string>) {
    if given.Some? && given.value != "" then now == given else now == before
  }

  /** A flood zone takes the event's extent, severity and depth, unless it has all three already. */
  lemma FloodMeans(o: Registers, ev: Event)
    requires ev.body.FloodUpdated?
    ensures var b, rule := ev.body, OnOther(o, ev); var known := b.zone in o.floods;
      && !rule.Refused?
      && (rule.NoChange? <==> known && var z := o.floods[b.zone]; z.severity == b.severity && z.depth == b.depth && z.geometry == b.geometry)
      && (rule.NoChange? ==> rule.after == o)
      && (rule.Change? ==>
            && b.zone in rule.after.floods
            && var z := rule.after.floods[b.zone];
               && rule.after == o.(floods := o.floods[b.zone := z])
               && z.geometry == b.geometry && z.severity == b.severity && z.depth == b.depth && z.updated == ev.time
               && Named(ev.source, z.source) && KeptOr(b.name, if known then o.floods[b.zone].name else None, z.name))
  {
  }

  /** A group takes the event's category, count and place, unless it has them already. */
  lemma GroupMeans(o: Registers, ev: Event)
    requires ev.body.GroupUpdated?
    ensures var b, rule := ev.body, OnOther(o, ev); var known := b.group in o.groups;
      && !rule.Refused?
      && (rule.NoChange? <==> known && var g := o.groups[b.group];
            g.count == b.count && g.category == b.category && (b.location.Some? ==> g.location == b.location))
      && (rule.NoChange? ==> rule.after == o)
      && (rule.Change? ==>
            && b.group in rule.after.groups
            && var g := rule.after.groups[b.group];
               && rule.after == o.(groups := o.groups[b.group := g])
               && g.category == b.category && g.count == b.count && g.updated == ev.time && Named(ev.source, g.source)
               && KeptOr(b.name, if known then o.groups[b.group].name else None, g.name)
               && KeptOr(b.location, if known then o.groups[b.group].location else None, g.location))
  {
  }

  /** A population takes the event's count, unless it has it already. */
  lemma PopulationMeans(o: Registers, ev: Event)
    requires ev.body.PopulationUpdated?
    ensures var b, rule := ev.body, OnOther(o, ev); var known := b.population in o.populations;
      && !rule.Refused?
      && (rule.NoChange? <==> known && o.populations[b.population].count == b.count) && (rule.NoChange? ==> rule.after == o)
      && (rule.Change? ==>
            && b.population in rule.after.populations
            && var p := rule.after.populations[b.population];
               && rule.after == o.(populations := o.populations[b.population := p])
               && p.count == b.count && p.updated == ev.time && Named(ev.source, p.source)
               && KeptOr(b.location, if known then o.populations[b.population].location else None, p.location))
  {
  }

  lemma UnsupportedMeans(o: Registers, ev: Event)
    requires ev.body.Unsupported?
    ensures OnOther(o, ev).Refused?
  {
  }
}
