/** Entities and events of the digital twin, and the transition rules between them. */
module TwinEntities {
  import opened Basics
  import opened Overlay

  type EventId = string
  type Time = int

  datatype EventSource =
    | FieldReportEvent | CommandCenterEvent | SimulationEvent | SystemEvent | ImportEvent | TestFixtureEvent

  function SourceName(s: EventSource): string {
    match s
    case FieldReportEvent => "FIELD_REPORT"
    case CommandCenterEvent => "COMMAND_CENTER"
    case SimulationEvent => "SIMULATION"
    case SystemEvent => "SYSTEM"
    case ImportEvent => "IMPORT"
    case TestFixtureEvent => "TEST_FIXTURE"
  }

  datatype BridgeStatus =
    | BridgeOpen | BridgeRestricted | BridgeBlocked | BridgeCollapsed | BridgeSubmerged | BridgeClosed

  datatype IncidentStatus = IncidentOpen | Acknowledged | InProgress | Resolved | Cancelled

  datatype TeamStatus = Available | Dispatched | OnScene | Returning | OffDuty | Maintenance

  datatype FacilityKind = HospitalFacility | ShelterFacility | OtherFacility

  /** `updated` is None on an entity created with the wall-clock default. */
  datatype Road = Road(roadId: RoadId, status: RoadStatus, accessibility: Accessibility, speed: Option<real>,
                       source: string, reason: Option<string>, updated: Option<Time>)

  datatype Bridge = Bridge(bridgeId: BridgeId, roadId: Option<RoadId>, status: BridgeStatus,
                           source: string, reason: Option<string>, updated: Option<Time>)

  datatype Facility = Facility(capacity: int, available: int, icu: int, accessibility: string, status: string,
                               source: string, updated: Option<Time>)

  datatype Incident = Incident(status: IncidentStatus, report: string, source: string, updated: Time)

  datatype FloodZone = FloodZone(name: Option<string>, geometry: string, severity: string, depth: Option<real>,
                                 source: string, updated: Time)

  datatype VulnerableGroup = VulnerableGroup(name: Option<string>, category: string, count: nat,
                                             location: Option<string>, source: string, updated: Time)

  datatype Population = Population(count: nat, location: Option<string>, source: string, updated: Time)

  /** The registries that no cascade touches. */
  datatype Registers = Registers(
    hospitals: map<string, Facility>,
    shelters: map<string, Facility>,
    incidents: map<string, Incident>,
    floods: map<string, FloodZone>,
    groups: map<string, VulnerableGroup>,
    populations: map<string, Population>)

  /** All entity registries. */
  datatype Entities = Entities(
    roads: map<RoadId, Road>,
    bridges: map<BridgeId, Bridge>,
    teams: map<string, TeamStatus>,
    others: Registers)

  datatype Body =
    | RoadChanged(road: RoadId, roadStatus: RoadStatus, accessibility: Option<Accessibility>, speed: Option<real>)
    | BridgeChanged(bridge: BridgeId, bridgeStatus: BridgeStatus, propagate: bool)
    | CapacityUpdated(kind: FacilityKind, facility: string, capacity: nat, available: nat,
                      icu: Option<nat>, access: Option<string>)
    | FacilityChanged(kind: FacilityKind, facility: string, facilityStatus: string)
    | IncidentCreated(incident: string, incidentStatus: IncidentStatus, report: string)
    | IncidentChanged(incident: string, incidentStatus: IncidentStatus)
    | FloodUpdated(zone: string, name: Option<string>, geometry: string, severity: string, depth: Option<real>)
    | GroupUpdated(group: string, name: Option<string>, category: string, count: nat, location: Option<string>)
    | PopulationUpdated(population: string, count: nat, location: Option<string>)
    | Unsupported

  /** `version` is the state version the log stamps into the event's metadata. */
  datatype Event = Event(id: EventId, time: Time, source: EventSource, reason: Option<string>,
                         causedBy: Option<EventId>, version: Option<int>, body: Body)

  // ---- Transition rules ---------------------------------------------------------------

  /** What an event does to the registries: refused, nothing but possible auto-creation, or a change. */
  datatype Transition<+T> = Refused | NoChange(after: T) | Change(after: T)

  function DefaultRoad(id: RoadId): Road {
    Road(id, Open, AllVehicles, None, "SYSTEM", None, None)
  }

  function DefaultBridge(id: BridgeId): Bridge {
    Bridge(id, None, BridgeOpen, "SYSTEM", None, None)
  }

  function RoadOf(es: Entities, id: RoadId): Road {
    if id in es.roads then es.roads[id] else DefaultRoad(id)
  }

  function BridgeOf(es: Entities, id: BridgeId): Bridge {
    if id in es.bridges then es.bridges[id] else DefaultBridge(id)
  }

  /** The road's next value, or None when the event would change nothing. */
  function NextRoad(r: Road, ev: Event): Option<Road>
    requires ev.body.RoadChanged?
  {
    var b := ev.body;
    if r.status == b.roadStatus
       && (b.accessibility.None? || r.accessibility == b.accessibility.value)
       && (b.speed.None? || r.speed == b.speed)
    then None
    else
      Some(r.(status := b.roadStatus,
              accessibility := if b.accessibility.Some? then b.accessibility.value else r.accessibility,
              speed := if b.speed.Some? then b.speed else r.speed,
              updated := Some(ev.time), source := SourceName(ev.source), reason := ev.reason))
  }

  /** An unknown road is created at its defaults before the event is judged. */
  function OnRoad(es: Entities, ev: Event): Transition<Entities>
    requires ev.body.RoadChanged?
  {
    var id, r := ev.body.road, RoadOf(es, ev.body.road);
    match NextRoad(r, ev)
    case None => NoChange(es.(roads := es.roads[id := r]))
    case Some(next) => Change(es.(roads := es.roads[id := next]))
  }

  function NextBridge(b: Bridge, ev: Event): Option<Bridge>
    requires ev.body.BridgeChanged?
  {
    if b.status == ev.body.bridgeStatus then None
    else
      Some(b.(status := ev.body.bridgeStatus, updated := Some(ev.time),
              source := SourceName(ev.source), reason := ev.reason))
  }

  /** An unknown bridge is created at its defaults before the event is judged. */
  function OnBridge(es: Entities, ev: Event): Transition<Entities>
    requires ev.body.BridgeChanged?
  {
    var id, b := ev.body.bridge, BridgeOf(es, ev.body.bridge);
    match NextBridge(b, ev)
    case None => NoChange(es.(bridges := es.bridges[id := b]))
    case Some(next) => Change(es.(bridges := es.bridges[id := next]))
  }

  /**
    Capacity is assigned before availability, and each assignment is validated on its own: an event that
    lowers the total below the facility's old availability is refused.
  */
  function OnCapacity(f: Facility, ev: Event, useIcu: bool): Option<Facility>
    requires ev.body.CapacityUpdated?
  {
    var b := ev.body;
    if f.available > b.capacity || b.available > b.capacity then None
    else
      Some(f.(capacity := b.capacity, available := b.available,
              icu := if useIcu && b.icu.Some? then b.icu.value else f.icu,
              accessibility := if b.access.Some? then b.access.value else f.accessibility,
              updated := Some(ev.time), source := SourceName(ev.source)))
  }

  predicate SameCapacity(f: Facility, b: Body, useIcu: bool)
    requires b.CapacityUpdated?
  {
    && f.capacity == b.capacity && f.available == b.available
    && (!useIcu || b.icu.None? || f.icu == b.icu.value)
    && (b.access.None? || f.accessibility == b.access.value)
  }

  const HOSPITAL_STATUSES := {"OPERATIONAL", "OVERLOADED", "EVACUATING", "CLOSED"}
  const SHELTER_STATUSES := {"OPEN", "AT_CAPACITY", "STANDBY", "CLOSED"}

  /** A facility's status change; a status outside its enumeration fails validation on assignment. */
  function OnFacilityStatus(f: Facility, ev: Event, allowed: set<string>): Option<Facility>
    requires ev.body.FacilityChanged?
  {
    if ev.body.facilityStatus !in allowed then None
    else Some(f.(status := ev.body.facilityStatus, updated := Some(ev.time), source := SourceName(ev.source)))
  }

  predicate IncidentMayMove(from: IncidentStatus, to: IncidentStatus) {
    match from
    case IncidentOpen => to == Acknowledged || to == Cancelled
    case Acknowledged => to == InProgress || to == Cancelled
    case InProgress => to == Resolved || to == Cancelled
    case Resolved => false
    case Cancelled => false
  }

  function OnHospital(es: Registers, ev: Event): Transition<Registers>
    requires ev.body.CapacityUpdated? || ev.body.FacilityChanged?
  {
    var id := ev.body.facility;
    if id !in es.hospitals then Refused
    else
      var f := es.hospitals[id];
      if ev.body.CapacityUpdated? then
        if SameCapacity(f, ev.body, true) then NoChange(es)
        else match OnCapacity(f, ev, true)
          case None => Refused
          case Some(g) => Change(es.(hospitals := es.hospitals[id := g]))
      else if f.status == ev.body.facilityStatus then NoChange(es)
      else match OnFacilityStatus(f, ev, HOSPITAL_STATUSES)
        case None => Refused
        case Some(g) => Change(es.(hospitals := es.hospitals[id := g]))
  }

  function OnShelter(es: Registers, ev: Event): Transition<Registers>
    requires ev.body.CapacityUpdated? || ev.body.FacilityChanged?
  {
    var id := ev.body.facility;
    if id !in es.shelters then Refused
    else
      var f := es.shelters[id];
      if ev.body.CapacityUpdated? then
        if SameCapacity(f, ev.body, false) then NoChange(es)
        else match OnCapacity(f, ev, false)
          case None => Refused
          case Some(g) => Change(es.(shelters := es.shelters[id := g]))
      else if f.status == ev.body.facilityStatus then NoChange(es)
      else match OnFacilityStatus(f, ev, SHELTER_STATUSES)
        case None => Refused
        case Some(g) => Change(es.(shelters := es.shelters[id := g]))
  }

  function OnFlood(es: Registers, ev: Event): Transition<Registers>
    requires ev.body.FloodUpdated?
  {
    var b := ev.body;
    var z := Lookup(es.floods, b.zone);
    if z.Some? && z.value.severity == b.severity && z.value.depth == b.depth && z.value.geometry == b.geometry then
      NoChange(es)
    else
      var name := if b.name.Some? && b.name.value != "" then b.name else if z.Some? then z.value.name else None;
      Change(es.(floods := es.floods[b.zone :=
        FloodZone(name, b.geometry, b.severity, b.depth, SourceName(ev.source), ev.time)]))
  }

  function OnGroup(es: Registers, ev: Event): Transition<Registers>
    requires ev.body.GroupUpdated?
  {
    var b := ev.body;
    var g := Lookup(es.groups, b.group);
    if g.Some? && g.value.count == b.count && g.value.category == b.category
       && (b.location.None? || g.value.location == b.location) then
      NoChange(es)
    else
      var name := if b.name.Some? && b.name.value != "" then b.name else if g.Some? then g.value.name else None;
      var place := if b.location.Some? && b.location.value != "" then b.location else if g.Some? then g.value.location else None;
      Change(es.(groups := es.groups[b.group :=
        VulnerableGroup(name, b.category, b.count, place, SourceName(ev.source), ev.time)]))
  }

  function OnPopulation(es: Registers, ev: Event): Transition<Registers>
    requires ev.body.PopulationUpdated?
  {
    var b := ev.body;
    var p := Lookup(es.populations, b.population);
    if p.Some? && p.value.count == b.count then NoChange(es)
    else
      var place := if b.location.Some? && b.location.value != "" then b.location else if p.Some? then p.value.location else None;
      Change(es.(populations := es.populations[b.population :=
        Population(b.count, place, SourceName(ev.source), ev.time)]))
  }

  /** Events on facilities, incidents, floods and people. */
  function OnOther(es: Registers, ev: Event): Transition<Registers> {
    match ev.body
    case RoadChanged(_, _, _, _) => Refused
    case BridgeChanged(_, _, _) => Refused
    case CapacityUpdated(kind, _, _, _, _, _) =>
      if kind == HospitalFacility then OnHospital(es, ev)
      else if kind == ShelterFacility then OnShelter(es, ev)
      else Refused
    case FacilityChanged(kind, _, _) =>
      if kind == HospitalFacility then OnHospital(es, ev)
      else if kind == ShelterFacility then OnShelter(es, ev)
      else Refused
    case IncidentCreated(id, status, report) =>
      Change(es.(incidents := es.incidents[id := Incident(status, report, SourceName(ev.source), ev.time)]))
    case IncidentChanged(id, status) =>
      if id !in es.incidents then Refused
      else
        var i := es.incidents[id];
        if i.status == status then NoChange(es)
        else if !IncidentMayMove(i.status, status) then Refused
        else Change(es.(incidents := es.incidents[id := i.(status := status, updated := ev.time)]))
    case FloodUpdated(_, _, _, _, _) => OnFlood(es, ev)
    case GroupUpdated(_, _, _, _, _) => OnGroup(es, ev)
    case PopulationUpdated(_, _, _) => OnPopulation(es, ev)
    case Unsupported => Refused
  }

  /** Dispatch by event type. */
  function Transit(es: Entities, ev: Event): Transition<Entities> {
    if ev.body.RoadChanged? then OnRoad(es, ev)
    else if ev.body.BridgeChanged? then OnBridge(es, ev)
    else
      match OnOther(es.others, ev)
      case Refused => Refused
      case NoChange(o) => NoChange(es)
      case Change(o) => Change(es.(others := o))
  }

  // ---- Bridges and the roads they carry -------------------------------------------------

  /** The road status a bridge status amounts to. */
  function RoadStatusFor(s: BridgeStatus): RoadStatus {
    match s
    case BridgeBlocked => Blocked
    case BridgeCollapsed => Blocked
    case BridgeClosed => Blocked
    case BridgeRestricted => Restricted
    case BridgeSubmerged => Restricted
    case BridgeOpen => Open
  }

  const CASCADE_PREFIX := "CAUSED-"

  function CascadeId(cause: EventId, road: RoadId): EventId {
    CASCADE_PREFIX + cause + "-" + road
  }

  /** Ids of the form cascades use. */
  predicate IsCascadeForm(id: EventId) {
    CASCADE_PREFIX <= id
  }

  /** The road event a bridge event causes. */
  function CascadeEvent(ev: Event, road: RoadId): Event
    requires ev.body.BridgeChanged?
  {
    Event(CascadeId(ev.id, road), ev.time, ev.source, Some("CASCADE"), Some(ev.id), None,
          RoadChanged(road, RoadStatusFor(ev.body.bridgeStatus), None, None))
  }

  // ---- Registries up to default entities --------------------------------------------------

  /** Keys and entity ids coincide. */
  ghost predicate KeysMatch(es: Entities) {
    && (forall r :: r in es.roads ==> es.roads[r].roadId == r)
    && (forall b :: b in es.bridges ==> es.bridges[b].bridgeId == b)
  }

  /** The same entities, reading an absent road or bridge at its default values. */
  ghost predicate SameUpToDefaults(a: Entities, b: Entities) {
    && (forall r :: RoadOf(a, r) == RoadOf(b, r))
    && (forall r :: BridgeOf(a, r) == BridgeOf(b, r))
    && a.teams == b.teams && a.others == b.others
  }

  lemma StampIrrelevant(es: Registers, ev: Event, version: Option<int>)
    ensures OnOther(es, ev.(version := version)) == OnOther(es, ev)
  {
  }

  lemma SameRoadOnBoth(a: Entities, b: Entities, id: RoadId, r: Road)
    requires SameUpToDefaults(a, b)
    ensures SameUpToDefaults(a.(roads := a.roads[id := r]), b.(roads := b.roads[id := r]))
  {
    var a', b' := a.(roads := a.roads[id := r]), b.(roads := b.roads[id := r]);
    forall k ensures RoadOf(a', k) == RoadOf(b', k) && BridgeOf(a', k) == BridgeOf(b', k) {
      assert RoadOf(a, k) == RoadOf(b, k) && BridgeOf(a, k) == BridgeOf(b, k);
    }
  }

  lemma SameBridgeOnBoth(a: Entities, b: Entities, id: BridgeId, r: Bridge)
    requires SameUpToDefaults(a, b)
    ensures SameUpToDefaults(a.(bridges := a.bridges[id := r]), b.(bridges := b.bridges[id := r]))
  {
    var a', b' := a.(bridges := a.bridges[id := r]), b.(bridges := b.bridges[id := r]);
    forall k ensures RoadOf(a', k) == RoadOf(b', k) && BridgeOf(a', k) == BridgeOf(b', k) {
      assert RoadOf(a, k) == RoadOf(b, k) && BridgeOf(a, k) == BridgeOf(b, k);
    }
  }

  lemma SameRegistersOnBoth(a: Entities, b: Entities, o: Registers)
    requires SameUpToDefaults(a, b)
    ensures SameUpToDefaults(a.(others := o), b.(others := o))
  {
    var a', b' := a.(others := o), b.(others := o);
    forall k ensures RoadOf(a', k) == RoadOf(b', k) && BridgeOf(a', k) == BridgeOf(b', k) {
      assert RoadOf(a, k) == RoadOf(b, k) && BridgeOf(a, k) == BridgeOf(b, k);
    }
  }

  /** Default entities are invisible to the transition rules, and so is the version stamp of the event. */
  lemma TransitIgnoresDefaults(a: Entities, b: Entities, ev: Event, version: Option<int>)
    requires SameUpToDefaults(a, b)
    ensures var x, y := Transit(a, ev), Transit(b, ev.(version := version));
            && x.Refused? == y.Refused? && x.NoChange? == y.NoChange?
            && (!x.Refused? ==> SameUpToDefaults(x.after, y.after))
  {
    StampIrrelevant(a.others, ev, version);
    if ev.body.RoadChanged? {
      var r := RoadOf(a, ev.body.road);
      assert r == RoadOf(b, ev.body.road);
      var next := NextRoad(r, ev);
      SameRoadOnBoth(a, b, ev.body.road, if next.Some? then next.value else r);
      hide OnOther, SameUpToDefaults, RoadOf, NextRoad;
    } else if ev.body.BridgeChanged? {
      var r := BridgeOf(a, ev.body.bridge);
      assert r == BridgeOf(b, ev.body.bridge);
      var next := NextBridge(r, ev);
      SameBridgeOnBoth(a, b, ev.body.bridge, if next.Some? then next.value else r);
      hide OnOther, SameUpToDefaults, BridgeOf, NextBridge;
    } else {
      var out := OnOther(a.others, ev);
      if !out.Refused? {
        SameRegistersOnBoth(a, b, out.after);
      }
      hide OnOther, SameUpToDefaults;
    }
  }

  /** An event without effect creates at most default entities. */
  lemma NoChangeCreatesDefaults(a: Entities, b: Entities, ev: Event)
    requires SameUpToDefaults(a, b) && Transit(a, ev).NoChange?
    ensures SameUpToDefaults(Transit(a, ev).after, b)
  {
    hide OnOther;
    var a' := Transit(a, ev).after;
    forall k ensures RoadOf(a', k) == RoadOf(b, k) && BridgeOf(a', k) == BridgeOf(b, k) {
      assert RoadOf(a, k) == RoadOf(b, k) && BridgeOf(a, k) == BridgeOf(b, k);
    }
  }

  lemma TransitKeepsKeys(es: Entities, ev: Event)
    requires KeysMatch(es) && !Transit(es, ev).Refused?
    ensures KeysMatch(Transit(es, ev).after)
  {
    hide OnOther;
  }
}
