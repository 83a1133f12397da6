/** The incident service on top of the twin, as the domain behind the sync pipeline. */
module Incidents {
  import opened Basics
  import opened Roles
  import opened TwinEntities
  import opened TwinState
  import opened TwinMeaning
  import opened Sync

  /** A payload value is an enumeration member only if something upstream parsed it; JSON gives plain text. */
  datatype Parsed<+T> = Member(value: T) | Text(text: string)

  datatype Report = Report(id: string, status: IncidentStatus, severity: string, description: string,
                           priority: int, longitude: real, latitude: real)

  /** An operation's payload: a full report for CREATE, optional fields for UPDATE. */
  datatype Payload = Payload(
    report: Option<Report>,
    status: Option<Parsed<IncidentStatus>>,
    severity: Option<Parsed<string>>,
    description: Option<string>,
    priority: Option<int>,
    team: Option<string>)

  datatype IncidentRecord = IncidentRecord(
    status: IncidentStatus, severity: string, description: string, priority: int, team: Option<string>, version: int)

  /** The service's own records beside the twin it feeds. */
  datatype Service = Service(twin: Twin, records: map<string, IncidentRecord>)

  function CreateEvent(r: Report): Event {
    Event("EVT-CREATE-" + r.id, 0, FieldReportEvent, None, None, None, IncidentCreated(r.id, r.status, r.description))
  }

  function StatusEvent(id: string, version: int, status: IncidentStatus): Event {
    Event("EVT-STATUS-" + id + "-v" + IntToString(version), 0, CommandCenterEvent, None, None, None,
          IncidentChanged(id, status))
  }

  function CreateIncident(s: Service, r: Report): Option<Service> {
    if r.id in s.records then None
    else if !(-180.0 <= r.longitude <= 180.0 && -90.0 <= r.latitude <= 90.0) then None
    else
      var (twin, out) := Apply(s.twin, CreateEvent(r));
      if out.Raised? then None
      else Some(Service(twin, s.records[r.id := IncidentRecord(r.status, r.severity, r.description, r.priority, None, 1)]))
  }

  /** Text fails: only an enumeration member has the value that is stored. Staying put is allowed and bumps the record. */
  function UpdateStatus(s: Service, id: string, status: Parsed<IncidentStatus>, expected: Option<int>, team: Option<string>): Option<Service> {
    if id !in s.records then None
    else
      var rec := s.records[id];
      if expected.Some? && expected.value != rec.version then None
      else if status.Text? then None
      else if status.value != rec.status && !IncidentMayMove(rec.status, status.value) then None
      else
        var next := rec.(status := status.value, version := rec.version + 1,
                         team := if team.Some? && team.value != "" then team else rec.team);
        var (twin, out) := Apply(s.twin, StatusEvent(id, next.version, status.value));
        if out.Raised? then None else Some(Service(twin, s.records[id := next]))
  }

  /** Detail updates bump the record only when something changes, and never reach the twin. */
  function UpdateDetails(s: Service, id: string, p: Payload, expected: Option<int>): Option<Service> {
    if id !in s.records then None
    else
      var rec := s.records[id];
      if expected.Some? && expected.value != rec.version then None
      else if p.severity.Some? && p.severity.value.Text? then None
      else
        var next := rec.(severity := if p.severity.Some? then p.severity.value.value else rec.severity,
                         description := if p.description.Some? then p.description.value else rec.description,
                         priority := if p.priority.Some? then p.priority.value else rec.priority);
        if next == rec then Some(s)
        else Some(s.(records := s.records[id := next.(version := rec.version + 1)]))
  }

  /** Deletions, and everything that is not an incident, succeed without touching anything. */
  function Mutate(s: Service, op: Operation<Payload>): Option<Service> {
    if op.entityType != IncidentEntity || op.operationType == Delete then Some(s)
    else if op.operationType == Create then
      if op.payload.report.None? then None else CreateIncident(s, op.payload.report.value)
    else if op.payload.status.Some? then
      UpdateStatus(s, op.entityId, op.payload.status.value, op.baseVersion, op.payload.team)
    else UpdateDetails(s, op.entityId, op.payload, op.baseVersion)
  }

  const INCIDENT_DOMAIN: Domain<Service, Payload, ()> :=
    Domain((s: Service, op: Operation<Payload>, a: Actor) =>
             match Mutate(s, op) case None => None case Some(next) => Some((next, ())),
           (s: Service) => s.twin.version,
           (s: Service, id: string) => id in s.records)

  /** The twin-backed domain never lowers the version, so no update is ever lost through it. */
  lemma IncidentsNeverDropTheVersion()
    ensures VersionNeverDrops(INCIDENT_DOMAIN)
  {
    forall s: Service, op, a | INCIDENT_DOMAIN.mutate(s, op, a).Some?
      ensures s.twin.version <= INCIDENT_DOMAIN.mutate(s, op, a).value.0.twin.version
    {
      if op.payload.report.Some? {
        VersionNeverGoesBack(s.twin, CreateEvent(op.payload.report.value));
      }
      if op.payload.status.Some? && op.payload.status.value.Member? && op.entityId in s.records {
        VersionNeverGoesBack(s.twin, StatusEvent(op.entityId, s.records[op.entityId].version + 1, op.payload.status.value.value));
      }
      hide Apply;
    }
  }

  /**
    Two version counters meet in one field. The conflict engine compares the base version with the
    twin's, the incident service with the incident's own; so an update that names a base version is
    accepted only when that base equals the incident's version and the twin is not past it.
  */
  lemma BasedUpdateNeedsBothCounters(s: State<Service, Payload, ()>, d: Delivery<Payload>)
    requires RecordsAreAccepted(s) && Process(INCIDENT_DOMAIN, s, d).1.status == Accepted
    requires d.op.operationType == Update && d.op.baseVersion.Some?
    ensures d.op.entityId in s.domain.records
    ensures s.domain.twin.version <= d.op.baseVersion.value == s.domain.records[d.op.entityId].version
  {
  }

  /** Once the twin has moved past an incident's own counter, no update of it that names a base version is accepted. */
  lemma BasedUpdatesStarve(s: State<Service, Payload, ()>, d: Delivery<Payload>)
    requires RecordsAreAccepted(s) && d.op.operationType == Update && d.op.baseVersion.Some?
    requires d.op.entityId in s.domain.records && s.domain.records[d.op.entityId].version < s.domain.twin.version
    ensures Process(INCIDENT_DOMAIN, s, d).1.status != Accepted
  {
  }

  /** A status or severity that arrives as plain text is never accepted. */
  lemma PlainTextUpdatesFail(s: State<Service, Payload, ()>, d: Delivery<Payload>)
    requires RecordsAreAccepted(s) && d.op.operationType == Update
    requires (d.op.payload.status.Some? && d.op.payload.status.value.Text?)
             || (d.op.payload.status.None? && d.op.payload.severity.Some? && d.op.payload.severity.value.Text?)
    ensures Process(INCIDENT_DOMAIN, s, d).1.status != Accepted
  {
  }

  /** The twin has heard the new status already, or has the incident where the lifecycle allows it. */
  predicate TwinTakes(t: Twin, id: string, version: int, to: IncidentStatus) {
    || "EVT-STATUS-" + id + "-v" + IntToString(version) in t.seen
    || (id in t.entities.others.incidents
        && var was := t.entities.others.incidents[id].status; was == to || Follows(was, to))
  }

  /** The incident is known, and at the version the update is based on. */
  predicate BaseMatches(s: Service, op: Operation<Payload>) {
    op.entityId in s.records && (op.baseVersion.Some? ==> op.baseVersion.value == s.records[op.entityId].version)
  }

  /** When a mutation goes through: creations of new incidents on the map, and updates that every register can take. */
  lemma MutationSucceedsIff(s: Service, op: Operation<Payload>, a: Actor)
    ensures var out, p := INCIDENT_DOMAIN.mutate(s, op, a), op.payload;
      if op.entityType != IncidentEntity || op.operationType == Delete then out == Some((s, ()))
      else if op.operationType == Create then
        out.Some? <==> p.report.Some? && p.report.value.id !in s.records
                       && -180.0 <= p.report.value.longitude <= 180.0 && -90.0 <= p.report.value.latitude <= 90.0
      else if p.status.Some? then
        out.Some? <==> BaseMatches(s, op) && p.status.value.Member?
                       && var rec, to := s.records[op.entityId], p.status.value.value;
                          (to == rec.status || Follows(rec.status, to)) && TwinTakes(s.twin, op.entityId, rec.version + 1, to)
      else out.Some? <==> BaseMatches(s, op) && (p.severity.Some? ==> p.severity.value.Member?)
  {
    hide Apply, OnOther, IntToString;
    if op.payload.report.Some? {
      var ev := CreateEvent(op.payload.report.value);
      if ev.id in s.twin.seen { SeenEventMeans(s.twin, ev); }
      else { OtherEventMeans(s.twin, ev); IncidentCreationMeans(s.twin.entities.others, ev); }
    }
    if op.entityId in s.records && op.payload.status.Some? && op.payload.status.value.Member? {
      var ev := StatusEvent(op.entityId, s.records[op.entityId].version + 1, op.payload.status.value.value);
      if ev.id in s.twin.seen { SeenEventMeans(s.twin, ev); }
      else { OtherEventMeans(s.twin, ev); IncidentChangeMeans(s.twin.entities.others, ev); }
    }
  }

  /** An accepted creation leaves the reported incident on record at version 1, and, its event being new, in the twin. */
  lemma AcceptedCreateMeans(s: State<Service, Payload, ()>, d: Delivery<Payload>)
    requires RecordsAreAccepted(s) && Process(INCIDENT_DOMAIN, s, d).1.status == Accepted
    requires d.op.operationType == Create && d.op.entityType == IncidentEntity
    ensures d.op.payload.report.Some?
    ensures var r := d.op.payload.report.value; var before, after := s.domain, Process(INCIDENT_DOMAIN, s, d).0.domain;
      && r.id !in before.records && -180.0 <= r.longitude <= 180.0 && -90.0 <= r.latitude <= 90.0
      && after.records == before.records[r.id := IncidentRecord(r.status, r.severity, r.description, r.priority, None, 1)]
      && ("EVT-CREATE-" + r.id !in before.twin.seen ==>
            && r.id in after.twin.entities.others.incidents
            && after.twin.entities.others.incidents[r.id].status == r.status
            && after.twin.entities.others.incidents[r.id].report == r.description
            && after.twin.version == before.twin.version + 1)
  {
    AcceptedIff(INCIDENT_DOMAIN, s, d);
    hide Process, Apply, OnOther;
    var r := d.op.payload.report.value;
    if "EVT-CREATE-" + r.id !in s.domain.twin.seen {
      OtherEventMeans(s.domain.twin, CreateEvent(r));
      IncidentCreationMeans(s.domain.twin.entities.others, CreateEvent(r));
    }
  }

  /** An accepted status update moves the record along the lifecycle or keeps it, counts it, and takes the twin along. */
  lemma AcceptedStatusUpdateMeans(s: State<Service, Payload, ()>, d: Delivery<Payload>)
    requires RecordsAreAccepted(s) && Process(INCIDENT_DOMAIN, s, d).1.status == Accepted
    requires d.op.operationType == Update && d.op.entityType == IncidentEntity && d.op.payload.status.Some?
    ensures d.op.payload.status.value.Member? && d.op.entityId in s.domain.records
    ensures var id, to, team := d.op.entityId, d.op.payload.status.value.value, d.op.payload.team;
      var before, after := s.domain, Process(INCIDENT_DOMAIN, s, d).0.domain;
      var was := before.records[id];
      && (to == was.status || Follows(was.status, to))
      && after.records == before.records[id := was.(status := to, version := was.version + 1,
                                                    team := if team.Some? && team.value != "" then team else was.team)]
      && ("EVT-STATUS-" + id + "-v" + IntToString(was.version + 1) !in before.twin.seen ==>
            id in after.twin.entities.others.incidents && after.twin.entities.others.incidents[id].status == to)
  {
    AcceptedIff(INCIDENT_DOMAIN, s, d);
    hide Process, Apply, OnOther, IntToString;
    var id, to := d.op.entityId, d.op.payload.status.value.value;
    var ev := StatusEvent(id, s.domain.records[id].version + 1, to);
    if ev.id !in s.domain.twin.seen {
      OtherEventMeans(s.domain.twin, ev);
      IncidentChangeMeans(s.domain.twin.entities.others, ev);
    }
  }

  /** An accepted detail update sets what it names, counts a change only, and leaves the twin alone. */
  lemma AcceptedDetailUpdateMeans(s: State<Service, Payload, ()>, d: Delivery<Payload>)
    requires RecordsAreAccepted(s) && Process(INCIDENT_DOMAIN, s, d).1.status == Accepted
    requires d.op.operationType == Update && d.op.entityType == IncidentEntity && d.op.payload.status.None?
    ensures d.op.entityId in s.domain.records
    ensures var id, p := d.op.entityId, d.op.payload; var before, after := s.domain, Process(INCIDENT_DOMAIN, s, d).0.domain;
      && after.twin == before.twin && id in after.records && after.records == before.records[id := after.records[id]]
      && var was, now := before.records[id], after.records[id];
         && now.status == was.status && now.team == was.team
         && (if p.severity.Some? then p.severity.value == Member(now.severity) else now.severity == was.severity)
         && now.description == (if p.description.Some? then p.description.value else was.description)
         && now.priority == (if p.priority.Some? then p.priority.value else was.priority)
         && now.version == was.version + (if now.(version := was.version) == was then 0 else 1)
  {
    AcceptedIff(INCIDENT_DOMAIN, s, d);
    hide Process, Apply;
  }

  /** Deleting an existing incident with no base version is reported as accepted and deletes nothing. */
  lemma DeleteIsAcceptedWithoutEffect(s: State<Service, Payload, ()>, d: Delivery<Payload>)
    requires PassesChecks(d) && d.op.id !in s.store && d.op.entityType == IncidentEntity
    requires d.op.operationType == Delete && d.op.baseVersion.None? && d.op.entityId in s.domain.records
    ensures Process(INCIDENT_DOMAIN, s, d).1.status == Accepted
    ensures Process(INCIDENT_DOMAIN, s, d).0.domain == s.domain
  {
  }

  // ---- No lost updates on an incident's own record --------------------------------------------

  /** The incident's own version; 0 before it exists. */
  function OwnVersion(s: Service, id: string): int {
    if id in s.records then s.records[id].version else 0
  }

  /** This delivery is an accepted update of the incident from base b that changes its record. */
  predicate ChangesRecord(s: State<Service, Payload, ()>, d: Delivery<Payload>, id: string, b: int) {
    && d.op.operationType == Update && d.op.entityType == IncidentEntity && d.op.entityId == id && d.op.baseVersion == Some(b)
    && Process(INCIDENT_DOMAIN, s, d).1.status == Accepted
    && Lookup(Process(INCIDENT_DOMAIN, s, d).0.domain.records, id) != Lookup(s.domain.records, id)
  }

  function CountChanges(s: State<Service, Payload, ()>, ds: seq<Delivery<Payload>>, id: string, b: int): nat
    decreases |ds|
  {
    if ds == [] then 0
    else (if ChangesRecord(s, ds[0], id, b) then 1 else 0) + CountChanges(Process(INCIDENT_DOMAIN, s, ds[0]).0, ds[1..], id, b)
  }

  /** A record's version never drops, stays with its content, and starts above 0. */
  lemma MutationsRaiseVersions(s: Service, op: Operation<Payload>, id: string)
    requires forall i :: i in s.records ==> s.records[i].version >= 1
    ensures Mutate(s, op).Some? ==>
      var s' := Mutate(s, op).value;
      && (forall i :: i in s'.records ==> s'.records[i].version >= 1)
      && OwnVersion(s, id) <= OwnVersion(s', id)
      && (Lookup(s'.records, id) != Lookup(s.records, id) ==> OwnVersion(s, id) < OwnVersion(s', id))
  {
    hide Apply;
  }

  /**
    No lost updates, detail updates included, which never move the twin: of the accepted updates of one
    incident that name one base version, at most one changes its record, and none once the record is past it.
  */
  lemma {:induction false} OneChangePerBase(s: State<Service, Payload, ()>, ds: seq<Delivery<Payload>>, id: string, b: int)
    requires RecordsAreAccepted(s) && forall i :: i in s.domain.records ==> s.domain.records[i].version >= 1
    ensures CountChanges(s, ds, id, b) <= if OwnVersion(s.domain, id) <= b then 1 else 0
    decreases |ds|
  {
    if ds != [] {
      var s' := Process(INCIDENT_DOMAIN, s, ds[0]).0;
      StoredIffAccepted(INCIDENT_DOMAIN, s, ds[0]);
      MutationsRaiseVersions(s.domain, ds[0].op, id);
      ProcessMutates(s, ds[0]);
      if ChangesRecord(s, ds[0], id, b) {
        BasedUpdateNeedsBothCounters(s, ds[0]);
      }
      hide Process, Mutate, Apply;
      OneChangePerBase(s', ds[1..], id, b);
    }
  }

  lemma ProcessMutates(s: State<Service, Payload, ()>, d: Delivery<Payload>)
    ensures var s' := Process(INCIDENT_DOMAIN, s, d).0;
            s'.domain == s.domain || (Mutate(s.domain, d.op).Some? && s'.domain == Mutate(s.domain, d.op).value)
  {
    hide Mutate;
  }
}
