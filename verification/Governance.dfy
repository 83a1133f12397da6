/**
  Recommendation governance: a lifecycle behind one lock whose idempotency check happens before the lock
  is taken, modelled as interleaved atomic steps.
*/
module Governance {
  import opened Basics
  import opened Roles

  datatype Status = Pending | Approved | Rejected | Expired

  datatype TargetKind = Zone | RoadTarget | HospitalTarget | ShelterTarget | TeamTarget

  datatype Recommendation = Recommendation(
    id: string,
    source: string,
    status: Status,
    needsHuman: bool,
    kind: TargetKind,
    entityId: string,
    approvedBy: Option<string>)

  datatype AuditKind = WasCreated | WasViewed | WasApproved | WasRejected | WasExpired | WasBlocked

  datatype AuditEvent = AuditEvent(
    kind: AuditKind, actor: string, rec: string, previous: Option<Status>, next: Option<Status>,
    source: string, current: string)

  datatype Decision = Decision(
    rec: string, verdict: Status, decider: Actor, source: string, current: string, key: Option<string>)

  /** Answers of the facility and incident services when asked; None when absent, silent or failing. */
  datatype World = World(
    hospital: Option<(string, int)>, shelter: Option<(string, int)>, incident: Option<string>)

  /** The service and its ledger. `order` is the insertion order of the recommendations. */
  datatype Service = Service(
    recs: map<string, Recommendation>,
    order: seq<string>,
    modes: map<string, string>,
    events: seq<AuditEvent>,
    decisions: seq<Decision>,
    keys: map<string, Decision>)

  datatype Outcome =
    | Returned(rec: Recommendation) | Unauthorized | NotFound | InvalidTransition | PreconditionFailed | Stale

  function StateTag(version: int): string {
    "state-v" + IntToString(version)
  }

  // ---- Ledger and status primitives ------------------------------------------------------

  function Log(s: Service, e: AuditEvent): Service {
    s.(events := s.events + [e])
  }

  function SaveDecision(s: Service, d: Decision): Service {
    s.(decisions := s.decisions + [d],
       keys := if d.key.Some? && d.key.value != "" then s.keys[d.key.value := d] else s.keys)
  }

  function SetStatus(s: Service, r: Recommendation, status: Status): Service {
    s.(recs := s.recs[r.id := r.(status := status)])
  }

  predicate MayMove(from: Status, to: Status) {
    from == Pending && to != Pending
  }

  function ExpiredEvent(r: Recommendation, actor: string, tag: string): AuditEvent {
    AuditEvent(WasExpired, actor, r.id, Some(Pending), Some(Expired), r.source, tag)
  }

  function BlockedEvent(s: Service, id: string, actor: Actor, tag: string): AuditEvent {
    var r := Lookup(s.recs, id);
    AuditEvent(WasBlocked, actor.id, id, if r.Some? then Some(r.value.status) else None,
               if r.Some? then Some(r.value.status) else None, if r.Some? then r.value.source else "unknown", tag)
  }

  // ---- Operations under the lock ------------------------------------------------------------

  /** Saving keeps whatever status the recommendation carries, and logs its creation as PENDING all the same. */
  function Save(s: Service, r: Recommendation, actor: string, mode: string, version: int): Service {
    Log(s.(recs := s.recs[r.id := r],
           order := if r.id in s.recs then s.order else s.order + [r.id],
           modes := s.modes[r.id := mode]),
        AuditEvent(WasCreated, actor, r.id, None, Some(Pending), r.source, StateTag(version)))
  }

  /** A pending recommendation whose source state has passed expires when it is looked at. */
  function ExpireIfStale(s: Service, id: string, version: int): Service {
    if id in s.recs && s.recs[id].status == Pending && s.recs[id].source != StateTag(version) then
      Log(SetStatus(s, s.recs[id], Expired), ExpiredEvent(s.recs[id], "SYSTEM", StateTag(version)))
    else s
  }

  function Get(s: Service, id: string, viewer: Option<Actor>, version: int): Service {
    if id !in s.recs then s
    else
      var looked := ExpireIfStale(s, id, version);
      var r := looked.recs[id];
      if viewer.None? then looked
      else Log(looked, AuditEvent(WasViewed, viewer.value.id, r.id, Some(r.status), Some(r.status), r.source, StateTag(version)))
  }

  function ExpireAllStale(s: Service, ids: seq<string>, version: int): Service {
    if ids == [] then s
    else ExpireIfStale(ExpireAllStale(s, ids[..|ids| - 1], version), ids[|ids| - 1], version)
  }

  function List(s: Service, version: int): Service {
    ExpireAllStale(s, s.order, version)
  }

  /** Facilities must be working and have room; a referenced incident must still be open. */
  predicate PreconditionsHold(r: Recommendation, w: World) {
    && (r.kind == HospitalTarget && w.hospital.Some? ==>
          w.hospital.value.0 !in {"CLOSED", "EVACUATING"} && w.hospital.value.1 > 0)
    && (r.kind == ShelterTarget && w.shelter.Some? ==>
          w.shelter.value.0 !in {"CLOSED", "AT_CAPACITY"} && w.shelter.value.1 > 0)
    && ("INC-" <= r.entityId && w.incident.Some? ==> w.incident.value !in {"RESOLVED", "CANCELLED"})
  }

  predicate IsLiveMode(mode: string) {
    mode != "SIMULATION" && mode != "DEMO"
  }

  function ModeOf(s: Service, id: string): string {
    if id in s.modes then s.modes[id] else "REAL_DATA"
  }

  function Approve(s: Service, id: string, actor: Actor, key: Option<string>, w: World, version: int): (Service, Outcome) {
    var tag := StateTag(version);
    if !MayDecide(actor) then (Log(s, BlockedEvent(s, id, actor, tag)), Unauthorized)
    else if id !in s.recs then (s, NotFound)
    else
      var r := s.recs[id];
      if !MayMove(r.status, Approved) then (s, InvalidTransition)
      else if !r.needsHuman then (s, PreconditionFailed)
      else if r.source != tag then
        var expired := SetStatus(s, r, Expired);
        (Log(Log(expired, BlockedEvent(expired, id, actor, tag)), ExpiredEvent(r, actor.id, tag)), Stale)
      else if !IsLiveMode(ModeOf(s, id)) then (s, PreconditionFailed)
      else if !PreconditionsHold(r, w) then (SetStatus(s, r, Expired), PreconditionFailed)
      else
        var approved := r.(status := Approved, approvedBy := Some(actor.id));
        var logged := Log(s.(recs := s.recs[r.id := approved]),
                          AuditEvent(WasApproved, actor.id, id, Some(r.status), Some(Approved), r.source, tag));
        (SaveDecision(logged, Decision(id, Approved, actor, r.source, tag, key)), Returned(approved))
  }

  function Reject(s: Service, id: string, actor: Actor, key: Option<string>, version: int): (Service, Outcome) {
    var tag := StateTag(version);
    if !MayDecide(actor) then (Log(s, BlockedEvent(s, id, actor, tag)), Unauthorized)
    else if id !in s.recs then (s, NotFound)
    else
      var r := s.recs[id];
      if !MayMove(r.status, Rejected) then (s, InvalidTransition)
      else
        var logged := Log(SetStatus(s, r, Rejected),
                          AuditEvent(WasRejected, actor.id, id, Some(r.status), Some(Rejected), r.source, tag));
        (SaveDecision(logged, Decision(id, Rejected, actor, r.source, tag, key)), Returned(r.(status := Rejected)))
  }

  function Expire(s: Service, id: string, actor: Actor, version: int): (Service, Outcome) {
    if !MayExpire(actor) then (s, Unauthorized)
    else if id !in s.recs then (s, NotFound)
    else if !MayMove(s.recs[id].status, Expired) then (s, InvalidTransition)
    else
      (Log(SetStatus(s, s.recs[id], Expired), ExpiredEvent(s.recs[id], actor.id, StateTag(version))),
       Returned(s.recs[id].(status := Expired)))
  }

  /** The check outside the lock: a decision already recorded under this key for this recommendation. */
  predicate KeyHit(s: Service, id: string, key: Option<string>) {
    key.Some? && key.value != "" && key.value in s.keys && s.keys[key.value].rec == id && id in s.recs
  }

  // ---- Interleaved steps --------------------------------------------------------------------

  datatype Call =
    | ApproveCall(id: string, actor: Actor, key: Option<string>)
    | RejectCall(id: string, actor: Actor, key: Option<string>)

  /** What a recommendation was saved as, and where the ledger stood then. */
  datatype Mark = Mark(saved: Status, decisions: nat, events: nat)

  /** `waiting` holds the calls that missed the key check and have not yet taken the lock. `marks` is a history variable. */
  datatype System = System(service: Service, version: int, waiting: map<nat, Call>, marks: map<string, Mark>)

  datatype Step =
    | SaveStep(rec: Recommendation, creator: string, mode: string)
    | CheckKey(thread: nat, call: Call)
    | TakeLock(thread: nat, world: World)
    | GetStep(id: string, viewer: Option<Actor>)
    | ListStep
    | ExpireStep(id: string, actor: Actor)
    | TwinAdvances(to: int)

  function Locked(s: Service, call: Call, w: World, version: int): (Service, Outcome) {
    match call
    case ApproveCall(id, actor, key) => Approve(s, id, actor, key, w, version)
    case RejectCall(id, actor, key) => Reject(s, id, actor, key, version)
  }

  function Next(y: System, step: Step): System {
    match step
    case SaveStep(r, creator, mode) =>
      y.(service := Save(y.service, r, creator, mode, y.version),
         marks := y.marks[r.id := Mark(r.status, |y.service.decisions|, |y.service.events|)])
    case CheckKey(thread, call) =>
      if thread in y.waiting || KeyHit(y.service, call.id, call.key) then y
      else y.(waiting := y.waiting[thread := call])
    case TakeLock(thread, w) =>
      if thread !in y.waiting then y
      else
        y.(service := Locked(y.service, y.waiting[thread], w, y.version).0, waiting := y.waiting - {thread})
    case GetStep(id, viewer) => y.(service := Get(y.service, id, viewer, y.version))
    case ListStep => y.(service := List(y.service, y.version))
    case ExpireStep(id, actor) => y.(service := Expire(y.service, id, actor, y.version).0)
    case TwinAdvances(to) => y.(version := to)
  }

  function RunSteps(y: System, steps: seq<Step>): System {
    if steps == [] then y else Next(RunSteps(y, steps[..|steps| - 1]), steps[|steps| - 1])
  }

  // ---- What every interleaving keeps ------------------------------------------------------------

  function DecisionsOn(ds: seq<Decision>, id: string): seq<Decision> {
    if ds == [] then []
    else DecisionsOn(ds[..|ds| - 1], id) + if ds[|ds| - 1].rec == id then [ds[|ds| - 1]] else []
  }

  /** The approval and rejection events about a recommendation. */
  function VerdictsOn(es: seq<AuditEvent>, id: string): seq<AuditEvent> {
    if es == [] then []
    else
      var e := es[|es| - 1];
      VerdictsOn(es[..|es| - 1], id) + if e.rec == id && e.kind in {WasApproved, WasRejected} then [e] else []
  }

  predicate IsVerdict(s: Status) {
    s == Approved || s == Rejected
  }

  /** One decision and one audit event, which agree with each other and with the status. */
  ghost predicate Matched(s: Service, r: Recommendation, d: Decision, e: AuditEvent) {
    && d.verdict == r.status && e.next == Some(r.status) && e.previous == Some(Pending)
    && e.kind == (if r.status == Approved then WasApproved else WasRejected)
    && e.actor == d.decider.id && e.source == d.source && e.current == d.current
    && (d.decider.role == Approver || d.decider.role == Commander || d.decider.role == Admin)
    && (r.status == Approved ==>
          && d.source == d.current && r.needsHuman && r.approvedBy == Some(d.decider.id)
          && (r.id in s.modes ==> s.modes[r.id] != "SIMULATION" && s.modes[r.id] != "DEMO"))
  }

  /**
    Since its last save a recommendation has at most one decision and one verdict event, present exactly
    when it was saved pending and is now approved or rejected; and one saved with another status keeps it.
  */
  ghost predicate Governed(s: Service, id: string, m: Mark)
    requires id in s.recs && m.decisions <= |s.decisions| && m.events <= |s.events|
  {
    var r, ds, es := s.recs[id], DecisionsOn(s.decisions[m.decisions..], id), VerdictsOn(s.events[m.events..], id);
    && (m.saved != Pending ==> r.status == m.saved)
    && (if m.saved == Pending && IsVerdict(r.status)
        then |ds| == 1 && |es| == 1 && Matched(s, r, ds[0], es[0])
        else ds == [] && es == [])
  }

  ghost predicate Repeats(ids: seq<string>) {
    exists i, j :: 0 <= i < j < |ids| && ids[i] == ids[j]
  }

  /** `order` lists each stored id once. */
  ghost predicate OrderOk(s: Service) {
    !Repeats(s.order) && forall id :: id in s.order <==> id in s.recs
  }

  ghost predicate SystemOk(y: System) {
    && OrderOk(y.service)
    && y.marks.Keys == y.service.recs.Keys
    && (forall id :: id in y.service.recs ==> y.service.recs[id].id == id)
    && (forall id :: id in y.service.recs ==>
          y.marks[id].decisions <= |y.service.decisions| && y.marks[id].events <= |y.service.events|
          && Governed(y.service, id, y.marks[id]))
  }

  lemma {:induction false} VerdictsOnQuiet(es: seq<AuditEvent>, more: seq<AuditEvent>, id: string)
    requires forall i :: 0 <= i < |more| ==> more[i].kind !in {WasApproved, WasRejected} || more[i].rec != id
    ensures VerdictsOn(es + more, id) == VerdictsOn(es, id)
  {
    if more == [] {
      assert es + more == es;
    } else {
      VerdictsOnQuiet(es, more[..|more| - 1], id);
      assert (es + more)[..|es + more| - 1] == es + more[..|more| - 1];
    }
  }

  lemma {:induction false} DecisionsOnQuiet(ds: seq<Decision>, more: seq<Decision>, id: string)
    requires forall i :: 0 <= i < |more| ==> more[i].rec != id
    ensures DecisionsOn(ds + more, id) == DecisionsOn(ds, id)
  {
    if more == [] {
      assert ds + more == ds;
    } else {
      DecisionsOnQuiet(ds, more[..|more| - 1], id);
      assert (ds + more)[..|ds + more| - 1] == ds + more[..|more| - 1];
    }
  }

  /** From s to s' recommendation `id` kept its record and mode, and no decision or verdict about it was added. */
  ghost predicate Untouched(s: Service, s': Service, id: string) {
    && id in s.recs && id in s'.recs && s'.recs[id] == s.recs[id] && Lookup(s'.modes, id) == Lookup(s.modes, id)
    && NothingDecided(s, s', id)
  }

  ghost predicate NothingDecided(s: Service, s': Service, id: string) {
    && s.decisions <= s'.decisions && s.events <= s'.events
    && (forall i :: |s.decisions| <= i < |s'.decisions| ==> s'.decisions[i].rec != id)
    && (forall i :: |s.events| <= i < |s'.events| ==>
          s'.events[i].kind !in {WasApproved, WasRejected} || s'.events[i].rec != id)
  }

  lemma NothingDecidedKeepsLedgers(s: Service, s': Service, id: string, m: Mark)
    requires NothingDecided(s, s', id) && m.decisions <= |s.decisions| && m.events <= |s.events|
    ensures DecisionsOn(s'.decisions[m.decisions..], id) == DecisionsOn(s.decisions[m.decisions..], id)
    ensures VerdictsOn(s'.events[m.events..], id) == VerdictsOn(s.events[m.events..], id)
  {
    var ds, es := s'.decisions[|s.decisions|..], s'.events[|s.events|..];
    assert s'.decisions == s.decisions + ds && s'.events == s.events + es;
    assert s'.decisions[m.decisions..] == s.decisions[m.decisions..] + ds;
    assert s'.events[m.events..] == s.events[m.events..] + es;
    DecisionsOnQuiet(s.decisions[m.decisions..], ds, id);
    VerdictsOnQuiet(s.events[m.events..], es, id);
  }

  lemma UntouchedStaysGoverned(s: Service, s': Service, id: string, m: Mark)
    requires Untouched(s, s', id) && m.decisions <= |s.decisions| && m.events <= |s.events| && Governed(s, id, m)
    requires s.recs[id].id == id
    ensures Governed(s', id, m)
  {
    NothingDecidedKeepsLedgers(s, s', id, m);
    hide IsLiveMode, ModeOf, DecisionsOn, VerdictsOn, NothingDecided;
  }

  /** Expiring a pending recommendation, with or without events that are not verdicts. */
  lemma ExpiryStaysGoverned(s: Service, s': Service, id: string, m: Mark)
    requires id in s.recs && m.decisions <= |s.decisions| && m.events <= |s.events| && Governed(s, id, m)
    requires s.recs[id].status == Pending && id in s'.recs && s'.recs[id].status == Expired
    requires NothingDecided(s, s', id)
    ensures Governed(s', id, m)
  {
    NothingDecidedKeepsLedgers(s, s', id, m);
  }

  /** Deciding a pending recommendation adds its one decision and its one verdict event. */
  lemma VerdictIsGoverned(s: Service, s': Service, id: string, m: Mark, d: Decision, e: AuditEvent)
    requires id in s.recs && m.decisions <= |s.decisions| && m.events <= |s.events| && Governed(s, id, m)
    requires s.recs[id].status == Pending && id in s'.recs && IsVerdict(s'.recs[id].status)
    requires s'.decisions == s.decisions + [d] && s'.events == s.events + [e]
    requires d.rec == id && e.rec == id && Matched(s', s'.recs[id], d, e)
    ensures Governed(s', id, m)
  {
    assert s'.decisions[m.decisions..] == s.decisions[m.decisions..] + [d];
    assert s'.events[m.events..] == s.events[m.events..] + [e];
    assert (s.decisions[m.decisions..] + [d])[..|s.decisions[m.decisions..]|] == s.decisions[m.decisions..];
    assert (s.events[m.events..] + [e])[..|s.events[m.events..]|] == s.events[m.events..];
  }

  /** An operation about `id` leaves every other recommendation alone. */
  ghost predicate Only(s: Service, s': Service, id: string) {
    s'.recs.Keys == s.recs.Keys && s'.order == s.order && forall x :: x in s.recs && x != id ==> Untouched(s, s', x)
  }

  /** What an operation on `id` may do: nothing, expire it, or decide it. */
  ghost predicate Legal(s: Service, s': Service, id: string) {
    && |s.decisions| <= |s'.decisions| && |s.events| <= |s'.events|
    && Only(s, s', id)
    && (id in s.recs ==>
          || Untouched(s, s', id)
          || (s.recs[id].status == Pending && s'.recs[id] == s.recs[id].(status := Expired) && NothingDecided(s, s', id))
          || (s.recs[id].status == Pending && Decides(s, s', id)))
  }

  ghost predicate Decides(s: Service, s': Service, id: string)
    requires id in s.recs && id in s'.recs
  {
    && IsVerdict(s'.recs[id].status) && s'.recs[id].id == s.recs[id].id
    && |s'.decisions| == |s.decisions| + 1 && |s'.events| == |s.events| + 1
    && var d, e := s'.decisions[|s.decisions|], s'.events[|s.events|];
      && s'.decisions == s.decisions + [d] && s'.events == s.events + [e]
      && d.rec == id && e.rec == id && Matched(s', s'.recs[id], d, e)
  }

  lemma LegalKeepsOk(y: System, y': System, id: string)
    requires SystemOk(y) && y'.marks == y.marks && Legal(y.service, y'.service, id)
    ensures SystemOk(y')
  {
    var s, s' := y.service, y'.service;
    forall x | x in s'.recs ensures s'.recs[x].id == x && Governed(s', x, y.marks[x]) {
      if x != id || Untouched(s, s', x) {
        UntouchedStaysGoverned(s, s', x, y.marks[x]);
      } else if s'.recs[id].status == Expired {
        ExpiryStaysGoverned(s, s', id, y.marks[id]);
      } else {
        VerdictIsGoverned(s, s', id, y.marks[id], s'.decisions[|s.decisions|], s'.events[|s.events|]);
      }
    }
  }

  ghost predicate IdsMatch(s: Service) {
    forall id :: id in s.recs ==> s.recs[id].id == id
  }

  /** Recording one decision on a pending recommendation is a legal move. */
  lemma DecidingIsLegal(s: Service, id: string, decided: Recommendation, d: Decision, e: AuditEvent)
    requires IdsMatch(s) && id in s.recs && s.recs[id].status == Pending && decided.id == id
    requires IsVerdict(decided.status) && d.rec == id && e.rec == id
    requires Matched(s, decided, d, e)
    ensures Legal(s, SaveDecision(Log(s.(recs := s.recs[id := decided]), e), d), id)
  {
    var s' := SaveDecision(Log(s.(recs := s.recs[id := decided]), e), d);
    assert Decides(s, s', id);
  }

  lemma ApproveIsLegal(s: Service, id: string, actor: Actor, key: Option<string>, w: World, version: int)
    requires IdsMatch(s)
    ensures Legal(s, Approve(s, id, actor, key, w, version).0, id)
  {
    var tag := StateTag(version);
    DecidersMayDecide(actor);
    UnsimulatedIsLive(s, id);
    hide StateTag, PreconditionsHold, IsLiveMode, MayDecide, ModeOf;
    if MayDecide(actor) && id in s.recs {
      var r := s.recs[id];
      if r.status == Pending && r.needsHuman && r.source == tag && IsLiveMode(ModeOf(s, id)) && PreconditionsHold(r, w) {
        DecidingIsLegal(s, id, r.(status := Approved, approvedBy := Some(actor.id)),
                        Decision(id, Approved, actor, r.source, tag, key),
                        AuditEvent(WasApproved, actor.id, id, Some(Pending), Some(Approved), r.source, tag));
        hide Legal;
      }
    }
  }

  lemma RejectIsLegal(s: Service, id: string, actor: Actor, key: Option<string>, version: int)
    requires IdsMatch(s)
    ensures Legal(s, Reject(s, id, actor, key, version).0, id)
  {
    var tag := StateTag(version);
    DecidersMayDecide(actor);
    hide StateTag, MayDecide;
    if MayDecide(actor) && id in s.recs {
      var r := s.recs[id];
      if r.status == Pending {
        DecidingIsLegal(s, id, r.(status := Rejected), Decision(id, Rejected, actor, r.source, tag, key),
                        AuditEvent(WasRejected, actor.id, id, Some(Pending), Some(Rejected), r.source, tag));
        hide Legal;
      }
    }
  }

  lemma ExpireIsLegal(s: Service, id: string, actor: Actor, version: int)
    requires IdsMatch(s)
    ensures Legal(s, Expire(s, id, actor, version).0, id)
  {
    hide StateTag;
  }

  lemma ExpireIfStaleIsLegal(s: Service, id: string, version: int)
    requires IdsMatch(s)
    ensures Legal(s, ExpireIfStale(s, id, version), id) && IdsMatch(ExpireIfStale(s, id, version))
  {
    hide StateTag;
  }

  lemma GetIsLegal(s: Service, id: string, viewer: Option<Actor>, version: int)
    requires IdsMatch(s)
    ensures Legal(s, Get(s, id, viewer, version), id)
  {
    hide StateTag;
  }

  lemma {:induction false} ListKeepsOk(y: System, ids: seq<string>)
    requires SystemOk(y)
    ensures SystemOk(y.(service := ExpireAllStale(y.service, ids, y.version)))
  {
    if ids != [] {
      var init := ids[..|ids| - 1];
      ListKeepsOk(y, init);
      var mid := y.(service := ExpireAllStale(y.service, init, y.version));
      ExpireIfStaleIsLegal(mid.service, ids[|ids| - 1], y.version);
      hide SystemOk, Legal;
      LegalKeepsOk(mid, y.(service := ExpireAllStale(y.service, ids, y.version)), ids[|ids| - 1]);
    }
  }

  lemma SaveKeepsWellFormed(s: Service, r: Recommendation, creator: string, mode: string, version: int)
    requires IdsMatch(s) && OrderOk(s)
    ensures IdsMatch(Save(s, r, creator, mode, version)) && OrderOk(Save(s, r, creator, mode, version))
  {
    hide StateTag;
  }

  /** Saving one recommendation leaves every other alone. */
  lemma SaveIsQuiet(s: Service, r: Recommendation, creator: string, mode: string, version: int, x: string)
    requires x in s.recs && x != r.id
    ensures Untouched(s, Save(s, r, creator, mode, version), x)
  {
    hide StateTag;
  }

  lemma SaveKeepsOk(y: System, r: Recommendation, creator: string, mode: string)
    requires SystemOk(y)
    ensures SystemOk(Next(y, SaveStep(r, creator, mode)))
  {
    var y' := Next(y, SaveStep(r, creator, mode));
    var s, s' := y.service, y'.service;
    hide StateTag, IsLiveMode, Governed, Untouched, OrderOk;
    assert OrderOk(s') by {
      assert IdsMatch(s);
      SaveKeepsWellFormed(s, r, creator, mode, y.version);
    }
    forall x | x in s'.recs ensures StoredOk(s', x, y'.marks) {
      if x != r.id {
        SaveIsQuiet(s, r, creator, mode, y.version, x);
        UntouchedStaysGoverned(s, s', x, y.marks[x]);
      } else {
        FreshSaveIsGoverned(s', r.id, y'.marks[r.id]);
      }
    }
  }

  ghost predicate StoredOk(s: Service, id: string, marks: map<string, Mark>)
    requires id in s.recs
  {
    && id in marks && s.recs[id].id == id
    && marks[id].decisions <= |s.decisions| && marks[id].events <= |s.events|
    && Governed(s, id, marks[id])
  }

  /** Right after a save the ledgers hold no verdict on the new incarnation, only its creation. */
  lemma FreshSaveIsGoverned(s: Service, id: string, m: Mark)
    requires id in s.recs && m.saved == s.recs[id].status
    requires m.decisions == |s.decisions| && m.events + 1 == |s.events| && s.events[m.events].kind == WasCreated
    ensures Governed(s, id, m)
  {
    assert s.decisions[m.decisions..] == [];
    var es := s.events[m.events..];
    assert es == [s.events[m.events]] && es[..0] == [];
  }

  lemma LockedIsLegal(s: Service, call: Call, w: World, version: int)
    requires IdsMatch(s)
    ensures Legal(s, Locked(s, call, w, version).0, call.id)
  {
    match call
    case ApproveCall(id, actor, key) => ApproveIsLegal(s, id, actor, key, w, version);
    case RejectCall(id, actor, key) => RejectIsLegal(s, id, actor, key, version);
  }

  lemma SameServiceStaysOk(y: System, y': System)
    requires SystemOk(y) && y'.service == y.service && y'.marks == y.marks
    ensures SystemOk(y')
  {
  }

  lemma NextKeepsOk(y: System, step: Step)
    requires SystemOk(y)
    ensures SystemOk(Next(y, step))
  {
    assert IdsMatch(y.service);
    hide SystemOk, Locked, Get, Expire, Legal, IdsMatch;
    match step
    case SaveStep(r, creator, mode) =>
      SaveKeepsOk(y, r, creator, mode);
    case CheckKey(thread, call) =>
      SameServiceStaysOk(y, Next(y, step));
    case TakeLock(thread, w) =>
      if thread in y.waiting {
        LockedIsLegal(y.service, y.waiting[thread], w, y.version);
        LegalKeepsOk(y, Next(y, step), y.waiting[thread].id);
      }
    case GetStep(id, viewer) =>
      GetIsLegal(y.service, id, viewer, y.version);
      LegalKeepsOk(y, Next(y, step), id);
    case ListStep =>
      ListKeepsOk(y, y.service.order);
    case ExpireStep(id, actor) =>
      ExpireIsLegal(y.service, id, actor, y.version);
      LegalKeepsOk(y, Next(y, step), id);
    case TwinAdvances(to) =>
      SameServiceStaysOk(y, Next(y, step));
  }

  /** A service with nothing stored, no call waiting. */
  const EMPTY := System(Service(map[], [], map[], [], [], map[]), 0, map[], map[])

  /**
    In every interleaving, with the key check outside the lock: each recommendation has, since its last
    save, at most one decision record and one verdict event, present exactly when it was saved pending and
    is now approved or rejected; they name the same authorised actor and the same verdict; and an approval
    was taken at the recommendation's own source version outside simulation modes.
  */
  lemma {:induction false} EveryInterleavingIsGoverned(y: System, steps: seq<Step>)
    requires SystemOk(y)
    ensures SystemOk(RunSteps(y, steps))
  {
    if steps != [] {
      EveryInterleavingIsGoverned(y, steps[..|steps| - 1]);
      NextKeepsOk(RunSteps(y, steps[..|steps| - 1]), steps[|steps| - 1]);
    }
  }

  lemma FromEmpty(steps: seq<Step>)
    ensures SystemOk(RunSteps(EMPTY, steps))
  {
    EveryInterleavingIsGoverned(EMPTY, steps);
  }

  lemma LegalLeavesSettled(s: Service, s': Service, target: string, id: string)
    requires Legal(s, s', target) && id in s.recs && s.recs[id].status != Pending
    ensures id in s'.recs && s'.recs[id] == s.recs[id]
  {
    hide NothingDecided, Decides;
  }

  /** No step but a save of the same id moves a recommendation that is not pending. */
  lemma SettledStays(y: System, step: Step, id: string)
    requires SystemOk(y) && id in y.service.recs && y.service.recs[id].status != Pending
    requires !(step.SaveStep? && step.rec.id == id)
    ensures id in Next(y, step).service.recs && Next(y, step).service.recs[id] == y.service.recs[id]
  {
    var s := y.service;
    assert IdsMatch(s);
    hide Legal, Locked, Get, Expire, IdsMatch, Governed, StateTag;
    match step
    case SaveStep(r, creator, mode) =>
    case CheckKey(thread, call) =>
    case TakeLock(thread, w) =>
      if thread in y.waiting {
        var call := y.waiting[thread];
        LockedIsLegal(s, call, w, y.version);
        LegalLeavesSettled(s, Locked(s, call, w, y.version).0, call.id, id);
      }
    case GetStep(x, viewer) =>
      GetIsLegal(s, x, viewer, y.version);
      LegalLeavesSettled(s, Get(s, x, viewer, y.version), x, id);
    case ListStep =>
      ListLeavesSettled(y, s.order, id);
    case ExpireStep(x, actor) =>
      ExpireIsLegal(s, x, actor, y.version);
      LegalLeavesSettled(s, Expire(s, x, actor, y.version).0, x, id);
    case TwinAdvances(to) =>
  }

  lemma {:induction false} ListLeavesSettled(y: System, ids: seq<string>, id: string)
    requires SystemOk(y) && id in y.service.recs && y.service.recs[id].status != Pending
    ensures var s' := ExpireAllStale(y.service, ids, y.version);
            id in s'.recs && s'.recs[id] == y.service.recs[id]
  {
    if ids != [] {
      ListLeavesSettled(y, ids[..|ids| - 1], id);
      ListKeepsOk(y, ids[..|ids| - 1]);
      hide StateTag, Governed;
    }
  }

  /** A recommendation leaves PENDING at most once until its id is saved again. */
  lemma {:induction false} LeavesPendingOnce(y: System, steps: seq<Step>, id: string)
    requires SystemOk(y) && id in y.service.recs && y.service.recs[id].status != Pending
    requires forall i :: 0 <= i < |steps| ==> !(steps[i].SaveStep? && steps[i].rec.id == id)
    ensures id in RunSteps(y, steps).service.recs && RunSteps(y, steps).service.recs[id] == y.service.recs[id]
  {
    if steps != [] {
      var init := steps[..|steps| - 1];
      LeavesPendingOnce(y, init, id);
      EveryInterleavingIsGoverned(y, init);
      SettledStays(RunSteps(y, init), steps[|steps| - 1], id);
    }
  }

  /** Calls under this key are all about one recommendation. */
  predicate KeyIsFor(call: Call, key: string, id: string) {
    call.key == Some(key) ==> call.id == id
  }

  ghost predicate KeyReserved(y: System, key: string, id: string) {
    forall thread :: thread in y.waiting ==> KeyIsFor(y.waiting[thread], key, id)
  }

  lemma LockedKeepsHit(s: Service, call: Call, w: World, version: int, key: string, id: string)
    requires KeyHit(s, id, Some(key)) && KeyIsFor(call, key, id)
    ensures KeyHit(Locked(s, call, w, version).0, id, Some(key))
  {
    hide StateTag, PreconditionsHold, IsLiveMode, MayDecide;
  }

  lemma {:induction false} ExpiryKeepsHit(s: Service, ids: seq<string>, version: int, key: string, id: string)
    requires KeyHit(s, id, Some(key))
    ensures KeyHit(ExpireAllStale(s, ids, version), id, Some(key))
  {
    if ids != [] {
      ExpiryKeepsHit(s, ids[..|ids| - 1], version, key, id);
      hide StateTag;
    }
  }

  lemma NextKeepsHit(y: System, step: Step, key: string, id: string)
    requires KeyHit(y.service, id, Some(key)) && KeyReserved(y, key, id)
    requires step.CheckKey? ==> KeyIsFor(step.call, key, id)
    ensures KeyHit(Next(y, step).service, id, Some(key)) && KeyReserved(Next(y, step), key, id)
  {
    hide StateTag, Locked, ExpireAllStale;
    match step
    case TakeLock(thread, w) =>
      if thread in y.waiting {
        LockedKeepsHit(y.service, y.waiting[thread], w, y.version, key, id);
      }
    case ListStep =>
      ExpiryKeepsHit(y.service, y.service.order, y.version, key, id);
    case _ =>
  }

  /** A key that is hit stays hit in every interleaving in which no call uses it for another recommendation. */
  lemma {:induction false} HitsStay(y: System, steps: seq<Step>, key: string, id: string)
    requires KeyHit(y.service, id, Some(key)) && KeyReserved(y, key, id)
    requires forall i :: 0 <= i < |steps| && steps[i].CheckKey? ==> KeyIsFor(steps[i].call, key, id)
    ensures KeyHit(RunSteps(y, steps).service, id, Some(key)) && KeyReserved(RunSteps(y, steps), key, id)
  {
    if steps != [] {
      var init := steps[..|steps| - 1];
      HitsStay(y, init, key, id);
      NextKeepsHit(RunSteps(y, init), steps[|steps| - 1], key, id);
      hide KeyHit, KeyReserved, Next;
    }
  }

  /**
    After a decision under a key, a retry with that key is answered without reaching the lock, in every
    later interleaving in which no call uses the key for another recommendation.
  */
  lemma DecidedKeyStaysHit(y: System, thread: nat, call: Call, w: World, steps: seq<Step>, retry: nat)
    requires IdsMatch(y.service) && call.key.Some? && call.key.value != "" && thread in y.waiting && y.waiting[thread] == call
    requires Locked(y.service, call, w, y.version).1.Returned? && KeyReserved(y, call.key.value, call.id)
    requires forall i :: 0 <= i < |steps| && steps[i].CheckKey? ==> KeyIsFor(steps[i].call, call.key.value, call.id)
    ensures var y' := RunSteps(Next(y, TakeLock(thread, w)), steps); Next(y', CheckKey(retry, call)) == y'
  {
    DecisionHits(y, thread, call, w);
    HitsStay(Next(y, TakeLock(thread, w)), steps, call.key.value, call.id);
    hide KeyHit, KeyReserved, Locked, RunSteps;
  }

  lemma DecisionHits(y: System, thread: nat, call: Call, w: World)
    requires IdsMatch(y.service) && call.key.Some? && call.key.value != "" && thread in y.waiting && y.waiting[thread] == call
    requires Locked(y.service, call, w, y.version).1.Returned? && KeyReserved(y, call.key.value, call.id)
    ensures var y' := Next(y, TakeLock(thread, w));
            KeyHit(y'.service, call.id, call.key) && KeyReserved(y', call.key.value, call.id)
  {
    hide StateTag, PreconditionsHold, IsLiveMode, MayDecide;
  }

  lemma SettledCallIsRefused(s: Service, call: Call, w: World, version: int)
    requires MayDecide(call.actor) && call.id in s.recs && s.recs[call.id].status != Pending
    ensures Locked(s, call, w, version) == (s, InvalidTransition)
  {
  }

  lemma DecidedIsSettled(s: Service, call: Call, w: World, version: int)
    requires IdsMatch(s) && Locked(s, call, w, version).1.Returned?
    ensures var s' := Locked(s, call, w, version).0; call.id in s'.recs && s'.recs[call.id].status != Pending
  {
    hide StateTag, PreconditionsHold, IsLiveMode, MayDecide;
  }

  /**
    A retry that passed the unlocked check before the decision was recorded is not answered from it: until
    the id is saved again, the lock refuses every authorised call on a decided recommendation, under
    whatever key, and changes nothing.
  */
  lemma LateRetryIsRefused(y: System, thread: nat, call: Call, w: World, steps: seq<Step>, late: nat, w': World)
    requires SystemOk(y) && thread in y.waiting && y.waiting[thread] == call
    requires Locked(y.service, call, w, y.version).1.Returned?
    requires forall i :: 0 <= i < |steps| ==> !(steps[i].SaveStep? && steps[i].rec.id == call.id)
    ensures var y' := RunSteps(Next(y, TakeLock(thread, w)), steps);
            late in y'.waiting && y'.waiting[late].id == call.id && MayDecide(y'.waiting[late].actor) ==>
              Locked(y'.service, y'.waiting[late], w', y'.version) == (y'.service, InvalidTransition)
              && Next(y', TakeLock(late, w')) == y'.(waiting := y'.waiting - {late})
  {
    hide Locked, MayDecide, RunSteps, Governed, OrderOk;
    var decided := Next(y, TakeLock(thread, w));
    assert IdsMatch(y.service);
    hide SystemOk, IdsMatch;
    DecidedIsSettled(y.service, call, w, y.version);
    NextKeepsOk(y, TakeLock(thread, w));
    LeavesPendingOnce(decided, steps, call.id);
    var y' := RunSteps(decided, steps);
    if late in y'.waiting && y'.waiting[late].id == call.id && MayDecide(y'.waiting[late].actor) {
      SettledCallIsRefused(y'.service, y'.waiting[late], w', y'.version);
    }
  }

  /** After the id is saved again as PENDING, the old key still hits, and the call is answered with the pending recommendation. */
  lemma ResavedKeyAnswersPending(y: System, r: Recommendation, creator: string, mode: string, call: Call, retry: nat)
    requires call.id == r.id && KeyHit(y.service, call.id, call.key) && r.status == Pending
    ensures var y' := Next(y, SaveStep(r, creator, mode));
            && KeyHit(y'.service, call.id, call.key) && y'.service.recs[call.id].status == Pending
            && Next(y', CheckKey(retry, call)) == y'
  {
    hide StateTag;
  }

  /** A recommendation saved with another status keeps it, while its creation is logged as PENDING. */
  lemma SavedStatusIsMisreported(s: Service, r: Recommendation, creator: string, mode: string, version: int)
    requires r.status != Pending
    ensures var s' := Save(s, r, creator, mode, version);
            && s'.recs[r.id].status == r.status
            && |s'.events| > 0 && s'.events[|s'.events| - 1].rec == r.id && s'.events[|s'.events| - 1].next == Some(Pending)
  {
    hide StateTag;
  }

  /** A failed operational precondition expires the recommendation without leaving any audit event. */
  lemma FailedPreconditionExpiresSilently(s: Service, id: string, actor: Actor, key: Option<string>, w: World, version: int)
    requires IdsMatch(s) && MayDecide(actor) && id in s.recs && s.recs[id].status == Pending && s.recs[id].needsHuman
    requires s.recs[id].source == StateTag(version) && IsLiveMode(ModeOf(s, id)) && !PreconditionsHold(s.recs[id], w)
    ensures var (s', out) := Approve(s, id, actor, key, w, version);
            && out == PreconditionFailed && s'.recs[id].status == Expired
            && s'.events == s.events && s'.decisions == s.decisions
  {
  }

  // ---- What each call means --------------------------------------------------------------------

  /** Roles that may approve and reject. */
  predicate IsDecider(a: Actor) {
    a.role == Approver || a.role == Commander || a.role == Admin
  }

  /** Something outside the service stands in the way: a facility that is closing or full, or an incident that is over. */
  predicate Hindered(r: Recommendation, w: World) {
    || (r.kind == HospitalTarget && w.hospital.Some?
        && (w.hospital.value.0 == "CLOSED" || w.hospital.value.0 == "EVACUATING" || w.hospital.value.1 <= 0))
    || (r.kind == ShelterTarget && w.shelter.Some?
        && (w.shelter.value.0 == "CLOSED" || w.shelter.value.0 == "AT_CAPACITY" || w.shelter.value.1 <= 0))
    || (|r.entityId| >= 4 && r.entityId[..4] == "INC-" && w.incident.Some?
        && (w.incident.value == "RESOLVED" || w.incident.value == "CANCELLED"))
  }

  predicate OnlySimulated(s: Service, id: string) {
    id in s.modes && (s.modes[id] == "SIMULATION" || s.modes[id] == "DEMO")
  }

  /** The refused attempt is logged with the status and source of what was there, and nothing else changes. */
  ghost predicate OnlyLoggedRefusal(s: Service, s': Service, id: string, actor: Actor, version: int) {
    var found := id in s.recs;
    var status := if found then Some(s.recs[id].status) else None;
    s' == s.(events := s.events + [AuditEvent(WasBlocked, actor.id, id, status, status,
                                              if found then s.recs[id].source else "unknown",
                                              "state-v" + IntToString(version))])
  }

  /** The recommendation has expired, these events were logged, and nothing else of the service changed. */
  ghost predicate OnlyExpired(s: Service, s': Service, id: string, events: seq<AuditEvent>)
    requires id in s.recs
  {
    s' == s.(recs := s.recs[id := s.recs[id].(status := Expired)], events := s.events + events)
  }

  /** The verdict is recorded once: in the status, as a decision, under the key if there is one, and in the log. */
  ghost predicate Decided(s: Service, s': Service, id: string, verdict: Status, actor: Actor, key: Option<string>, tag: string)
    requires id in s.recs
  {
    var d := Decision(id, verdict, actor, s.recs[id].source, tag, key);
    && id in s'.recs && s'.recs == s.recs[id := s'.recs[id]]
    && s'.recs[id] == s.recs[id].(status := verdict, approvedBy := if verdict == Approved then Some(actor.id) else s.recs[id].approvedBy)
    && s'.order == s.order && s'.modes == s.modes
    && s'.decisions == s.decisions + [d]
    && s'.keys == (if key.Some? && key.value != "" then s.keys[key.value := d] else s.keys)
    && s'.events == s.events + [AuditEvent(if verdict == Approved then WasApproved else WasRejected, actor.id, id,
                                           Some(Pending), Some(verdict), s.recs[id].source, tag)]
  }

  /** Every way an approval can end, when it does, and what it leaves. */
  lemma ApproveMeans(s: Service, id: string, actor: Actor, key: Option<string>, w: World, version: int)
    requires IdsMatch(s)
    ensures var (s', out) := Approve(s, id, actor, key, w, version);
      if !IsDecider(actor) then out == Unauthorized && OnlyLoggedRefusal(s, s', id, actor, version)
      else if id !in s.recs then out == NotFound && s' == s
      else if s.recs[id].status != Pending then out == InvalidTransition && s' == s
      else if !s.recs[id].needsHuman then out == PreconditionFailed && s' == s
      else PendingApproval(s, id, actor, key, w, "state-v" + IntToString(version), s', out)
  {
    DecidersMayDecide(actor);
    hide IntToString, MayDecide, IsDecider, PreconditionsHold, IsLiveMode, ModeOf, PendingApproval;
    if MayDecide(actor) && id in s.recs && s.recs[id].status == Pending && s.recs[id].needsHuman {
      PendingApprovalMeans(s, id, actor, key, w, version);
    }
  }

  /** How the approval of a pending recommendation that needs a human ends. */
  ghost predicate PendingApproval(s: Service, id: string, actor: Actor, key: Option<string>, w: World, tag: string,
                                  s': Service, out: Outcome)
    requires id in s.recs
  {
    var r := s.recs[id];
    if r.source != tag then
      && out == Stale
      && OnlyExpired(s, s', id, [AuditEvent(WasBlocked, actor.id, id, Some(Expired), Some(Expired), r.source, tag),
                                 AuditEvent(WasExpired, actor.id, id, Some(Pending), Some(Expired), r.source, tag)])
    else if OnlySimulated(s, id) then out == PreconditionFailed && s' == s
    else if Hindered(r, w) then out == PreconditionFailed && OnlyExpired(s, s', id, [])
    else Decided(s, s', id, Approved, actor, key, tag) && out == Returned(s'.recs[id])
  }

  lemma PendingApprovalMeans(s: Service, id: string, actor: Actor, key: Option<string>, w: World, version: int)
    requires IdsMatch(s) && MayDecide(actor) && id in s.recs && s.recs[id].status == Pending && s.recs[id].needsHuman
    ensures var (s', out) := Approve(s, id, actor, key, w, version);
            PendingApproval(s, id, actor, key, w, "state-v" + IntToString(version), s', out)
  {
    UnsimulatedIsLive(s, id);
    UnhinderedMayProceed(s.recs[id], w);
    hide IntToString, MayDecide, PreconditionsHold, Hindered, IsLiveMode, ModeOf, OnlySimulated;
  }

  lemma DecidersMayDecide(a: Actor)
    ensures MayDecide(a) <==> IsDecider(a)
  {
  }

  lemma UnsimulatedIsLive(s: Service, id: string)
    ensures IsLiveMode(ModeOf(s, id)) <==> !OnlySimulated(s, id)
  {
  }

  lemma UnhinderedMayProceed(r: Recommendation, w: World)
    ensures PreconditionsHold(r, w) <==> !Hindered(r, w)
  {
    assert "INC-" <= r.entityId <==> |r.entityId| >= 4 && r.entityId[..4] == "INC-";
  }

  /** An approval succeeds exactly under these conditions, and only then adds a decision. */
  lemma ApprovalSucceedsIff(s: Service, id: string, actor: Actor, key: Option<string>, w: World, version: int)
    requires IdsMatch(s)
    ensures var (s', out) := Approve(s, id, actor, key, w, version);
            && (out.Returned? <==>
                  && IsDecider(actor) && id in s.recs && s.recs[id].status == Pending && s.recs[id].needsHuman
                  && s.recs[id].source == "state-v" + IntToString(version)
                  && !OnlySimulated(s, id) && !Hindered(s.recs[id], w))
            && |s'.decisions| == |s.decisions| + (if out.Returned? then 1 else 0)
  {
    ApproveMeans(s, id, actor, key, w, version);
    hide Approve, IsDecider, Hindered, OnlySimulated, IntToString;
  }

  lemma RejectMeans(s: Service, id: string, actor: Actor, key: Option<string>, version: int)
    requires IdsMatch(s)
    ensures var (s', out) := Reject(s, id, actor, key, version);
      if !IsDecider(actor) then out == Unauthorized && OnlyLoggedRefusal(s, s', id, actor, version)
      else if id !in s.recs then out == NotFound && s' == s
      else if s.recs[id].status != Pending then out == InvalidTransition && s' == s
      else Decided(s, s', id, Rejected, actor, key, "state-v" + IntToString(version)) && out == Returned(s'.recs[id])
  {
    hide IntToString;
  }

  /** Only commanders and admins expire by hand, and only what is pending. */
  lemma ExpireMeans(s: Service, id: string, actor: Actor, version: int)
    requires IdsMatch(s)
    ensures var (s', out) := Expire(s, id, actor, version);
      if actor.role != Commander && actor.role != Admin then out == Unauthorized && s' == s
      else if id !in s.recs then out == NotFound && s' == s
      else if s.recs[id].status != Pending then out == InvalidTransition && s' == s
      else
        && out == Returned(s'.recs[id])
        && OnlyExpired(s, s', id, [AuditEvent(WasExpired, actor.id, id, Some(Pending), Some(Expired), s.recs[id].source,
                                              "state-v" + IntToString(version))])
  {
    hide IntToString;
  }

  /** A recommendation as a look at this version leaves it: expired if it was pending for another state. */
  function Looked(r: Recommendation, version: int): Recommendation {
    if r.status == Pending && r.source != "state-v" + IntToString(version) then r.(status := Expired) else r
  }

  /** Looking expires what is stale and logs that, and logs the view of a viewer who names themselves. */
  lemma GetMeans(s: Service, id: string, viewer: Option<Actor>, version: int)
    requires IdsMatch(s)
    ensures var s' := Get(s, id, viewer, version);
      if id !in s.recs then s' == s
      else
        var (r, now) := (s.recs[id], Looked(s.recs[id], version));
        var tag := "state-v" + IntToString(version);
        s' == s.(recs := s.recs[id := now],
                 events := s.events
                 + (if now != r then [AuditEvent(WasExpired, "SYSTEM", id, Some(Pending), Some(Expired), r.source, tag)] else [])
                 + (if viewer.Some? then [AuditEvent(WasViewed, viewer.value.id, id, Some(now.status), Some(now.status), r.source, tag)] else []))
  {
    hide IntToString;
  }

  /** Listing looks at every recommendation: afterwards none is pending for another state. */
  lemma ListMeans(s: Service, version: int, id: string)
    requires IdsMatch(s) && OrderOk(s) && id in s.recs
    ensures var s' := List(s, version);
      && s'.recs.Keys == s.recs.Keys && s'.recs[id] == Looked(s.recs[id], version)
      && s'.decisions == s.decisions && s'.keys == s.keys && s'.order == s.order && s'.modes == s.modes
  {
    LookedAtAll(s, s.order, version, id);
    hide IntToString, Looked;
  }

  lemma {:induction false} LookedAtAll(s: Service, ids: seq<string>, version: int, id: string)
    requires IdsMatch(s) && id in s.recs
    ensures var s' := ExpireAllStale(s, ids, version);
      && IdsMatch(s') && s'.recs.Keys == s.recs.Keys
      && s'.recs[id] == (if id in ids then Looked(s.recs[id], version) else s.recs[id])
      && s'.decisions == s.decisions && s'.keys == s.keys && s'.order == s.order && s'.modes == s.modes
  {
    if ids != [] {
      var init, last := ids[..|ids| - 1], ids[|ids| - 1];
      LookedAtAll(s, init, version, id);
      assert ids == init + [last];
      hide IntToString;
    }
  }

  /** Saving stores the recommendation as it is, under its mode, and logs its creation. */
  lemma SaveMeans(s: Service, r: Recommendation, creator: string, mode: string, version: int)
    ensures var s' := Save(s, r, creator, mode, version);
      && s'.recs == s.recs[r.id := r] && s'.modes == s.modes[r.id := mode]
      && s'.order == (if r.id in s.recs then s.order else s.order + [r.id])
      && s'.decisions == s.decisions && s'.keys == s.keys
      && s'.events == s.events + [AuditEvent(WasCreated, creator, r.id, None, Some(Pending), r.source, "state-v" + IntToString(version))]
  {
  }

  // ---- Listing ----------------------------------------------------------------------------------

  lemma DistinctFromEarlier(ids: seq<string>, i: nat)
    requires i < |ids| && !Repeats(ids)
    ensures ids[i] !in ids[..i]
  {
  }

  /** The stored recommendations with the requested status, in the order of their ids. */
  function Matching(recs: map<string, Recommendation>, ids: seq<string>, status: Option<Status>): seq<Recommendation> {
    if ids == [] then []
    else
      var last := ids[|ids| - 1];
      Matching(recs, ids[..|ids| - 1], status)
      + if last in recs && (status.None? || recs[last].status == status.value) then [recs[last]] else []
  }

  lemma {:induction false} MatchingIgnoresOthers(
      recs: map<string, Recommendation>, after: map<string, Recommendation>, ids: seq<string>, status: Option<Status>)
    requires forall id :: id in ids ==> Lookup(recs, id) == Lookup(after, id)
    ensures Matching(recs, ids, status) == Matching(after, ids, status)
  {
    if ids != [] {
      MatchingIgnoresOthers(recs, after, ids[..|ids| - 1], status);
      assert ids[|ids| - 1] in ids;
    }
  }

  /** A listing finds exactly the stored recommendations of that status among the listed ids. */
  lemma {:induction false} MatchingFinds(
      recs: map<string, Recommendation>, ids: seq<string>, status: Option<Status>, r: Recommendation)
    ensures r in Matching(recs, ids, status) <==>
            exists id :: id in ids && id in recs && recs[id] == r && (status.None? || r.status == status.value)
  {
    if ids != [] {
      var init, last := ids[..|ids| - 1], ids[|ids| - 1];
      MatchingFinds(recs, init, status, r);
      assert ids == init + [last];
    }
  }

  // ---- The mutable service --------------------------------------------------------------------

  class RecommendationService {
    var recs: map<string, Recommendation>
    var order: seq<string>
    var modes: map<string, string>
    var events: seq<AuditEvent>
    var decisions: seq<Decision>
    var keys: map<string, Decision>

    ghost function View(): Service
      reads this
    {
      Service(recs, order, modes, events, decisions, keys)
    }

    /** Records are filed under their own ids, and `order` lists each once. */
    ghost predicate Valid()
      reads this
    {
      IdsMatch(View()) && OrderOk(View())
    }

    constructor ()
      ensures Valid() && View() == EMPTY.service
    {
      recs, order, modes, events, decisions, keys := map[], [], map[], [], [], map[];
    }

    method AppendEvent(e: AuditEvent)
      modifies this`events
      ensures View() == Log(old(View()), e)
    {
      events := events + [e];
    }

    method SaveDecisionRecord(d: Decision)
      modifies this`decisions, this`keys
      ensures View() == SaveDecision(old(View()), d)
    {
      decisions := decisions + [d];
      if d.key.Some? && d.key.value != "" {
        keys := keys[d.key.value := d];
      }
    }

    method SaveRecommendation(r: Recommendation, creator: string, mode: string, version: int)
      requires Valid()
      modifies this
      ensures Valid()
      ensures View() == Save(old(View()), r, creator, mode, version)
    {
      if r.id !in recs {
        order := order + [r.id];
      }
      recs := recs[r.id := r];
      modes := modes[r.id := mode];
      AppendEvent(AuditEvent(WasCreated, creator, r.id, None, Some(Pending), r.source, StateTag(version)));
    }

    method ExpireIfStaleNow(id: string, version: int)
      requires Valid()
      modifies this
      ensures Valid()
      ensures View() == ExpireIfStale(old(View()), id, version)
      ensures order == old(order)
      ensures forall x :: x != id ==> Lookup(recs, x) == Lookup(old(recs), x)
    {
      if id in recs && recs[id].status == Pending && recs[id].source != StateTag(version) {
        var r := recs[id];
        recs := recs[r.id := r.(status := Expired)];
        AppendEvent(ExpiredEvent(r, "SYSTEM", StateTag(version)));
      }
    }

    method GetRecommendation(id: string, viewer: Option<Actor>, version: int) returns (r: Option<Recommendation>)
      requires Valid()
      modifies this
      ensures Valid()
      ensures View() == Get(old(View()), id, viewer, version)
      ensures r == Lookup(View().recs, id)
    {
      if id !in recs {
        return None;
      }
      ExpireIfStaleNow(id, version);
      if viewer.Some? {
        AppendEvent(AuditEvent(WasViewed, viewer.value.id, recs[id].id, Some(recs[id].status), Some(recs[id].status),
                               recs[id].source, StateTag(version)));
      }
      return Some(recs[id]);
    }

    /** Expires every stale pending recommendation, and returns all those with the requested status, in order. */
    method ListRecommendations(status: Option<Status>, version: int) returns (found: seq<Recommendation>)
      requires Valid()
      modifies this
      ensures Valid()
      ensures View() == List(old(View()), version)
      ensures found == Matching(recs, order, status)
    {
      found := [];
      hide ExpireIfStale, IdsMatch, Repeats;
      for i := 0 to |order|
        invariant order == old(order) && Valid()
        invariant View() == ExpireAllStale(old(View()), order[..i], version)
        invariant found == Matching(recs, order[..i], status)
      {
        assert order[..i + 1][..i] == order[..i];
        ghost var before := recs;
        ExpireIfStaleNow(order[i], version);
        if order[i] in recs && (status.None? || recs[order[i]].status == status.value) {
          found := found + [recs[order[i]]];
        }
        DistinctFromEarlier(order, i);
        MatchingIgnoresOthers(before, recs, order[..i], status);
      }
      assert order[..|order|] == order;
    }

    /** The unlocked check. */
    method CheckIdempotencyKey(id: string, key: Option<string>) returns (cached: Option<Recommendation>)
      ensures cached == if KeyHit(View(), id, key) then Some(recs[id]) else None
      ensures cached.Some? <==>
                key.Some? && key.value != "" && key.value in keys && keys[key.value].rec == id && id in recs
    {
      if key.Some? && key.value != "" && key.value in keys && keys[key.value].rec == id && id in recs {
        return Some(recs[id]);
      }
      return None;
    }

    /** The locked part of an approval. */
    method ApproveLocked(id: string, actor: Actor, key: Option<string>, w: World, version: int) returns (out: Outcome)
      requires Valid()
      modifies this
      ensures Valid()
      ensures View() == Approve(old(View()), id, actor, key, w, version).0
      ensures out == Approve(old(View()), id, actor, key, w, version).1
    {
      var tag := StateTag(version);
      if !MayDecide(actor) {
        var seen := Lookup(recs, id);
        AppendEvent(AuditEvent(WasBlocked, actor.id, id, if seen.Some? then Some(seen.value.status) else None,
                               if seen.Some? then Some(seen.value.status) else None,
                               if seen.Some? then seen.value.source else "unknown", tag));
        return Unauthorized;
      }
      if id !in recs {
        return NotFound;
      }
      var r := recs[id];
      if !MayMove(r.status, Approved) {
        return InvalidTransition;
      }
      if !r.needsHuman {
        return PreconditionFailed;
      }
      if r.source != tag {
        recs := recs[id := r.(status := Expired)];
        AppendEvent(AuditEvent(WasBlocked, actor.id, id, Some(Expired), Some(Expired), r.source, tag));
        AppendEvent(ExpiredEvent(r, actor.id, tag));
        return Stale;
      }
      var mode := if id in modes then modes[id] else "REAL_DATA";
      if mode == "SIMULATION" || mode == "DEMO" {
        return PreconditionFailed;
      }
      if !PreconditionsHold(r, w) {
        recs := recs[id := r.(status := Expired)];
        return PreconditionFailed;
      }
      var approved := r.(status := Approved, approvedBy := Some(actor.id));
      recs := recs[id := approved];
      AppendEvent(AuditEvent(WasApproved, actor.id, id, Some(r.status), Some(Approved), r.source, tag));
      SaveDecisionRecord(Decision(id, Approved, actor, r.source, tag, key));
      return Returned(approved);
    }

    /** A sequential approval: a key hit answers from the store, anything else takes the lock. */
    method ApproveRecommendation(id: string, actor: Actor, key: Option<string>, w: World, version: int) returns (out: Outcome)
      requires Valid()
      modifies this
      ensures Valid()
      ensures KeyHit(old(View()), id, key) ==> View() == old(View()) && out == Returned(recs[id])
      ensures !KeyHit(old(View()), id, key) ==> View() == Approve(old(View()), id, actor, key, w, version).0
      ensures !KeyHit(old(View()), id, key) ==> out == Approve(old(View()), id, actor, key, w, version).1
    {
      var cached := CheckIdempotencyKey(id, key);
      if cached.Some? {
        return Returned(cached.value);
      }
      out := ApproveLocked(id, actor, key, w, version);
    }

    /** The locked part of a rejection. */
    method RejectLocked(id: string, actor: Actor, key: Option<string>, version: int) returns (out: Outcome)
      requires Valid()
      modifies this
      ensures Valid()
      ensures View() == Reject(old(View()), id, actor, key, version).0
      ensures out == Reject(old(View()), id, actor, key, version).1
    {
      var tag := StateTag(version);
      if !MayDecide(actor) {
        var seen := Lookup(recs, id);
        AppendEvent(AuditEvent(WasBlocked, actor.id, id, if seen.Some? then Some(seen.value.status) else None,
                               if seen.Some? then Some(seen.value.status) else None,
                               if seen.Some? then seen.value.source else "unknown", tag));
        return Unauthorized;
      }
      if id !in recs {
        return NotFound;
      }
      var r := recs[id];
      if !MayMove(r.status, Rejected) {
        return InvalidTransition;
      }
      recs := recs[id := r.(status := Rejected)];
      AppendEvent(AuditEvent(WasRejected, actor.id, id, Some(r.status), Some(Rejected), r.source, tag));
      SaveDecisionRecord(Decision(id, Rejected, actor, r.source, tag, key));
      return Returned(r.(status := Rejected));
    }

    /** A sequential rejection, with the same unlocked check first. */
    method RejectRecommendation(id: string, actor: Actor, key: Option<string>, version: int) returns (out: Outcome)
      requires Valid()
      modifies this
      ensures Valid()
      ensures KeyHit(old(View()), id, key) ==> View() == old(View()) && out == Returned(recs[id])
      ensures !KeyHit(old(View()), id, key) ==> View() == Reject(old(View()), id, actor, key, version).0
      ensures !KeyHit(old(View()), id, key) ==> out == Reject(old(View()), id, actor, key, version).1
    {
      var cached := CheckIdempotencyKey(id, key);
      if cached.Some? {
        return Returned(cached.value);
      }
      out := RejectLocked(id, actor, key, version);
    }

    method ExpireRecommendation(id: string, actor: Actor, version: int) returns (out: Outcome)
      requires Valid()
      modifies this
      ensures Valid()
      ensures View() == Expire(old(View()), id, actor, version).0
      ensures out == Expire(old(View()), id, actor, version).1
    {
      if !MayExpire(actor) {
        return Unauthorized;
      }
      if id !in recs {
        return NotFound;
      }
      var r := recs[id];
      if !MayMove(r.status, Expired) {
        return InvalidTransition;
      }
      recs := recs[id := r.(status := Expired)];
      AppendEvent(ExpiredEvent(r, actor.id, StateTag(version)));
      return Returned(r.(status := Expired));
    }
  }
}
