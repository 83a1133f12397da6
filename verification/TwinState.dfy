/** The event-sourced twin as a value: applying events, cascades, and what every run keeps. */
module TwinState {
  import opened Basics
  import opened Overlay
  import opened TwinEntities

  datatype Twin = Twin(
    entities: Entities,
    version: int,
    updatedAt: Time,
    log: seq<Event>,
    seen: map<EventId, int>,
    overlay: Option<OverlayState>)

  datatype TransitionResult = TransitionResult(
    eventId: EventId,
    applied: bool,
    version: int,
    isDuplicate: bool,
    isNoOp: bool,
    cascaded: seq<EventId>)

  datatype Outcome = Done(result: TransitionResult) | Raised

  // ---- Overlay synchronisation ---------------------------------------------------------

  function SourceOverride(source: string): OverrideSource {
    if source == "SIMULATION" then Simulation
    else if source == "TEST_FIXTURE" then TestFixture
    else FieldReport
  }

  function RoadOverrideFor(r: Road): RoadOverride {
    RoadOverride(r.roadId, r.status, None, r.speed, SourceOverride(r.source), None)
  }

  /** Mirrors a road; None when the overlay refuses the empty road id. */
  function SyncRoad(o: Option<OverlayState>, r: Road): Option<Option<OverlayState>> {
    if o.None? then Some(None)
    else if r.roadId == "" then None
    else Some(Some(SetRoad(o.value, RoadOverrideFor(r))))
  }

  /** Mirrors a bridge onto the road the overlay resolves it to. */
  function SyncBridge(o: Option<OverlayState>, b: Bridge): Option<Option<OverlayState>> {
    if o.None? then Some(None)
    else if ResolveBridge(o.value, b.bridgeId) == "" then None
    else Some(Some(SetRoad(o.value, BridgeOverride(o.value, b.bridgeId, RoadStatusFor(b.status), SourceOverride(b.source)))))
  }

  // ---- Applying an event ------------------------------------------------------------------

  function Commit(t: Twin, es: Entities, ev: Event): Twin {
    var v := t.version + 1;
    t.(entities := es, version := v, updatedAt := ev.time,
       seen := t.seen[ev.id := v], log := t.log + [ev.(version := Some(v))])
  }

  function Duplicate(t: Twin, ev: Event): Outcome {
    Done(TransitionResult(ev.id, false, t.version, true, false, []))
  }

  function NoOp(t: Twin, ev: Event): Outcome {
    Done(TransitionResult(ev.id, false, t.version, false, true, []))
  }

  function Applied(t: Twin, ev: Event, cascaded: seq<EventId>): Outcome {
    Done(TransitionResult(ev.id, true, t.version, false, false, cascaded))
  }

  /** The road a committed bridge event cascades to, if any. */
  function CascadeRoad(es: Entities, ev: Event): Option<RoadId> {
    if ev.body.BridgeChanged? && ev.body.propagate then
      var b := BridgeOf(es, ev.body.bridge);
      if b.roadId.Some? && b.roadId.value != "" then b.roadId else None
    else None
  }

  /** Overlay after a committed change, or None when synchronisation raises. */
  function Sync(t: Twin, ev: Event): Option<Option<OverlayState>> {
    if ev.body.RoadChanged? then SyncRoad(t.overlay, RoadOf(t.entities, ev.body.road))
    else if ev.body.BridgeChanged? then SyncBridge(t.overlay, BridgeOf(t.entities, ev.body.bridge))
    else Some(t.overlay)
  }

  /** Duplicates and no-ops leave the version alone; a bridge change re-enters for its road. */
  function Apply(t: Twin, ev: Event): (Twin, Outcome)
    decreases if ev.body.BridgeChanged? then 1 else 0
  {
    if ev.id in t.seen then (t, Duplicate(t, ev))
    else
      match Transit(t.entities, ev)
      case Refused => (t, Raised)
      case NoChange(es) =>
        var t' := t.(entities := es, seen := t.seen[ev.id := t.version]);
        (t', NoOp(t', ev))
      case Change(es) =>
        var committed := Commit(t, es, ev);
        match Sync(committed, ev)
        case None => (committed, Raised)
        case Some(o) => Cascade(committed.(overlay := o), ev)
  }

  function Cascade(t: Twin, ev: Event): (Twin, Outcome)
    decreases if ev.body.BridgeChanged? then 1 else 0, 0
  {
    match CascadeRoad(t.entities, ev)
    case None => (t, Applied(t, ev, []))
    case Some(road) =>
      var (t', caused) := Apply(t, CascadeEvent(ev, road));
      match caused
      case Raised => (t', Raised)
      case Done(r) => (t', Applied(t', ev, if r.applied then [CascadeId(ev.id, road)] else []))
  }

  /** A run keeps going whether or not individual events raise. */
  function Run(t: Twin, evs: seq<Event>): Twin {
    if evs == [] then t else Apply(Run(t, evs[..|evs| - 1]), evs[|evs| - 1]).0
  }

  // ---- Small facts about Apply ---------------------------------------------------------------

  /** Registry keys match, and the overlay holds no override for the empty id. */
  ghost predicate WellKeyed(t: Twin) {
    KeysMatch(t.entities) && (t.overlay.Some? ==> "" !in t.overlay.value.overrides)
  }

  /** What committing a road event (the only kind a cascade produces) amounts to. */
  lemma ApplyRoad(t: Twin, ev: Event)
    requires ev.body.RoadChanged? && ev.id !in t.seen && WellKeyed(t)
    ensures var t' := Apply(t, ev).0;
      match NextRoad(RoadOf(t.entities, ev.body.road), ev)
      case None => t' == t.(entities := OnRoad(t.entities, ev).after, seen := t.seen[ev.id := t.version])
      case Some(r) =>
        var committed := Commit(t, OnRoad(t.entities, ev).after, ev);
        if t.overlay.Some? && ev.body.road == "" then t' == committed && Apply(t, ev).1.Raised?
        else t' == committed.(overlay := if t.overlay.None? then None else Some(SetRoad(t.overlay.value, RoadOverrideFor(r))))
             && Apply(t, ev).1.Done? && Apply(t, ev).1.result.applied
  {
  }

  // ---- Log invariants -----------------------------------------------------------------------

  /** The log since `base` is numbered by the versions it produced, without repeated ids. */
  ghost predicate LogOk(t: Twin, base: int) {
    && t.version == base + |t.log|
    && (forall i :: 0 <= i < |t.log| ==>
          t.log[i].version == Some(base + i + 1) && t.log[i].id in t.seen && t.seen[t.log[i].id] == base + i + 1)
    && (forall i, j :: 0 <= i < j < |t.log| ==> t.log[i].id != t.log[j].id)
  }

  lemma CommitKeepsLog(t: Twin, es: Entities, ev: Event, base: int)
    requires LogOk(t, base) && ev.id !in t.seen
    ensures LogOk(Commit(t, es, ev), base)
  {
  }

  lemma LogOkIgnores(t: Twin, t': Twin, base: int)
    requires LogOk(t, base) && t'.log == t.log && t'.version == t.version
    requires forall id :: id in t.seen ==> id in t'.seen && t'.seen[id] == t.seen[id]
    ensures LogOk(t', base)
  {
  }

  /** How far an event moves the version: two only through a cascade. */
  ghost predicate StepOk(t: Twin, t': Twin, out: Outcome, ev: Event) {
    && t.version <= t'.version <= t.version + (if ev.body.BridgeChanged? then 2 else 1)
    && |t'.log| - |t.log| == t'.version - t.version
    && t.log <= t'.log
    && (out.Done? ==> out.result.version == t'.version && out.result.eventId == ev.id
                      && (out.result.applied <==> t.version < t'.version)
                      && |out.result.cascaded| <= 1
                      && t'.version - t.version == (if out.result.applied then 1 else 0) + |out.result.cascaded|)
  }

  lemma {:induction false} EveryStepKeepsLog(t: Twin, ev: Event, base: int)
    requires LogOk(t, base)
    ensures LogOk(Apply(t, ev).0, base)
    ensures StepOk(t, Apply(t, ev).0, Apply(t, ev).1, ev)
    decreases if ev.body.BridgeChanged? then 1 else 0
  {
    if ev.id !in t.seen {
      match Transit(t.entities, ev)
      case Refused =>
      case NoChange(es) =>
        LogOkIgnores(t, t.(entities := es, seen := t.seen[ev.id := t.version]), base);
      case Change(es) =>
        CommitKeepsLog(t, es, ev, base);
        var committed := Commit(t, es, ev);
        var o := Sync(committed, ev);
        if o.Some? {
          var synced := committed.(overlay := o.value);
          LogOkIgnores(committed, synced, base);
          var road := CascadeRoad(es, ev);
          if road.Some? {
            EveryStepKeepsLog(synced, CascadeEvent(ev, road.value), base);
          }
        }
    }
  }

  /**
    In every run the version counts the log, logged ids are distinct, and each logged event's stored
    version is its position and is what the seen map remembers.
  */
  lemma {:induction false} EveryRunKeepsLog(t: Twin, evs: seq<Event>, base: int)
    requires LogOk(t, base)
    ensures LogOk(Run(t, evs), base) && t.log <= Run(t, evs).log
  {
    if evs != [] {
      EveryRunKeepsLog(t, evs[..|evs| - 1], base);
      EveryStepKeepsLog(Run(t, evs[..|evs| - 1]), evs[|evs| - 1], base);
    }
  }

  lemma {:induction false} VersionNeverGoesBack(t: Twin, ev: Event)
    ensures t.version <= Apply(t, ev).0.version
    decreases if ev.body.BridgeChanged? then 1 else 0
  {
    if ev.id !in t.seen && Transit(t.entities, ev).Change? {
      hide OnOther;
      var committed := Commit(t, Transit(t.entities, ev).after, ev);
      var o := Sync(committed, ev);
      if o.Some? {
        var road := CascadeRoad(committed.entities, ev);
        if road.Some? {
          VersionNeverGoesBack(committed.(overlay := o.value), CascadeEvent(ev, road.value));
        }
      }
    }
  }

  // ---- Failing events -------------------------------------------------------------------------

  /** The overlay mirror of this event would have an empty road id. */
  predicate EmptyTarget(t: Twin, ev: Event) {
    && t.overlay.Some?
    && ((ev.body.RoadChanged? && ev.body.road == "")
        || (ev.body.BridgeChanged? && ResolveBridge(t.overlay.value, ev.body.bridge) == ""))
  }

  /** A cascaded event never raises. */
  lemma CascadeNeverRaises(t: Twin, ev: Event, road: RoadId)
    requires WellKeyed(t) && ev.body.BridgeChanged? && road != ""
    ensures Apply(t, CascadeEvent(ev, road)).1.Done?
  {
    if CascadeEvent(ev, road).id !in t.seen {
      ApplyRoad(t, CascadeEvent(ev, road));
    }
  }

  lemma CommitKeepsKeys(t: Twin, ev: Event)
    requires WellKeyed(t) && Transit(t.entities, ev).Change?
    ensures var committed := Commit(t, Transit(t.entities, ev).after, ev);
            WellKeyed(committed) && (Sync(committed, ev).Some? ==> WellKeyed(committed.(overlay := Sync(committed, ev).value)))
  {
    TransitKeepsKeys(t.entities, ev);
    hide OnOther;
  }

  /** Applying an event raises exactly when the rules refuse it or its mirror target is empty. */
  lemma RaisesWhen(t: Twin, ev: Event)
    requires WellKeyed(t) && ev.id !in t.seen
    ensures Apply(t, ev).1.Raised? <==>
            Transit(t.entities, ev).Refused? || (Transit(t.entities, ev).Change? && EmptyTarget(t, ev))
  {
    if Transit(t.entities, ev).Change? {
      var committed := Commit(t, Transit(t.entities, ev).after, ev);
      CommitKeepsKeys(t, ev);
      TransitKeepsKeys(t.entities, ev);
      SyncFailsWhen(t, ev);
      var o := Sync(committed, ev);
      if o.Some? {
        var road := CascadeRoad(committed.entities, ev);
        if road.Some? {
          CascadeNeverRaises(committed.(overlay := o.value), ev, road.value);
        }
      }
    }
  }

  lemma SyncFailsWhen(t: Twin, ev: Event)
    requires WellKeyed(t) && Transit(t.entities, ev).Change?
    ensures Sync(Commit(t, Transit(t.entities, ev).after, ev), ev).None? <==> EmptyTarget(t, ev)
  {
    TransitKeepsKeys(t.entities, ev);
    hide OnOther;
  }

  /**
    A raising event leaves the twin untouched exactly when its overlay target is not the empty id:
    with an empty target the event is already committed when the overlay refuses it.
  */
  lemma RaisingIsAtomicUnlessTargetEmpty(t: Twin, ev: Event)
    requires WellKeyed(t) && Apply(t, ev).1.Raised?
    ensures Apply(t, ev).0 == t <==> !(Transit(t.entities, ev).Change? && EmptyTarget(t, ev))
  {
    assert ev.id !in t.seen;
    RaisesWhen(t, ev);
    if Transit(t.entities, ev).Change? {
      SyncFailsWhen(t, ev);
    }
  }

  /** With an overlay attached, closing the road with the empty id is committed and then raises. */
  lemma EmptyTargetCommitsAndRaises(t: Twin, id: EventId, time: Time)
    requires WellKeyed(t) && t.overlay.Some? && id !in t.seen && RoadOf(t.entities, "").status == Open
    ensures var ev := Event(id, time, SystemEvent, None, None, None, RoadChanged("", Blocked, None, None));
            && Apply(t, ev).1.Raised?
            && Apply(t, ev).0.version == t.version + 1 && |Apply(t, ev).0.log| == |t.log| + 1
            && id in Apply(t, ev).0.seen && RoadOf(Apply(t, ev).0.entities, "").status == Blocked
  {
    var ev := Event(id, time, SystemEvent, None, None, None, RoadChanged("", Blocked, None, None));
    ApplyRoad(t, ev);
  }
}
