/** The mutable state manager, proved against the value-level twin. */
module TwinManager {
  import opened Basics
  import opened Overlay
  import opened TwinEntities
  import opened TwinState
  import opened TwinReplay

  const NO_REGISTERS := Registers(map[], map[], map[], map[], map[], map[])
  const NO_ENTITIES := Entities(map[], map[], map[], NO_REGISTERS)

  datatype Snapshot = Snapshot(version: int, timestamp: Time, entities: Entities)

  class DigitalTwinStateManager {
    var version: int
    var updatedAt: Time
    var entities: Entities
    var log: seq<Event>
    var seen: map<EventId, int>
    var overlay: StateOverlay?

    ghost function Footprint(): set<object>
      reads this
    {
      if overlay == null then {this} else {this, overlay}
    }

    ghost function View(): Twin
      reads this, overlay
    {
      Twin(entities, version, updatedAt, log, seen, if overlay == null then None else Some(overlay.View()))
    }

    constructor (overlay: StateOverlay?, initialVersion: int, now: Time)
      ensures this.overlay == overlay && entities == NO_ENTITIES && version == initialVersion
      ensures updatedAt == now && log == [] && seen == map[]
    {
      this.version, this.updatedAt, this.entities := initialVersion, now, NO_ENTITIES;
      this.log, this.seen, this.overlay := [], map[], overlay;
    }

    // ---- Overlay synchronisation ------------------------------------------------------

    method SyncRoadToOverlay(r: Road) returns (ok: bool)
      modifies overlay
      ensures var before := old(View());
              && ok == SyncRoad(before.overlay, r).Some?
              && View() == before.(overlay := if ok then SyncRoad(before.overlay, r).value else before.overlay)
    {
      if overlay == null {
        return true;
      }
      var done := overlay.SetRoadOverride(RoadOverrideFor(r));
      ok := done.Ok?;
    }

    method SyncBridgeToOverlay(b: Bridge) returns (ok: bool)
      modifies overlay
      ensures var before := old(View());
              && ok == SyncBridge(before.overlay, b).Some?
              && View() == before.(overlay := if ok then SyncBridge(before.overlay, b).value else before.overlay)
    {
      if overlay == null {
        return true;
      }
      var done := overlay.SetBridgeOverride(b.bridgeId, RoadStatusFor(b.status), SourceOverride(b.source));
      ok := done.Ok?;
    }

    // ---- Events -------------------------------------------------------------------------

    method CommitEvent(ev: Event)
      modifies this`version, this`updatedAt, this`seen, this`log
      ensures View() == Commit(old(View()), entities, ev)
    {
      version := version + 1;
      updatedAt := ev.time;
      seen := seen[ev.id := version];
      log := log + [ev.(version := Some(version))];
    }

    /** Applies one event; the cascade of a bridge event re-enters this method once. */
    method ApplyEvent(ev: Event) returns (out: Outcome)
      modifies Footprint()
      ensures overlay == old(overlay)
      ensures View() == Apply(old(View()), ev).0 && out == Apply(old(View()), ev).1
      decreases if ev.body.BridgeChanged? then 1 else 0
    {
      ghost var before := View();
      if ev.id in seen {
        return Done(TransitionResult(ev.id, false, version, true, false, []));
      }
      var t := Transit(entities, ev);
      if t.Refused? {
        return Raised;
      }
      entities := t.after;
      if t.NoChange? {
        seen := seen[ev.id := version];
        return Done(TransitionResult(ev.id, false, version, false, true, []));
      }
      CommitEvent(ev);
      ghost var committed := Commit(before, t.after, ev);
      assert View() == committed;
      var ok := true;
      if ev.body.RoadChanged? {
        ok := SyncRoadToOverlay(RoadOf(entities, ev.body.road));
      } else if ev.body.BridgeChanged? {
        ok := SyncBridgeToOverlay(BridgeOf(entities, ev.body.bridge));
      }
      if !ok {
        return Raised;
      }
      var road := CascadeRoad(entities, ev);
      if road.None? {
        return Done(TransitionResult(ev.id, true, version, false, false, []));
      }
      var caused := ApplyEvent(CascadeEvent(ev, road.value));
      if caused.Raised? {
        return Raised;
      }
      return Done(TransitionResult(ev.id, true, version, false, false,
                                   if caused.result.applied then [CascadeId(ev.id, road.value)] else []));
    }

    // ---- Registration and full synchronisation ----------------------------------------------

    /** Stores the road, then mirrors it; with an overlay, an empty id is refused after being stored. */
    method RegisterRoad(r: Road) returns (ok: bool)
      modifies Footprint()
      ensures overlay == old(overlay)
      ensures var stored := old(View()).(entities := old(entities).(roads := old(entities).roads[r.roadId := r]));
              && ok == SyncRoad(stored.overlay, r).Some?
              && View() == stored.(overlay := if ok then SyncRoad(stored.overlay, r).value else stored.overlay)
    {
      entities := entities.(roads := entities.roads[r.roadId := r]);
      ok := SyncRoadToOverlay(r);
    }

    method RegisterBridge(b: Bridge) returns (ok: bool)
      modifies Footprint()
      ensures overlay == old(overlay)
      ensures var stored := old(View()).(entities := old(entities).(bridges := old(entities).bridges[b.bridgeId := b]));
              && ok == SyncBridge(stored.overlay, b).Some?
              && View() == stored.(overlay := if ok then SyncBridge(stored.overlay, b).value else stored.overlay)
    {
      entities := entities.(bridges := entities.bridges[b.bridgeId := b]);
      ok := SyncBridgeToOverlay(b);
    }

    /**
      Mirrors every road and then every bridge; succeeds exactly when no target is the empty road id. Each
      road then has an override, at its own status unless a bridge resolves to it and imposed its own.
    */
    method SyncAllRoadsToOverlay() returns (ok: bool)
      requires KeysMatch(entities)
      modifies overlay
      ensures SameCore(View(), old(View())) && overlay == old(overlay)
      ensures overlay != null ==> overlay.bridgeToRoad == old(overlay.bridgeToRoad)
      ensures overlay != null && "" !in old(overlay.overrides) ==> "" !in overlay.overrides
      ensures ok == CanMirror(entities, View().overlay)
      ensures ok && overlay != null ==> forall r :: r in entities.roads ==> Mirrors(overlay.View(), r, entities.bridges.Keys)
    {
      if overlay == null {
        return true;
      }
      hide Mirrors;
      ok := SyncRoads();
      if ok {
        ok := SyncBridges();
      }
    }

    /** The first half: every road at its own status. */
    method SyncRoads() returns (ok: bool)
      requires KeysMatch(entities) && overlay != null
      modifies overlay
      ensures SameCore(View(), old(View())) && overlay.bridgeToRoad == old(overlay.bridgeToRoad)
      ensures "" !in old(overlay.overrides) ==> "" !in overlay.overrides
      ensures ok <==> "" !in entities.roads
      ensures ok ==> forall r :: r in entities.roads ==> Mirrors(overlay.View(), r, {})
    {
      ok := true;
      hide SetRoad;
      var todo := entities.roads.Keys;
      while todo != {}
        invariant todo <= entities.roads.Keys && ("" in entities.roads ==> "" in todo)
        invariant overlay.bridgeToRoad == old(overlay.bridgeToRoad)
        invariant "" !in old(overlay.overrides) ==> "" !in overlay.overrides
        invariant forall r :: r in entities.roads && r !in todo ==> Mirrors(overlay.View(), r, {})
      {
        var r :| r in todo;
        ghost var before := overlay.View();
        ok := SyncRoadToOverlay(entities.roads[r]);
        if !ok {
          return;
        }
        SetRoadSets(before, RoadOverrideFor(entities.roads[r]));
        todo := todo - {r};
      }
    }

    /** The second half: bridges impose their status on the roads they resolve to. */
    method SyncBridges() returns (ok: bool)
      requires KeysMatch(entities) && overlay != null
      requires forall r :: r in entities.roads ==> Mirrors(overlay.View(), r, {})
      modifies overlay
      ensures SameCore(View(), old(View())) && overlay.bridgeToRoad == old(overlay.bridgeToRoad)
      ensures "" !in old(overlay.overrides) ==> "" !in overlay.overrides
      ensures ok <==> forall b :: b in entities.bridges ==> ResolveBridge(overlay.View(), b) != ""
      ensures ok ==> forall r :: r in entities.roads ==> Mirrors(overlay.View(), r, entities.bridges.Keys)
    {
      ok := true;
      hide SetRoad;
      var left := entities.bridges.Keys;
      while left != {}
        invariant left <= entities.bridges.Keys
        invariant forall b :: b in entities.bridges && b !in left ==> ResolveBridge(overlay.View(), b) != ""
        invariant overlay.bridgeToRoad == old(overlay.bridgeToRoad)
        invariant "" !in old(overlay.overrides) ==> "" !in overlay.overrides
        invariant forall r :: r in entities.roads ==> Mirrors(overlay.View(), r, entities.bridges.Keys - left)
      {
        var b :| b in left;
        ghost var before := overlay.View();
        var bridge := entities.bridges[b];
        ok := SyncBridgeToOverlay(bridge);
        if !ok {
          return;
        }
        SetRoadSets(before, BridgeOverride(before, bridge.bridgeId, RoadStatusFor(bridge.status), SourceOverride(bridge.source)));
        left := left - {b};
      }
    }

    /** Road r carries its own status, or that of one of the given bridges that resolves to it. */
    ghost predicate Mirrors(o: OverlayState, r: RoadId, bridges: set<BridgeId>)
      requires r in entities.roads
      reads this
    {
      && r in o.overrides
      && (o.overrides[r].status == entities.roads[r].status
          || exists b :: b in bridges && b in entities.bridges && ResolveBridge(o, b) == r
                         && o.overrides[r].status == RoadStatusFor(entities.bridges[b].status))
    }

    // ---- Snapshots, replay and forks ------------------------------------------------------------

    method CreateSnapshot() returns (s: Snapshot)
      ensures s == Snapshot(version, updatedAt, entities)
    {
      return Snapshot(version, updatedAt, entities);
    }

    /** Replaces entities, version and timestamp; log and seen ids are left as they are. */
    method RestoreFromSnapshot(s: Snapshot) returns (ok: bool)
      requires KeysMatch(s.entities)
      modifies Footprint()
      ensures overlay == old(overlay)
      ensures SameCore(View(), old(View()).(entities := s.entities, version := s.version, updatedAt := s.timestamp))
      ensures overlay != null ==> overlay.bridgeToRoad == old(overlay.bridgeToRoad)
      ensures overlay != null && "" !in old(overlay.overrides) ==> "" !in overlay.overrides
      ensures ok == CanMirror(s.entities, old(View()).overlay)
    {
      version, updatedAt, entities := s.version, s.timestamp, s.entities;
      ok := SyncAllRoadsToOverlay();
    }

    /**
      Restores a fresh manager from the snapshot and applies the events in order. Succeeds exactly when the
      snapshot can be mirrored and no event raises.
    */
    static method Replay(s: Snapshot, events: seq<Event>, mirror: StateOverlay?, now: Time)
      returns (m: DigitalTwinStateManager?, ghost start: Twin)
      requires KeysMatch(s.entities)
      modifies mirror
      ensures start.(overlay := None) == Twin(s.entities, s.version, s.timestamp, [], map[], None)
      ensures start.overlay.Some? == (mirror != null)
      ensures mirror != null ==> start.overlay.value.bridgeToRoad == old(mirror.bridgeToRoad)
      ensures m != null <==> CanMirror(s.entities, start.overlay) && TwinReplay.Replay(start, events).Some?
      ensures m != null ==> fresh(m) && TwinReplay.Replay(start, events) == Some(m.View())
    {
      var manager := new DigitalTwinStateManager(mirror, s.version, now);
      ghost var blank := manager.View();
      var ok := manager.RestoreFromSnapshot(s);
      start := manager.View();
      SameIndexMirrorsAlike(s.entities, blank.overlay, start.overlay);
      if !ok {
        return null, start;
      }
      for i := 0 to |events|
        invariant manager.overlay == mirror
        invariant TwinReplay.Replay(start, events[..i]) == Some(manager.View())
      {
        assert events[..i + 1][..i] == events[..i];
        var out := manager.ApplyEvent(events[i]);
        if out.Raised? {
          ReplayStopsAt(start, events, i);
          return null, start;
        }
      }
      assert events[..|events|] == events;
      return manager, start;
    }

    /**
      An isolated clone at the current version, made exactly when the twin can be mirrored. Its overlay is
      a fresh copy (then fully synchronised), so nothing done to the fork can reach this manager or its
      overlay, and the fork has the same entities, version, log, seen ids and bridge index.
    */
    method Fork(now: Time) returns (f: DigitalTwinStateManager?)
      requires KeysMatch(entities)
      ensures f != null ==> fresh(f) && fresh(f.Footprint()) && ForkOf(View(), f.View())
      ensures f != null && WellKeyed(View()) ==> WellKeyed(f.View())
      ensures f != null <==> CanMirror(entities, View().overlay)
    {
      var snapshot := CreateSnapshot();
      var copy: StateOverlay? := null;
      if overlay != null {
        copy := overlay.Clone();
      }
      var fork := new DigitalTwinStateManager(copy, snapshot.version, now);
      var ok := fork.RestoreFromSnapshot(snapshot);
      if !ok {
        return null;
      }
      fork.log, fork.seen := log, seen;
      return fork;
    }
  }

  /** Full synchronisation has no empty target: no road without an id, and no bridge that resolves to none. */
  ghost predicate CanMirror(es: Entities, o: Option<OverlayState>) {
    o.Some? ==> "" !in es.roads && forall b :: b in es.bridges ==> ResolveBridge(o.value, b) != ""
  }

  lemma SameIndexMirrorsAlike(es: Entities, o: Option<OverlayState>, o': Option<OverlayState>)
    requires o.Some? == o'.Some? && (o.Some? ==> o.value.bridgeToRoad == o'.value.bridgeToRoad)
    ensures CanMirror(es, o) == CanMirror(es, o')
  {
    if o.Some? {
      forall b ensures ResolveBridge(o.value, b) == ResolveBridge(o'.value, b) {
      }
    }
  }

  lemma SetRoadSets(o: OverlayState, ov: RoadOverride)
    ensures SetRoad(o, ov).overrides == o.overrides[ov.roadId := ov] && SetRoad(o, ov).bridgeToRoad == o.bridgeToRoad
  {
  }

  /** Replay fails for good at the first event that raises. */
  lemma {:induction false} ReplayStopsAt(t: Twin, evs: seq<Event>, i: nat)
    requires i < |evs| && TwinReplay.Replay(t, evs[..i]).Some?
    requires Apply(TwinReplay.Replay(t, evs[..i]).value, evs[i]).1.Raised?
    ensures TwinReplay.Replay(t, evs).None?
  {
    if i == |evs| - 1 {
      assert evs[..|evs| - 1] == evs[..i];
    } else {
      var init := evs[..|evs| - 1];
      assert init[..i] == evs[..i];
      ReplayStopsAt(t, init, i);
    }
  }
}
