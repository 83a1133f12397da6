/** Replay, forks and the overlay's irrelevance to the twin's own state. */
module TwinReplay {
  import opened Basics
  import opened Overlay
  import opened TwinEntities
  import opened TwinState

  lemma {:induction false} ApplyKeepsKeys(t: Twin, ev: Event)
    requires WellKeyed(t)
    ensures WellKeyed(Apply(t, ev).0)
    decreases if ev.body.BridgeChanged? then 1 else 0
  {
    if ev.id !in t.seen && !Transit(t.entities, ev).Refused? {
      TransitKeepsKeys(t.entities, ev);
      hide OnOther;
      if Transit(t.entities, ev).Change? {
        CommitKeepsKeys(t, ev);
        var committed := Commit(t, Transit(t.entities, ev).after, ev);
        var o := Sync(committed, ev);
        if o.Some? {
          var road := CascadeRoad(committed.entities, ev);
          if road.Some? {
            ApplyKeepsKeys(committed.(overlay := o.value), CascadeEvent(ev, road.value));
          }
        }
      }
    }
  }

  lemma {:induction false} RunKeepsKeys(t: Twin, evs: seq<Event>)
    requires WellKeyed(t)
    ensures WellKeyed(Run(t, evs))
  {
    if evs != [] {
      RunKeepsKeys(t, evs[..|evs| - 1]);
      ApplyKeepsKeys(Run(t, evs[..|evs| - 1]), evs[|evs| - 1]);
    }
  }

  // ---- The overlay never feeds back ------------------------------------------------------

  /** Equal in everything but the overlay. */
  ghost predicate SameCore(t: Twin, u: Twin) {
    t.(overlay := None) == u.(overlay := None)
  }

  /** Twins that differ only in their overlays stay so, with equal outcomes, if the overlays refuse alike. */
  lemma {:induction false} OverlayIsWriteOnly(t: Twin, u: Twin, ev: Event)
    requires WellKeyed(t) && WellKeyed(u) && SameCore(t, u)
    requires EmptyTarget(t, ev) == EmptyTarget(u, ev)
    ensures SameCore(Apply(t, ev).0, Apply(u, ev).0)
    ensures Apply(t, ev).1 == Apply(u, ev).1
    decreases if ev.body.BridgeChanged? then 1 else 0
  {
    hide OnOther, KeysMatch, SetRoad, ResolveBridge, RoadStatusFor;
    if ev.id !in t.seen && Transit(t.entities, ev).Change? {
      CommitKeepsKeys(t, ev);
      CommitKeepsKeys(u, ev);
      SyncFailsWhen(t, ev);
      SyncFailsWhen(u, ev);
      hide Transit, EmptyTarget;
      var ct, cu := Commit(t, Transit(t.entities, ev).after, ev), Commit(u, Transit(t.entities, ev).after, ev);
      var ot, ou := Sync(ct, ev), Sync(cu, ev);
      if ot.Some? {
        var road := CascadeRoad(ct.entities, ev);
        if road.Some? {
          OverlayIsWriteOnly(ct.(overlay := ot.value), cu.(overlay := ou.value), CascadeEvent(ev, road.value));
        }
      }
    }
  }

  /** Targets with real ids are never refused by any overlay. */
  predicate NamedTarget(ev: Event) {
    && (ev.body.RoadChanged? ==> ev.body.road != "")
    && (ev.body.BridgeChanged? ==> ev.body.bridge != "")
  }

  // ---- Forks --------------------------------------------------------------------------------

  /** A fork shares everything but the overlay, whose bridge index it copies. */
  ghost predicate ForkOf(t: Twin, f: Twin) {
    && SameCore(t, f)
    && t.overlay.Some? == f.overlay.Some?
    && (t.overlay.Some? ==> t.overlay.value.bridgeToRoad == f.overlay.value.bridgeToRoad)
  }

  /** Applying an event keeps the overlay attached and its bridge index unchanged. */
  lemma {:induction false} ApplyKeepsBridgeIndex(t: Twin, ev: Event)
    ensures var t' := Apply(t, ev).0;
            && t'.overlay.Some? == t.overlay.Some?
            && (t.overlay.Some? ==> t'.overlay.value.bridgeToRoad == t.overlay.value.bridgeToRoad)
    decreases if ev.body.BridgeChanged? then 1 else 0
  {
    if ev.id !in t.seen && Transit(t.entities, ev).Change? {
      hide OnOther;
      var committed := Commit(t, Transit(t.entities, ev).after, ev);
      var o := Sync(committed, ev);
      if o.Some? {
        var road := CascadeRoad(committed.entities, ev);
        if road.Some? {
          ApplyKeepsBridgeIndex(committed.(overlay := o.value), CascadeEvent(ev, road.value));
        }
      }
    }
  }

  lemma ForkStepsAlike(t: Twin, f: Twin, ev: Event)
    requires WellKeyed(t) && WellKeyed(f) && ForkOf(t, f)
    ensures ForkOf(Apply(t, ev).0, Apply(f, ev).0) && Apply(t, ev).1 == Apply(f, ev).1
  {
    OverlayIsWriteOnly(t, f, ev);
    ApplyKeepsBridgeIndex(t, ev);
    ApplyKeepsBridgeIndex(f, ev);
  }

  /** The results a run returns, in order. */
  function Outcomes(t: Twin, evs: seq<Event>): seq<Outcome> {
    if evs == [] then []
    else Outcomes(t, evs[..|evs| - 1]) + [Apply(Run(t, evs[..|evs| - 1]), evs[|evs| - 1]).1]
  }

  /**
    A fork behaves like the live twin: the same events, raising ones included, give equal results,
    entities, versions, logs and seen ids.
  */
  lemma {:induction false} ForkBehavesLikeLive(t: Twin, f: Twin, evs: seq<Event>)
    requires WellKeyed(t) && WellKeyed(f) && ForkOf(t, f)
    ensures ForkOf(Run(t, evs), Run(f, evs))
    ensures Outcomes(t, evs) == Outcomes(f, evs)
  {
    if evs != [] {
      var init, last := evs[..|evs| - 1], evs[|evs| - 1];
      ForkBehavesLikeLive(t, f, init);
      RunKeepsKeys(t, init);
      RunKeepsKeys(f, init);
      ForkStepsAlike(Run(t, init), Run(f, init), last);
    }
  }

  // ---- Replay -------------------------------------------------------------------------------

  /** A manager restored from a snapshot: entities, version and timestamp, but no log and nothing seen. */
  function Restored(t: Twin): Twin {
    t.(log := [], seen := map[], overlay := None)
  }

  /** Replay applies the events in order and dies on the first that raises. */
  function Replay(t: Twin, evs: seq<Event>): Option<Twin> {
    if evs == [] then Some(t)
    else
      match Replay(t, evs[..|evs| - 1])
      case None => None
      case Some(u) =>
        var (u', out) := Apply(u, evs[|evs| - 1]);
        if out.Raised? then None else Some(u')
  }

  lemma {:induction false} ReplayConcat(t: Twin, a: seq<Event>, b: seq<Event>)
    requires Replay(t, a).Some?
    ensures Replay(t, a + b) == Replay(Replay(t, a).value, b)
  {
    if b == [] {
      assert a + b == a;
    } else {
      ReplayConcat(t, a, b[..|b| - 1]);
      assert (a + b)[..|a + b| - 1] == a + b[..|b| - 1];
    }
  }
}
