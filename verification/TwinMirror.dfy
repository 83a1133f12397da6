/** Agreement between the twin's roads and the routing overlay that mirrors them. */
module TwinMirror {
  import opened Basics
  import opened Overlay
  import opened TwinEntities
  import opened TwinState
  import opened TwinReplay
  import opened ReplayTheory

  /** Every override belongs to a twin road with the same status. */
  ghost predicate Agree(t: Twin) {
    t.overlay.Some? ==>
      forall r :: r in t.overlay.value.overrides ==>
        r in t.entities.roads && t.overlay.value.overrides[r].status == t.entities.roads[r].status
  }

  /** A road event keeps the mirror in step, and then the road has the event's status unless it was a duplicate. */
  lemma RoadEventKeepsAgreement(t: Twin, ev: Event)
    requires WellKeyed(t) && Agree(t) && ev.body.RoadChanged?
    ensures Agree(Apply(t, ev).0)
    ensures ev.id !in t.seen ==> ev.body.road in Apply(t, ev).0.entities.roads
                                 && Apply(t, ev).0.entities.roads[ev.body.road].status == ev.body.roadStatus
    ensures forall r :: r != ev.body.road && r in t.entities.roads ==>
              r in Apply(t, ev).0.entities.roads && Apply(t, ev).0.entities.roads[r] == t.entities.roads[r]
  {
    if ev.id !in t.seen {
      ApplyRoad(t, ev);
    }
  }

  lemma OtherEventKeepsAgreement(t: Twin, ev: Event)
    requires Agree(t) && !ev.body.RoadChanged? && !ev.body.BridgeChanged?
    ensures Agree(Apply(t, ev).0)
  {
  }

  /** The road a bridge event overrides in the overlay. */
  function MirrorRoad(t: Twin, ev: Event): RoadId
    requires t.overlay.Some? && ev.body.BridgeChanged?
  {
    ResolveBridge(t.overlay.value, ev.body.bridge)
  }

  /**
    The twin's road will end at the status the overlay is given: it is there already, or the event
    propagates to that very road and the cascade's id is unused.
  */
  predicate MirrorsCleanly(t: Twin, ev: Event)
    requires t.overlay.Some? && ev.body.BridgeChanged?
  {
    var road, target := MirrorRoad(t, ev), RoadStatusFor(ev.body.bridgeStatus);
    || (road in t.entities.roads && t.entities.roads[road].status == target)
    || (ev.body.propagate && BridgeOf(t.entities, ev.body.bridge).roadId == Some(road)
        && CascadeId(ev.id, road) !in t.seen)
  }

  /** After the overlay takes a road's new status, agreement is just that road's own status. */
  lemma OneOverrideLeft(t: Twin, o: OverlayState, ov: RoadOverride)
    requires t.overlay == Some(SetRoad(o, ov))
    requires Agree(t.(overlay := Some(o)))
    ensures Agree(t) <==> ov.roadId in t.entities.roads && t.entities.roads[ov.roadId].status == ov.status
  {
  }

  /** What a bridge change leaves before its cascade: committed, with the mirror already set. */
  function Mirrored(t: Twin, ev: Event): Twin
    requires t.overlay.Some? && ev.body.BridgeChanged? && Transit(t.entities, ev).Change?
  {
    var committed := Commit(t, Transit(t.entities, ev).after, ev);
    var b := BridgeOf(committed.entities, ev.body.bridge);
    committed.(overlay := Some(SetRoad(t.overlay.value,
      BridgeOverride(t.overlay.value, b.bridgeId, RoadStatusFor(b.status), SourceOverride(b.source)))))
  }

  lemma BridgeIsMirrored(t: Twin, ev: Event)
    requires WellKeyed(t) && t.overlay.Some? && ev.body.BridgeChanged? && ev.id !in t.seen
    requires Transit(t.entities, ev).Change? && MirrorRoad(t, ev) != ""
    ensures var m := Mirrored(t, ev);
            && WellKeyed(m) && Apply(t, ev) == Cascade(m, ev)
            && m.entities.roads == t.entities.roads
            && m.seen == t.seen[ev.id := t.version + 1]
            && BridgeOf(m.entities, ev.body.bridge).roadId == BridgeOf(t.entities, ev.body.bridge).roadId
            && exists ov: RoadOverride :: ov.roadId == MirrorRoad(t, ev) && ov.status == RoadStatusFor(ev.body.bridgeStatus)
                            && m.overlay == Some(SetRoad(t.overlay.value, ov))
  {
    CommitKeepsKeys(t, ev);
    hide OnOther;
    var b := BridgeOf(Transit(t.entities, ev).after, ev.body.bridge);
    var ov := BridgeOverride(t.overlay.value, b.bridgeId, RoadStatusFor(b.status), SourceOverride(b.source));
    assert ov.roadId == MirrorRoad(t, ev) && ov.status == RoadStatusFor(ev.body.bridgeStatus);
  }

  /**
    Exactly when a bridge change keeps twin and overlay in agreement. When it does not, the overlay
    closes (or opens) a road whose twin entity says otherwise.
  */
  lemma BridgeEventAgreesIff(t: Twin, ev: Event)
    requires WellKeyed(t) && Agree(t) && t.overlay.Some? && ev.body.BridgeChanged? && ev.id !in t.seen
    requires Transit(t.entities, ev).Change? && MirrorRoad(t, ev) != ""
    ensures Agree(Apply(t, ev).0) <==> MirrorsCleanly(t, ev)
  {
    BridgeIsMirrored(t, ev);
    var m, road, target := Mirrored(t, ev), MirrorRoad(t, ev), RoadStatusFor(ev.body.bridgeStatus);
    var ov: RoadOverride :| ov.roadId == road && ov.status == target && m.overlay == Some(SetRoad(t.overlay.value, ov));
    OneOverrideLeft(m, t.overlay.value, ov);
    var cascade := CascadeRoad(m.entities, ev);
    if cascade.Some? {
      CascadeSettles(m, ev, cascade.value, road, target, t.overlay.value, ov);
      CascadeIdForm(ev.id, cascade.value);
    }
    hide Transit, Mirrored, Apply;
  }

  /** A cascade to the mirrored road restores agreement unless its id is taken; any other leaves the question open. */
  lemma CascadeSettles(m: Twin, ev: Event, cascade: RoadId, road: RoadId, target: RoadStatus,
                       o: OverlayState, ov: RoadOverride)
    requires WellKeyed(m) && ev.body.BridgeChanged? && target == RoadStatusFor(ev.body.bridgeStatus)
    requires m.overlay == Some(SetRoad(o, ov)) && ov.roadId == road && ov.status == target
    requires Agree(m.(overlay := Some(o))) && cascade != ""
    ensures var after := Apply(m, CascadeEvent(ev, cascade)).0;
            Agree(after) <==>
              (road in m.entities.roads && m.entities.roads[road].status == target)
              || (cascade == road && CascadeId(ev.id, road) !in m.seen)
  {
    var c := CascadeEvent(ev, cascade);
    OneOverrideLeft(m, o, ov);
    if c.id !in m.seen {
      ApplyRoad(m, c);
      var after := Apply(m, c).0;
      assert road in m.overlay.value.overrides && road in after.overlay.value.overrides;
      if cascade != road {
        assert road in after.entities.roads <==> road in m.entities.roads;
        if road in m.entities.roads && m.entities.roads[road].status == target {
          RoadEventKeepsAgreement(m, c);
        }
      } else {
        FreshCascadeAgrees(m, c, o, ov);
      }
    }
  }

  /** A fresh cascade to the very road the mirror just set. */
  lemma FreshCascadeAgrees(m: Twin, c: Event, o: OverlayState, ov: RoadOverride)
    requires WellKeyed(m) && c.body.RoadChanged? && c.id !in m.seen && c.body.road != ""
    requires m.overlay == Some(SetRoad(o, ov)) && ov.roadId == c.body.road && ov.status == c.body.roadStatus
    requires Agree(m.(overlay := Some(o)))
    ensures Agree(Apply(m, c).0)
  {
    ApplyRoad(m, c);
  }

  // ---- Single steps -------------------------------------------------------------------------

  /** The event is not a bridge change, or it mirrors cleanly. */
  predicate CleanStep(t: Twin, ev: Event) {
    t.overlay.Some? && ev.body.BridgeChanged? && ev.id !in t.seen && Transit(t.entities, ev).Change? ==>
      MirrorRoad(t, ev) != "" && MirrorsCleanly(t, ev)
  }

  lemma CleanStepsAgree(t: Twin, ev: Event)
    requires WellKeyed(t) && Agree(t) && CleanStep(t, ev)
    ensures Agree(Apply(t, ev).0)
  {
    if ev.body.RoadChanged? {
      RoadEventKeepsAgreement(t, ev);
    } else if !ev.body.BridgeChanged? {
      OtherEventKeepsAgreement(t, ev);
    } else if ev.id !in t.seen && Transit(t.entities, ev).Change? {
      if t.overlay.Some? {
        BridgeEventAgreesIff(t, ev);
      } else {
        ApplyKeepsBridgeIndex(t, ev);
      }
    }
  }

  // ---- From the start state and the submitted ids -----------------------------------------------

  /** The cause occurs as the beginning of the other id, up to a dash. */
  predicate DashPrefix(a: EventId, b: EventId) {
    a + "-" <= b
  }

  /** Two cascade ids coincide only for one cause, or when one cause is a dash prefix of the other. */
  lemma CascadeIdsCoincide(a: EventId, r: RoadId, b: EventId, s: RoadId)
    requires CascadeId(a, r) == CascadeId(b, s)
    ensures a == b || DashPrefix(a, b) || DashPrefix(b, a)
  {
    var x, y := a + ("-" + r), b + ("-" + s);
    assert CascadeId(a, r) == CASCADE_PREFIX + x && CascadeId(b, s) == CASCADE_PREFIX + y;
    assert x == CascadeId(a, r)[|CASCADE_PREFIX|..] && y == CascadeId(b, s)[|CASCADE_PREFIX|..];
    assert a == x[..|a|] && b == y[..|b|];
    if |a| < |b| {
      assert a + "-" == x[..|a| + 1] == b[..|a| + 1];
    } else if |b| < |a| {
      assert b + "-" == y[..|b| + 1] == a[..|b| + 1];
    }
  }

  /** An overlay is attached, and every registered bridge names the very road its overlay index resolves to. */
  ghost predicate BridgesResolve(t: Twin) {
    && t.overlay.Some?
    && forall b :: b in t.entities.bridges ==>
         && ResolveBridge(t.overlay.value, b) != ""
         && t.entities.bridges[b].roadId == Some(ResolveBridge(t.overlay.value, b))
  }

  /** Bridge events name registered bridges and propagate. */
  predicate NamesBridge(t: Twin, ev: Event) {
    ev.body.BridgeChanged? ==> ev.body.bridge in t.entities.bridges && ev.body.propagate
  }

  /** Which bridges there are and the roads they carry. */
  function Carries(t: Twin): map<BridgeId, Option<RoadId>> {
    map b | b in t.entities.bridges :: t.entities.bridges[b].roadId
  }

  /** No event re-routes a registered bridge; one about a registered bridge creates none. */
  lemma {:induction false} ApplyKeepsCarries(t: Twin, ev: Event)
    requires ev.body.BridgeChanged? ==> ev.body.bridge in t.entities.bridges
    ensures Carries(Apply(t, ev).0) == Carries(t)
    decreases if ev.body.BridgeChanged? then 1 else 0
  {
    hide OnOther, OnRoad, OnBridge;
    if ev.id !in t.seen && !Transit(t.entities, ev).Refused? {
      TransitKeepsCarries(t.entities, ev);
      hide Transit, OnOther, OnRoad, OnBridge, Sync;
      if Transit(t.entities, ev).Change? {
        var committed := Commit(t, Transit(t.entities, ev).after, ev);
        var o := Sync(committed, ev);
        if o.Some? {
          var road := CascadeRoad(committed.entities, ev);
          if road.Some? {
            ApplyKeepsCarries(committed.(overlay := o.value), CascadeEvent(ev, road.value));
          }
        }
      }
    }
  }

  lemma TransitKeepsCarries(es: Entities, ev: Event)
    requires ev.body.BridgeChanged? ==> ev.body.bridge in es.bridges
    requires !Transit(es, ev).Refused?
    ensures var after := Transit(es, ev).after;
            after.bridges.Keys == es.bridges.Keys && forall b :: b in es.bridges ==> after.bridges[b].roadId == es.bridges[b].roadId
  {
    hide OnOther;
  }

  /** Bridges resolve as at the start, and every cascade id seen was caused by one of the events so far. */
  ghost predicate OnTrack(base: Twin, t: Twin, evs: seq<Event>) {
    && BridgesResolve(t) && Carries(t) == Carries(base)
    && forall id :: id in t.seen && IsCascadeForm(id) ==> id in base.seen || CausedBySeen(t, evs, id)
  }

  ghost predicate CausedBySeen(t: Twin, evs: seq<Event>, id: EventId) {
    exists i, road :: 0 <= i < |evs| && id == CascadeId(evs[i].id, road) && evs[i].id in t.seen
  }

  /** A new cascade's id is unused: its cause is unseen, and no other submitted id is confusable with it. */
  lemma FreshCascade(base: Twin, t: Twin, evs: seq<Event>, ev: Event, road: RoadId)
    requires OnTrack(base, t, evs) && CleanId(base, ev.id) && ev.id !in t.seen
    requires forall i :: 0 <= i < |evs| ==> !DashPrefix(evs[i].id, ev.id) && !DashPrefix(ev.id, evs[i].id)
    ensures CascadeId(ev.id, road) !in t.seen
  {
    var id := CascadeId(ev.id, road);
    CascadeIdForm(ev.id, road);
    if id in t.seen {
      assert CausedBySeen(t, evs, id);
      var i, r :| 0 <= i < |evs| && id == CascadeId(evs[i].id, r) && evs[i].id in t.seen;
      CascadeIdsCoincide(ev.id, road, evs[i].id, r);
      assert false;
    }
  }

  lemma OnTrackStepIsClean(base: Twin, t: Twin, evs: seq<Event>, ev: Event)
    requires WellKeyed(t) && OnTrack(base, t, evs) && CleanId(base, ev.id) && NamesBridge(base, ev)
    requires forall i :: 0 <= i < |evs| ==> !DashPrefix(evs[i].id, ev.id) && !DashPrefix(ev.id, evs[i].id)
    ensures CleanStep(t, ev)
  {
    if ev.body.BridgeChanged? && ev.id !in t.seen {
      assert ev.body.bridge in Carries(base);
      FreshCascade(base, t, evs, ev, MirrorRoad(t, ev));
    }
    hide Transit, CleanId;
  }

  lemma OnTrackStaysOnTrack(base: Twin, t: Twin, evs: seq<Event>, ev: Event)
    requires OnTrack(base, t, evs) && CleanId(base, ev.id) && NamesBridge(base, ev)
    ensures OnTrack(base, Apply(t, ev).0, evs + [ev])
  {
    var t' := Apply(t, ev).0;
    assert ev.body.BridgeChanged? ==> ev.body.bridge in Carries(base);
    ApplyKeepsCarries(t, ev);
    ApplyKeepsBridgeIndex(t, ev);
    ApplySees(t, ev);
    ApplyLogsUnseen(t, ev);
    if CascadeOf(t, ev).Some? {
      CascadeCauseIsSeen(t, ev);
    }
    hide Apply, ResolveBridge, CascadeId, CascadeEvent, Transit, CascadeOf;
    assert BridgesResolve(t') by {
      SameCarriesResolve(t, t');
    }
    forall id | id in t'.seen && IsCascadeForm(id) && id !in base.seen ensures CausedBySeen(t', evs + [ev], id) {
      if id in t.seen {
        var i, road :| 0 <= i < |evs| && id == CascadeId(evs[i].id, road) && evs[i].id in t.seen;
        assert (evs + [ev])[i] == evs[i];
      } else {
        assert (evs + [ev])[|evs|] == ev;
      }
    }
  }

  lemma SameCarriesResolve(t: Twin, t': Twin)
    requires BridgesResolve(t) && Carries(t') == Carries(t)
    requires t'.overlay.Some? && t'.overlay.value.bridgeToRoad == t.overlay.value.bridgeToRoad
    ensures BridgesResolve(t')
  {
    forall b | b in t'.entities.bridges
      ensures ResolveBridge(t'.overlay.value, b) != ""
              && t'.entities.bridges[b].roadId == Some(ResolveBridge(t'.overlay.value, b))
    {
      assert b in Carries(t') && b in Carries(t);
    }
  }

  /** When a cascade is attempted its cause has been seen, and the cascade's id is of the expected form. */
  lemma CascadeCauseIsSeen(t: Twin, ev: Event)
    requires CascadeOf(t, ev).Some?
    ensures ev.id in Apply(t, ev).0.seen
    ensures exists road :: CascadeOf(t, ev).value.id == CascadeId(ev.id, road)
  {
    hide OnOther;
    var committed := Commit(t, Transit(t.entities, ev).after, ev);
    var o := Sync(committed, ev);
    if o.Some? {
      ApplyLogsUnseen(committed.(overlay := o.value), CascadeOf(t, ev).value);
    }
  }

  /** No submitted id followed by a dash begins another. */
  ghost predicate NoDashPrefixes(evs: seq<Event>) {
    forall i, j :: 0 <= i < |evs| && 0 <= j < |evs| ==> !DashPrefix(evs[i].id, evs[j].id)
  }

  /** One step of a run that is on track. */
  lemma StepOnTrack(base: Twin, t: Twin, evs: seq<Event>, ev: Event)
    requires WellKeyed(t) && Agree(t) && OnTrack(base, t, evs) && NamesBridge(base, ev) && CleanId(base, ev.id)
    requires forall i :: 0 <= i < |evs| ==> !DashPrefix(evs[i].id, ev.id) && !DashPrefix(ev.id, evs[i].id)
    ensures OnTrack(base, Apply(t, ev).0, evs + [ev]) && Agree(Apply(t, ev).0) && WellKeyed(Apply(t, ev).0)
  {
    hide *;
    OnTrackStepIsClean(base, t, evs, ev);
    CleanStepsAgree(t, ev);
    ApplyKeepsKeys(t, ev);
    OnTrackStaysOnTrack(base, t, evs, ev);
  }

  lemma {:induction false} EveryRunIsOnTrack(t: Twin, evs: seq<Event>)
    requires WellKeyed(t) && Agree(t) && BridgesResolve(t)
    requires forall i :: 0 <= i < |evs| ==> NamesBridge(t, evs[i]) && CleanId(t, evs[i].id)
    requires NoDashPrefixes(evs)
    ensures OnTrack(t, Run(t, evs), evs) && Agree(Run(t, evs)) && WellKeyed(Run(t, evs))
  {
    hide Agree, WellKeyed, CleanId, NamesBridge, Apply, BridgesResolve, DashPrefix;
    if evs == [] {
      assert Run(t, evs) == t;
    } else {
      hide OnTrack;
      var init, last := evs[..|evs| - 1], evs[|evs| - 1];
      EveryRunIsOnTrack(t, init);
      StepOnTrack(t, Run(t, init), init, last);
      assert init + [last] == evs;
    }
  }

  /**
    Twin and overlay agree after every event of every run, when they agree at the start, each registered
    bridge names the road its overlay index resolves to, bridge events name registered bridges and
    propagate, and the submitted ids are clean: not of cascade form, not the cause of a cascade id already
    seen, and none a dash prefix of another.
  */
  lemma EveryRunAgrees(t: Twin, evs: seq<Event>, n: nat)
    requires WellKeyed(t) && Agree(t) && BridgesResolve(t)
    requires forall i :: 0 <= i < |evs| ==> NamesBridge(t, evs[i]) && CleanId(t, evs[i].id)
    requires NoDashPrefixes(evs) && n <= |evs|
    ensures Agree(Run(t, evs[..n]))
  {
    EveryRunIsOnTrack(t, evs[..n]);
  }

  // ---- A collision ----------------------------------------------------------------------------------

  /** A cascade whose id is taken leaves its road alone, and the overlay disagrees. */
  lemma TakenCascadeBreaksAgreement(t: Twin, ev: Event)
    requires WellKeyed(t) && Agree(t) && t.overlay.Some? && ev.id !in t.seen && ev.body.BridgeChanged?
    requires MirrorRoad(t, ev) != "" && CascadeId(ev.id, MirrorRoad(t, ev)) in t.seen
    requires BridgeOf(t.entities, ev.body.bridge).status != ev.body.bridgeStatus
    requires RoadOf(t.entities, MirrorRoad(t, ev)).status != RoadStatusFor(ev.body.bridgeStatus)
    ensures !Agree(Apply(t, ev).0)
  {
    BridgeEventAgreesIff(t, ev);
  }

  /** Two open bridges, "B1" on road "Y-Z" and "B2" on road "Z", and nothing else. */
  function TwoBridges(): Twin {
    Twin(Entities(map[], map["B1" := DefaultBridge("B1").(roadId := Some("Y-Z")), "B2" := DefaultBridge("B2").(roadId := Some("Z"))],
                  map[], Registers(map[], map[], map[], map[], map[], map[])),
         0, 0, [], map[], Some(FRESH.(bridgeToRoad := map["B1" := "Y-Z", "B2" := "Z"])))
  }

  function Failure(id: EventId, bridge: BridgeId): Event {
    Event(id, 0, SystemEvent, None, None, None, BridgeChanged(bridge, BridgeBlocked, true))
  }

  /** The first failure before its cascade: the bridge is blocked, its mirror set, its road still unknown. */
  lemma FirstFailureMirrored()
    ensures var t, ev := TwoBridges(), Failure("X-Y", "B2");
            && Transit(t.entities, ev).Change?
            && var m := Mirrored(t, ev);
               && Apply(t, ev) == Cascade(m, ev) && WellKeyed(m)
               && m.seen == map["X-Y" := 1] && m.entities.roads == map[]
               && m.entities.bridges.Keys == {"B1", "B2"} && m.entities.bridges["B1"] == t.entities.bridges["B1"]
               && CascadeRoad(m.entities, ev) == Some("Z")
  {
    var t, ev := TwoBridges(), Failure("X-Y", "B2");
    TwoBridgesAreClean(ev);
    BridgeIsMirrored(t, ev);
    assert Mirrored(t, ev).entities == Transit(t.entities, ev).after;
    hide Apply, Cascade, WellKeyed, ResolveBridge, SetRoad;
  }

  /** The cascade to the unknown road "Z" creates it and nothing else, under its own id. */
  lemma CascadeCreatesRoad(m: Twin, ev: Event)
    requires WellKeyed(m) && ev == Failure("X-Y", "B2") && m.seen == map["X-Y" := 1] && m.entities.roads == map[]
    requires CascadeRoad(m.entities, ev) == Some("Z")
    ensures var t := Cascade(m, ev).0;
            t.seen.Keys == {"X-Y", CascadeId("X-Y", "Z")} && t.entities.bridges == m.entities.bridges && t.entities.roads.Keys == {"Z"}
  {
    var c := CascadeEvent(ev, "Z");
    CascadeIdForm("X-Y", "Z");
    ApplyRoad(m, c);
    assert Apply(m, c).1.Done?;
    CascadeSteps(m, ev, "Z");
    hide Cascade, Apply, WellKeyed, SetRoad;
  }

  /** What the first failure leaves behind. */
  lemma FirstFailure()
    ensures var t := Apply(TwoBridges(), Failure("X-Y", "B2")).0;
            && CascadeId("X-Y", "Z") in t.seen && "X" !in t.seen
            && t.entities.bridges.Keys == {"B1", "B2"} && t.entities.bridges["B1"] == TwoBridges().entities.bridges["B1"]
            && t.entities.roads.Keys == {"Z"}
  {
    hide Apply, Cascade, Mirrored, Transit, WellKeyed, CascadeRoad;
    FirstFailureMirrored();
    CascadeCreatesRoad(Mirrored(TwoBridges(), Failure("X-Y", "B2")), Failure("X-Y", "B2"));
    assert |CascadeId("X-Y", "Z")| > 1;
  }

  lemma TwoBridgesAreClean(ev: Event)
    requires ev in [Failure("X-Y", "B2"), Failure("X", "B1")]
    ensures var t := TwoBridges(); WellKeyed(t) && Agree(t) && BridgesResolve(t) && NamesBridge(t, ev) && CleanId(t, ev.id)
  {
  }

  /** After the first failure everything is still in order, and the second one's cascade id is taken. */
  lemma SecondFailureCollides()
    ensures var t, ev := Apply(TwoBridges(), Failure("X-Y", "B2")).0, Failure("X", "B1");
            && WellKeyed(t) && Agree(t) && t.overlay.Some? && ev.id !in t.seen
            && MirrorRoad(t, ev) == "Y-Z" && CascadeId(ev.id, "Y-Z") in t.seen
            && BridgeOf(t.entities, "B1").status == BridgeOpen && RoadOf(t.entities, "Y-Z").status == Open
  {
    hide Apply, Agree, WellKeyed, BridgesResolve, Run, Cascade;
    var t, first := TwoBridges(), Failure("X-Y", "B2");
    assert CascadeId("X", "Y-Z") == CascadeId("X-Y", "Z");
    TwoBridgesAreClean(first);
    OneRunAgrees(t, first);
    ApplyKeepsKeys(t, first);
    ApplyKeepsBridgeIndex(t, first);
    FirstFailure();
  }

  lemma OneRunAgrees(t: Twin, ev: Event)
    requires WellKeyed(t) && Agree(t) && BridgesResolve(t) && NamesBridge(t, ev) && CleanId(t, ev.id)
    ensures Run(t, [ev]) == Apply(t, ev).0 && Agree(Apply(t, ev).0)
  {
    assert [ev][..1] == [ev] && [ev][..0] == [] && |ev.id + "-"| > |ev.id|;
    hide Apply, Agree, WellKeyed, BridgesResolve, NamesBridge, CleanId;
    EveryRunAgrees(t, [ev], 1);
  }

  /**
    Cascade ids are not injective: "X-Y" failing a bridge on "Z" and then "X" failing one on "Y-Z" claim the
    same one. The second cascade is dropped as a duplicate, its road stays open in the twin while the overlay
    blocks it. All hypotheses of `EveryRunAgrees` hold but the one on dash prefixes.
  */
  lemma CollidingCascadeBreaksAgreement()
    ensures var t, evs := TwoBridges(), [Failure("X-Y", "B2"), Failure("X", "B1")];
            && WellKeyed(t) && Agree(t) && BridgesResolve(t)
            && (forall i :: 0 <= i < |evs| ==> NamesBridge(t, evs[i]) && CleanId(t, evs[i].id))
            && Agree(Run(t, evs[..1])) && !Agree(Run(t, evs))
  {
    hide Apply, Agree, WellKeyed, BridgesResolve, NamesBridge, CleanId, TwoBridges, Run, BridgeOf, RoadOf, ResolveBridge;
    var t, first, second := TwoBridges(), Failure("X-Y", "B2"), Failure("X", "B1");
    TwoBridgesAreClean(first);
    TwoBridgesAreClean(second);
    SecondFailureCollides();
    TakenCascadeBreaksAgreement(Apply(t, first).0, second);
    OneRunAgrees(t, first);
    RunTwo(t, first, second);
    assert [first, second][..1] == [first];
  }

  /** Driven by the twin, the overlay stays exactly its event history. */
  lemma {:induction false} ApplyKeepsHistory(t: Twin, ev: Event)
    requires t.overlay.Some? ==> HistoryOk(t.overlay.value)
    ensures Apply(t, ev).0.overlay.Some? ==> HistoryOk(Apply(t, ev).0.overlay.value)
    decreases if ev.body.BridgeChanged? then 1 else 0
  {
    hide OnOther, OnRoad, OnBridge, HistoryOk;
    if ev.id !in t.seen && Transit(t.entities, ev).Change? {
      var committed := Commit(t, Transit(t.entities, ev).after, ev);
      var o := Sync(committed, ev);
      SyncKeepsHistory(committed, ev);
      hide OnOther, OnRoad, OnBridge, Transit, HistoryOk, Sync;
      if o.Some? {
        var road := CascadeRoad(committed.entities, ev);
        if road.Some? {
          ApplyKeepsHistory(committed.(overlay := o.value), CascadeEvent(ev, road.value));
        }
      }
    }
  }

  lemma SyncKeepsHistory(t: Twin, ev: Event)
    requires t.overlay.Some? ==> HistoryOk(t.overlay.value)
    ensures Sync(t, ev).Some? && Sync(t, ev).value.Some? ==> HistoryOk(Sync(t, ev).value.value)
  {
    if t.overlay.Some? {
      if ev.body.RoadChanged? {
        SetRoadKeepsHistory(t.overlay.value, RoadOverrideFor(RoadOf(t.entities, ev.body.road)));
      } else if ev.body.BridgeChanged? {
        var b := BridgeOf(t.entities, ev.body.bridge);
        SetRoadKeepsHistory(t.overlay.value,
          BridgeOverride(t.overlay.value, b.bridgeId, RoadStatusFor(b.status), SourceOverride(b.source)));
      }
    }
    hide HistoryOk;
  }
}
