/** Rebuilding a twin by replaying its own log: exactly when it works. */
module ReplayTheory {
  import opened Basics
  import opened Overlay
  import opened TwinEntities
  import opened TwinState
  import opened TwinReplay

  // ---- What a replay hears ------------------------------------------------------------------

  lemma CascadeIdForm(cause: EventId, road: RoadId)
    ensures IsCascadeForm(CascadeId(cause, road))
    ensures CASCADE_PREFIX + cause + "-" <= CascadeId(cause, road)
    ensures CascadeId(cause, road) != cause
  {
    assert CascadeId(cause, road) == (CASCADE_PREFIX + cause + "-") + road;
    assert CascadeId(cause, road) == CASCADE_PREFIX + (cause + "-" + road);
    assert |CascadeId(cause, road)| > |cause|;
  }

  /** The road event that applying ev to t attempts as its cascade, if any. */
  function CascadeOf(t: Twin, ev: Event): Option<Event> {
    if ev.id in t.seen || !Transit(t.entities, ev).Change? then None
    else
      match CascadeRoad(Transit(t.entities, ev).after, ev)
      case None => None
      case Some(road) => Some(CascadeEvent(ev, road))
  }

  /** The ids a replay of the log has met once it has replayed what ev added to it. */
  function HeardAfter(t: Twin, heard: set<EventId>, ev: Event): set<EventId> {
    if ev.id in t.seen || !Transit(t.entities, ev).Change? then heard
    else
      match CascadeOf(t, ev)
      case None => heard + {ev.id}
      case Some(c) => heard + {ev.id, c.id}
  }

  function Heard(base: Twin, evs: seq<Event>): set<EventId> {
    if evs == [] then {}
    else HeardAfter(Run(base, evs[..|evs| - 1]), Heard(base, evs[..|evs| - 1]), evs[|evs| - 1])
  }

  /**
    The live twin drops ev's cascade as a duplicate of an id that no replay will meet (an event without
    effect, or one from before the snapshot), although the cascade would have changed its road.
  */
  predicate Silenced(t: Twin, heard: set<EventId>, ev: Event) {
    var c := CascadeOf(t, ev);
    && c.Some? && c.value.body.RoadChanged?
    && c.value.id in t.seen && c.value.id !in heard
    && NextRoad(RoadOf(t.entities, c.value.body.road), c.value).Some?
  }

  ghost predicate NothingSilenced(base: Twin, evs: seq<Event>) {
    forall i :: 0 <= i < |evs| ==> !Silenced(Run(base, evs[..i]), Heard(base, evs[..i]), evs[i])
  }

  lemma NothingSilencedSnoc(base: Twin, evs: seq<Event>)
    requires evs != []
    ensures var init := evs[..|evs| - 1];
            NothingSilenced(base, evs) <==>
              NothingSilenced(base, init) && !Silenced(Run(base, init), Heard(base, init), evs[|evs| - 1])
  {
    hide Silenced, Run, Heard;
    var init := evs[..|evs| - 1];
    assert forall i :: 0 <= i < |init| ==> init[..i] == evs[..i] && init[i] == evs[i];
  }

  // ---- Keeping a replay in step -----------------------------------------------------------

  /**
    The replaying twin tracks the live one from log position `since` on: same version, time and log,
    the same entities up to defaults, and it has seen exactly the ids heard.
  */
  ghost predicate Tracks(live: Twin, rep: Twin, since: nat, heard: set<EventId>) {
    && rep.overlay.None? && live.overlay.None?
    && rep.version == live.version && rep.updatedAt == live.updatedAt
    && since <= |live.log| && rep.log == live.log[since..]
    && SameUpToDefaults(live.entities, rep.entities)
    && rep.seen.Keys == heard && heard <= live.seen.Keys
    && (forall i :: 0 <= i < |rep.log| ==> rep.log[i].id in heard)
  }

  /** Committing the same change on both sides keeps them in step. */
  lemma CommitTracks(live: Twin, rep: Twin, since: nat, heard: set<EventId>, ev: Event, version: Option<int>)
    requires Tracks(live, rep, since, heard)
    requires Transit(live.entities, ev).Change?
    ensures var rev := ev.(version := version);
            && Transit(rep.entities, rev).Change?
            && Tracks(Commit(live, Transit(live.entities, ev).after, ev), Commit(rep, Transit(rep.entities, rev).after, rev),
                      since, heard + {ev.id})
  {
    TransitIgnoresDefaults(live.entities, rep.entities, ev, version);
    hide Transit, SameUpToDefaults;
    var logged := ev.(version := Some(live.version + 1));
    assert (live.log + [logged])[since..] == live.log[since..] + [logged];
  }

  lemma RoadNeverRefused(es: Entities, ev: Event)
    requires ev.body.RoadChanged?
    ensures !Transit(es, ev).Refused?
  {
  }

  lemma ApplyNoChange(t: Twin, ev: Event)
    requires ev.id !in t.seen && Transit(t.entities, ev).NoChange?
    ensures var t' := t.(entities := Transit(t.entities, ev).after, seen := t.seen[ev.id := t.version]);
            Apply(t, ev) == (t', NoOp(t', ev))
  {
  }

  lemma ApplyRoadChange(t: Twin, ev: Event)
    requires ev.body.RoadChanged? && t.overlay.None? && ev.id !in t.seen && Transit(t.entities, ev).Change?
    ensures var t' := Commit(t, Transit(t.entities, ev).after, ev);
            && Apply(t, ev) == (t', Applied(t', ev, []))
            && ev.id in t'.seen && t'.log == t.log + [ev.(version := Some(t.version + 1))]
  {
    ApplyChange(t, ev);
    hide Transit, OnRoad, OnOther, Apply;
  }

  /** A cascade keeps both sides in step unless only the live one drops it. */
  lemma CascadeTracks(live: Twin, rep: Twin, since: nat, heard: set<EventId>, c: Event)
    requires Tracks(live, rep, since, heard) && c.body.RoadChanged?
    requires c.id in live.seen && c.id !in heard ==> NextRoad(RoadOf(live.entities, c.body.road), c).None?
    ensures Tracks(Apply(live, c).0, Apply(rep, c).0, since, heard + {c.id})
    ensures Apply(live, c).1.Done? && Apply(rep, c).1.Done?
    ensures c.id in Apply(rep, c).0.seen
    ensures var live' := Apply(live, c).0;
            live'.log == live.log || live'.log == live.log + [c.(version := Some(live.version + 1))]
  {
    if c.id in heard {
      assert heard + {c.id} == heard;
      hide Transit, SameUpToDefaults;
    } else if c.id in live.seen {
      SilentCascadeIsHarmless(live, rep, since, heard, c);
    } else {
      UnseenRoadTracks(live, rep, since, heard, c);
    }
  }

  /** A cascade that only the live twin drops, and that would change nothing. */
  lemma SilentCascadeIsHarmless(live: Twin, rep: Twin, since: nat, heard: set<EventId>, c: Event)
    requires Tracks(live, rep, since, heard) && c.body.RoadChanged? && c.id in live.seen && c.id !in heard
    requires NextRoad(RoadOf(live.entities, c.body.road), c).None?
    ensures Apply(live, c).0 == live && Apply(live, c).1.Done?
    ensures Apply(rep, c).1.Done? && c.id in Apply(rep, c).0.seen
    ensures Tracks(live, Apply(rep, c).0, since, heard + {c.id})
  {
    assert RoadOf(rep.entities, c.body.road) == RoadOf(live.entities, c.body.road);
    assert Transit(rep.entities, c).NoChange?;
    ApplyNoChange(rep, c);
    DefaultsAreInvisible(live.entities, rep.entities, c.body.road);
    hide SameUpToDefaults, Apply, OnOther;
  }

  lemma DefaultsAreInvisible(a: Entities, b: Entities, road: RoadId)
    requires SameUpToDefaults(a, b)
    ensures SameUpToDefaults(a, b.(roads := b.roads[road := RoadOf(b, road)]))
  {
  }

  /** A road event that neither side has seen. */
  lemma UnseenRoadTracks(live: Twin, rep: Twin, since: nat, heard: set<EventId>, c: Event)
    requires Tracks(live, rep, since, heard) && c.body.RoadChanged? && c.id !in live.seen && c.id !in heard
    ensures Tracks(Apply(live, c).0, Apply(rep, c).0, since, heard + {c.id})
    ensures Apply(live, c).1.Done? && Apply(rep, c).1.Done?
    ensures c.id in Apply(rep, c).0.seen
    ensures var live' := Apply(live, c).0;
            live'.log == live.log || live'.log == live.log + [c.(version := Some(live.version + 1))]
  {
    RoadNeverRefused(live.entities, c);
    hide Transit, SameUpToDefaults, OnRoad, OnOther;
    TransitIgnoresDefaults(live.entities, rep.entities, c, c.version);
    assert c.(version := c.version) == c;
    if Transit(live.entities, c).Change? {
      CommitTracks(live, rep, since, heard, c, c.version);
      ApplyRoadChange(live, c);
      ApplyRoadChange(rep, c);
      hide *;
    } else {
      ApplyNoChange(live, c);
      ApplyNoChange(rep, c);
      hide Apply;
    }
  }

  lemma ReplayOne(t: Twin, ev: Event)
    requires Apply(t, ev).1.Done?
    ensures Replay(t, [ev]) == Some(Apply(t, ev).0)
  {
  }

  lemma ReplayTwo(t: Twin, a: Event, b: Event)
    requires Apply(t, a).1.Done? && b.id in Apply(t, a).0.seen
    ensures Replay(t, [a, b]) == Some(Apply(t, a).0)
  {
    ReplayOne(t, a);
    ReplayConcat(t, [a], [b]);
    ReplayOne(Apply(t, a).0, b);
    assert [a, b] == [a] + [b];
  }

  lemma CascadeCarriesNoStamp(ev: Event, version: Option<int>, road: RoadId)
    requires ev.body.BridgeChanged?
    ensures CascadeEvent(ev.(version := version), road) == CascadeEvent(ev, road)
    ensures CascadeEvent(ev, road).body.RoadChanged? && CascadeEvent(ev, road).id == CascadeId(ev.id, road)
  {
  }

  /** Without an overlay, a change is committed and then cascades. */
  lemma ApplyChange(t: Twin, ev: Event)
    requires t.overlay.None? && ev.id !in t.seen && Transit(t.entities, ev).Change?
    ensures Apply(t, ev) == Cascade(Commit(t, Transit(t.entities, ev).after, ev), ev)
  {
    hide OnOther;
    var committed := Commit(t, Transit(t.entities, ev).after, ev);
    assert committed.(overlay := None) == committed;
  }

  /** Both sides commit the change and have the same road to cascade to. */
  lemma ChangeOnBoth(live: Twin, rep: Twin, since: nat, heard: set<EventId>, ev: Event, stamp: Option<int>)
    requires Tracks(live, rep, since, heard)
    requires ev.id !in live.seen && Transit(live.entities, ev).Change?
    ensures var logged := ev.(version := stamp);
            && Transit(rep.entities, logged).Change?
            && var cl := Commit(live, Transit(live.entities, ev).after, ev);
               var cr := Commit(rep, Transit(rep.entities, logged).after, logged);
               && Tracks(cl, cr, since, heard + {ev.id})
               && CascadeRoad(cl.entities, ev) == CascadeRoad(cr.entities, logged)
               && Apply(live, ev) == Cascade(cl, ev) && Apply(rep, logged) == Cascade(cr, logged)
  {
    CommitTracks(live, rep, since, heard, ev, stamp);
    ApplyChange(live, ev);
    ApplyChange(rep, ev.(version := stamp));
    hide Transit, OnOther, Apply, Cascade, IsCascadeForm;
  }

  /** What a cascade does, in terms of the event it applies. */
  lemma CascadeSteps(t: Twin, ev: Event, road: RoadId)
    requires CascadeRoad(t.entities, ev) == Some(road) && Apply(t, CascadeEvent(ev, road)).1.Done?
    ensures Cascade(t, ev).0 == Apply(t, CascadeEvent(ev, road)).0 && Cascade(t, ev).1.Done?
  {
  }

  lemma BridgeLeavesRoads(es: Entities, ev: Event)
    requires ev.body.BridgeChanged? && Transit(es, ev).Change?
    ensures Transit(es, ev).after.roads == es.roads
  {
  }

  /** One live step whose cascade is not silenced replays, from its log entries, to a step of the replaying twin. */
  lemma StepReplays(live: Twin, rep: Twin, since: nat, heard: set<EventId>, ev: Event)
    requires Tracks(live, rep, since, heard) && !Silenced(live, heard, ev)
    ensures var live' := Apply(live, ev).0;
            && live.log <= live'.log
            && var r := Replay(rep, live'.log[|live.log|..]);
               r.Some? && Tracks(live', r.value, since, HeardAfter(live, heard, ev))
  {
    var live' := Apply(live, ev).0;
    if ev.id in live.seen || Transit(live.entities, ev).Refused? {
      assert live'.log[|live.log|..] == [];
    } else if Transit(live.entities, ev).NoChange? {
      NoChangeCreatesDefaults(live.entities, rep.entities, ev);
      assert live'.log[|live.log|..] == [];
      hide Transit, SameUpToDefaults;
    } else {
      ChangeReplays(live, rep, since, heard, ev);
    }
  }

  lemma ChangeReplays(live: Twin, rep: Twin, since: nat, heard: set<EventId>, ev: Event)
    requires Tracks(live, rep, since, heard) && !Silenced(live, heard, ev)
    requires ev.id !in live.seen && Transit(live.entities, ev).Change?
    ensures var live' := Apply(live, ev).0;
            && live.log <= live'.log
            && var r := Replay(rep, live'.log[|live.log|..]);
               r.Some? && Tracks(live', r.value, since, HeardAfter(live, heard, ev))
  {
    var stamp := Some(live.version + 1);
    var logged := ev.(version := stamp);
    ChangeOnBoth(live, rep, since, heard, ev, stamp);
    var cl := Commit(live, Transit(live.entities, ev).after, ev);
    var cr := Commit(rep, Transit(rep.entities, logged).after, logged);
    var live' := Apply(live, ev).0;
    var road := CascadeRoad(cl.entities, ev);
    assert cl.log == live.log + [logged] && cl.seen.Keys == live.seen.Keys + {ev.id};
    if road.None? {
      hide Tracks, Transit, Apply, IsCascadeForm, CascadeEvent, CascadeRoad;
      assert Apply(rep, logged).1.Done?;
      ReplayOne(rep, logged);
      assert live'.log[|live.log|..] == [logged];
    } else {
      BridgeLeavesRoads(live.entities, ev);
      CascadeIdForm(ev.id, road.value);
      assert heard + {ev.id} + {CascadeId(ev.id, road.value)} == heard + {ev.id, CascadeId(ev.id, road.value)};
      CascadeReplays(live.log, rep, cl, cr, since, heard + {ev.id}, ev, stamp, road.value);
    }
  }

  lemma CascadeReplays(before: seq<Event>, rep: Twin, cl: Twin, cr: Twin, since: nat, heard: set<EventId>,
                       ev: Event, stamp: Option<int>, road: RoadId)
    requires ev.body.BridgeChanged? && Tracks(cl, cr, since, heard)
    requires cl.log == before + [ev.(version := stamp)]
    requires CascadeRoad(cl.entities, ev) == CascadeRoad(cr.entities, ev.(version := stamp)) == Some(road)
    requires Apply(rep, ev.(version := stamp)) == Cascade(cr, ev.(version := stamp))
    requires CascadeId(ev.id, road) in cl.seen && CascadeId(ev.id, road) !in heard ==>
               NextRoad(RoadOf(cl.entities, road), CascadeEvent(ev, road)).None?
    ensures var live' := Cascade(cl, ev).0;
            && before <= live'.log
            && var r := Replay(rep, live'.log[|before|..]);
               r.Some? && Tracks(live', r.value, since, heard + {CascadeId(ev.id, road)})
  {
    var logged, c := ev.(version := stamp), CascadeEvent(ev, road);
    CascadeCarriesNoStamp(ev, stamp, road);
    CascadeTracks(cl, cr, since, heard, c);
    hide Tracks, Apply, IsCascadeForm, CascadeEvent, CascadeRoad, Cascade;
    CascadeSteps(cl, ev, road);
    CascadeSteps(cr, logged, road);
    var live' := Apply(cl, c).0;
    if live'.log == cl.log {
      ReplayOne(rep, logged);
      assert live'.log[|before|..] == [logged];
    } else {
      var second := c.(version := Some(cl.version + 1));
      ReplayTwo(rep, logged, second);
      assert live'.log[|before|..] == [logged, second];
    }
  }

  /** A replay in step stays in step over one more event. */
  lemma StepExtendsReplay(start: Twin, live: Twin, since: nat, heard: set<EventId>, ev: Event)
    requires since <= |live.log| && Replay(start, live.log[since..]).Some?
    requires Tracks(live, Replay(start, live.log[since..]).value, since, heard) && !Silenced(live, heard, ev)
    ensures var live' := Apply(live, ev).0;
            && live.log <= live'.log
            && var r := Replay(start, live'.log[since..]);
               r.Some? && Tracks(live', r.value, since, HeardAfter(live, heard, ev))
  {
    hide *;
    var before := live.log[since..];
    var live' := Apply(live, ev).0;
    StepReplays(live, Replay(start, before).value, since, heard, ev);
    ReplayConcat(start, before, live'.log[|live.log|..]);
    assert live'.log[since..] == before + live'.log[|live.log|..];
  }

  lemma {:induction false} RunReplays(base: Twin, evs: seq<Event>)
    requires base.overlay.None? && NothingSilenced(base, evs)
    ensures var live := Run(base, evs);
            && base.log <= live.log
            && var r := Replay(Restored(base), live.log[|base.log|..]);
               r.Some? && Tracks(live, r.value, |base.log|, Heard(base, evs))
  {
    hide Apply, HeardAfter, Silenced;
    if evs == [] {
      assert Run(base, evs).log[|base.log|..] == [];
    } else {
      var init, last := evs[..|evs| - 1], evs[|evs| - 1];
      NothingSilencedSnoc(base, evs);
      hide NothingSilenced, Tracks, Replay, Restored;
      RunReplays(base, init);
      StepExtendsReplay(Restored(base), Run(base, init), |base.log|, Heard(base, init), last);
    }
  }

  // ---- A silenced cascade is never recovered from ------------------------------------------------

  /** The live twin knows this id but has not logged it since the snapshot. */
  ghost predicate Stray(live: Twin, since: nat, id: EventId) {
    id in live.seen && forall i :: since <= i < |live.log| ==> live.log[i].id != id
  }

  /** The replay raised, or logged an id that is stray in the live twin. */
  ghost predicate Diverged(live: Twin, since: nat, r: Option<Twin>) {
    r.Some? ==> exists k :: 0 <= k < |r.value.log| && Stray(live, since, r.value.log[k].id)
  }

  /** Applying an event forgets no id, and logs only ids that were not seen before. */
  lemma {:induction false} ApplyLogsUnseen(t: Twin, ev: Event)
    ensures var t' := Apply(t, ev).0;
            && t.log <= t'.log && t.seen.Keys <= t'.seen.Keys
            && forall i :: |t.log| <= i < |t'.log| ==> t'.log[i].id !in t.seen
    decreases if ev.body.BridgeChanged? then 1 else 0
  {
    if ev.id !in t.seen && Transit(t.entities, ev).Change? {
      hide OnOther;
      var committed := Commit(t, Transit(t.entities, ev).after, ev);
      var o := Sync(committed, ev);
      if o.Some? {
        var road := CascadeRoad(committed.entities, ev);
        if road.Some? {
          ApplyLogsUnseen(committed.(overlay := o.value), CascadeEvent(ev, road.value));
        }
      }
    }
  }

  lemma {:induction false} ReplayGrowsLog(t: Twin, evs: seq<Event>)
    ensures Replay(t, evs).Some? ==> t.log <= Replay(t, evs).value.log
  {
    if evs != [] {
      ReplayGrowsLog(t, evs[..|evs| - 1]);
      if Replay(t, evs[..|evs| - 1]).Some? {
        ApplyLogsUnseen(Replay(t, evs[..|evs| - 1]).value, evs[|evs| - 1]);
      }
    }
  }

  lemma {:induction false} ReplayStaysRaised(t: Twin, a: seq<Event>, b: seq<Event>)
    requires Replay(t, a).None?
    ensures Replay(t, a + b).None?
  {
    if b == [] {
      assert a + b == a;
    } else {
      ReplayStaysRaised(t, a, b[..|b| - 1]);
      assert (a + b)[..|a + b| - 1] == a + b[..|b| - 1];
    }
  }

  /** No later event brings a diverged replay back. */
  lemma DivergedForGood(base: Twin, live: Twin, since: nat, ev: Event)
    requires since <= |live.log| && Diverged(live, since, Replay(base, live.log[since..]))
    ensures var live' := Apply(live, ev).0;
            since <= |live'.log| && Diverged(live', since, Replay(base, live'.log[since..]))
  {
    var live' := Apply(live, ev).0;
    ApplyLogsUnseen(live, ev);
    var before, added := live.log[since..], live'.log[|live.log|..];
    assert live'.log[since..] == before + added;
    hide Apply, Replay;
    var r := Replay(base, before);
    if r.None? {
      ReplayStaysRaised(base, before, added);
    } else {
      ReplayConcat(base, before, added);
      ReplayGrowsLog(r.value, added);
      var k :| 0 <= k < |r.value.log| && Stray(live, since, r.value.log[k].id);
      assert Stray(live', since, r.value.log[k].id);
    }
  }

  /** The replay applies the cascade that the live twin dropped. */
  lemma SilencedStepDiverges(live: Twin, rep: Twin, since: nat, heard: set<EventId>, ev: Event)
    requires Tracks(live, rep, since, heard) && Silenced(live, heard, ev)
    ensures var live' := Apply(live, ev).0;
            && live.log <= live'.log
            && Diverged(live', since, Replay(rep, live'.log[|live.log|..]))
  {
    var stamp := Some(live.version + 1);
    var logged, c := ev.(version := stamp), CascadeOf(live, ev).value;
    ChangeOnBoth(live, rep, since, heard, ev, stamp);
    var cl := Commit(live, Transit(live.entities, ev).after, ev);
    var cr := Commit(rep, Transit(rep.entities, logged).after, logged);
    var road := CascadeRoad(cl.entities, ev).value;
    BridgeLeavesRoads(live.entities, ev);
    CascadeIdForm(ev.id, road);
    CascadeCarriesNoStamp(ev, stamp, road);
    assert cl.log == live.log + [logged];
    assert RoadOf(cr.entities, road) == RoadOf(cl.entities, road) == RoadOf(live.entities, road);
    assert Transit(cr.entities, c).Change?;
    assert c.id != ev.id && c.id !in cr.seen && c.id in cl.seen && cr.overlay.None?;
    hide Transit, NextRoad, RoadOf, CascadeOf, SameUpToDefaults, IsCascadeForm, CascadeEvent;
    ApplyRoadChange(cr, c);
    SeenIsDropped(cl, c);
    hide Apply, CascadeRoad;
    CascadeSteps(cl, ev, road);
    CascadeSteps(cr, logged, road);
    ReplayOne(rep, logged);
    var live', rep' := Cascade(cl, ev).0, Cascade(cr, logged).0;
    assert live'.log[|live.log|..] == [logged];
    assert rep'.log == cr.log + [c.(version := Some(cr.version + 1))];
    assert Stray(live', since, rep'.log[|cr.log|].id);
  }

  lemma SeenIsDropped(t: Twin, ev: Event)
    requires ev.id in t.seen
    ensures Apply(t, ev).0 == t && Apply(t, ev).1.Done?
  {
  }

  /** A replay in step up to a silenced cascade diverges there. */
  lemma FirstSilencedDiverges(start: Twin, live: Twin, since: nat, heard: set<EventId>, ev: Event)
    requires since <= |live.log| && Replay(start, live.log[since..]).Some?
    requires Tracks(live, Replay(start, live.log[since..]).value, since, heard) && Silenced(live, heard, ev)
    ensures var live' := Apply(live, ev).0;
            since <= |live'.log| && Diverged(live', since, Replay(start, live'.log[since..]))
  {
    hide *;
    var before := live.log[since..];
    var live' := Apply(live, ev).0;
    SilencedStepDiverges(live, Replay(start, before).value, since, heard, ev);
    ReplayConcat(start, before, live'.log[|live.log|..]);
    assert live'.log[since..] == before + live'.log[|live.log|..];
  }

  lemma {:induction false} SilencedRunDiverges(base: Twin, evs: seq<Event>)
    requires base.overlay.None? && evs != [] && !NothingSilenced(base, evs)
    ensures var live := Run(base, evs);
            && base.log <= live.log
            && Diverged(live, |base.log|, Replay(Restored(base), live.log[|base.log|..]))
  {
    hide Apply, Replay, Heard, Silenced, Tracks, Diverged, Restored;
    var init, last := evs[..|evs| - 1], evs[|evs| - 1];
    NothingSilencedSnoc(base, evs);
    var live := Run(base, init);
    assert Run(base, evs) == Apply(live, last).0;
    ApplyLogsUnseen(live, last);
    if NothingSilenced(base, init) {
      RunReplays(base, init);
      FirstSilencedDiverges(Restored(base), live, |base.log|, Heard(base, init), last);
    } else {
      assert init != [];
      hide *;
      SilencedRunDiverges(base, init);
      DivergedForGood(Restored(base), live, |base.log|, last);
    }
  }

  // ---- Replay with overlays attached -----------------------------------------------------------

  lemma NamedTargetsAreNotEmpty(t: Twin, ev: Event)
    requires NamedTarget(ev) || t.overlay.None?
    ensures !EmptyTarget(t, ev)
  {
  }

  lemma {:induction false} RunIgnoresOverlay(t: Twin, u: Twin, evs: seq<Event>)
    requires WellKeyed(t) && WellKeyed(u) && SameCore(t, u)
    requires forall i :: 0 <= i < |evs| ==> NamedTarget(evs[i])
    ensures SameCore(Run(t, evs), Run(u, evs))
  {
    if evs != [] {
      var init, last := evs[..|evs| - 1], evs[|evs| - 1];
      RunIgnoresOverlay(t, u, init);
      RunKeepsKeys(t, init);
      RunKeepsKeys(u, init);
      NamedTargetsAreNotEmpty(Run(t, init), last);
      NamedTargetsAreNotEmpty(Run(u, init), last);
      OverlayIsWriteOnly(Run(t, init), Run(u, init), last);
    }
  }

  lemma {:induction false} ReplayIgnoresOverlay(t: Twin, u: Twin, evs: seq<Event>)
    requires WellKeyed(t) && WellKeyed(u) && SameCore(t, u)
    requires forall i :: 0 <= i < |evs| ==> NamedTarget(evs[i])
    ensures var a, b := Replay(t, evs), Replay(u, evs);
            a.Some? == b.Some? && (a.Some? ==> SameCore(a.value, b.value) && WellKeyed(a.value) && WellKeyed(b.value))
  {
    if evs != [] {
      var init, last := evs[..|evs| - 1], evs[|evs| - 1];
      ReplayIgnoresOverlay(t, u, init);
      if Replay(t, init).Some? {
        var a, b := Replay(t, init).value, Replay(u, init).value;
        NamedTargetsAreNotEmpty(a, last);
        NamedTargetsAreNotEmpty(b, last);
        OverlayIsWriteOnly(a, b, last);
        ApplyKeepsKeys(a, last);
        ApplyKeepsKeys(b, last);
      }
    }
  }

  /** Cascades only target named roads, so a log of named submissions has only named targets. */
  lemma {:induction false} StepLogsNamedTargets(t: Twin, ev: Event)
    requires NamedTarget(ev)
    ensures var t' := Apply(t, ev).0;
            t.log <= t'.log && forall i :: |t.log| <= i < |t'.log| ==> NamedTarget(t'.log[i])
    decreases if ev.body.BridgeChanged? then 1 else 0
  {
    if ev.id !in t.seen && Transit(t.entities, ev).Change? {
      hide OnOther;
      var committed := Commit(t, Transit(t.entities, ev).after, ev);
      var o := Sync(committed, ev);
      if o.Some? {
        var road := CascadeRoad(committed.entities, ev);
        if road.Some? {
          StepLogsNamedTargets(committed.(overlay := o.value), CascadeEvent(ev, road.value));
        }
      }
    }
  }

  lemma {:induction false} RunLogsNamedTargets(t: Twin, evs: seq<Event>)
    requires forall i :: 0 <= i < |evs| ==> NamedTarget(evs[i])
    ensures t.log <= Run(t, evs).log
    ensures forall i :: |t.log| <= i < |Run(t, evs).log| ==> NamedTarget(Run(t, evs).log[i])
  {
    if evs != [] {
      RunLogsNamedTargets(t, evs[..|evs| - 1]);
      StepLogsNamedTargets(Run(t, evs[..|evs| - 1]), evs[|evs| - 1]);
    }
  }

  lemma SameCoreCascadesAlike(t: Twin, u: Twin, heard: set<EventId>, ev: Event)
    requires SameCore(t, u)
    ensures HeardAfter(t, heard, ev) == HeardAfter(u, heard, ev) && Silenced(t, heard, ev) == Silenced(u, heard, ev)
  {
    hide Transit, CascadeRoad, NextRoad, CascadeEvent;
    assert t.entities == u.entities && t.seen == u.seen;
  }

  /** Silencing depends on entities and seen ids only. */
  lemma {:induction false} HeardIgnoresOverlay(t: Twin, u: Twin, evs: seq<Event>)
    requires WellKeyed(t) && WellKeyed(u) && SameCore(t, u)
    requires forall i :: 0 <= i < |evs| ==> NamedTarget(evs[i])
    ensures Heard(t, evs) == Heard(u, evs) && NothingSilenced(t, evs) == NothingSilenced(u, evs)
  {
    if evs != [] {
      var init := evs[..|evs| - 1];
      HeardIgnoresOverlay(t, u, init);
      RunIgnoresOverlay(t, u, init);
      NothingSilencedSnoc(t, evs);
      NothingSilencedSnoc(u, evs);
      hide NothingSilenced, Run, NamedTarget, WellKeyed;
      SameCoreCascadesAlike(Run(t, init), Run(u, init), Heard(t, init), evs[|evs| - 1]);
      hide SameCore, Silenced, HeardAfter;
    }
  }

  /** Which replayed twin stands for which live one. */
  ghost predicate Rebuilt(live: Twin, base: Twin, rep: Twin) {
    && |base.log| <= |live.log|
    && rep.version == live.version && rep.updatedAt == live.updatedAt
    && rep.log == live.log[|base.log|..]
    && SameUpToDefaults(live.entities, rep.entities)
  }

  /** Replaying what the live twin logged since `base`, on a manager restored from it, succeeds and rebuilds it. */
  ghost predicate ReplayWorks(base: Twin, evs: seq<Event>, mirror: Option<OverlayState>) {
    var live := Run(base, evs);
    && base.log <= live.log
    && var r := Replay(Restored(base).(overlay := mirror), live.log[|base.log|..]);
       r.Some? && Rebuilt(live, base, r.value)
  }

  lemma BareReplayWorksIff(base: Twin, evs: seq<Event>)
    requires base.overlay.None?
    ensures ReplayWorks(base, evs, None) <==> NothingSilenced(base, evs)
  {
    assert Restored(base).(overlay := None) == Restored(base);
    if NothingSilenced(base, evs) {
      RunReplays(base, evs);
    } else {
      assert evs != [];
      SilencedRunDiverges(base, evs);
      hide NothingSilenced, Run, Replay;
    }
  }

  /**
    Replaying a twin's own log since a snapshot, onto a manager restored from that snapshot with any
    overlay or none, rebuilds version, time, log and entities exactly when no cascade was silenced. The
    log holds both the bridge events and the road events they regenerate, which then arrive as
    duplicates. Entities agree when absent roads and bridges are read at their defaults, because events
    without effect may create those and are not logged. With overlays attached, targets must be named.
  */
  lemma ReplayRebuildsIff(base: Twin, evs: seq<Event>, mirror: Option<OverlayState>)
    requires WellKeyed(base) && WellKeyed(Restored(base).(overlay := mirror))
    requires base.overlay.Some? || mirror.Some? ==> forall i :: 0 <= i < |evs| ==> NamedTarget(evs[i])
    ensures ReplayWorks(base, evs, mirror) <==> NothingSilenced(base, evs)
  {
    var bare := base.(overlay := None);
    BareReplayWorksIff(bare, evs);
    if base.overlay.None? && mirror.None? {
      assert bare == base;
    } else {
      RunIgnoresOverlay(base, bare, evs);
      RunLogsNamedTargets(bare, evs);
      HeardIgnoresOverlay(base, bare, evs);
      var suffix := Run(bare, evs).log[|base.log|..];
      assert forall i :: 0 <= i < |suffix| ==> suffix[i] == Run(bare, evs).log[|base.log| + i];
      ReplayIgnoresOverlay(Restored(base).(overlay := mirror), Restored(bare), suffix);
      assert Restored(bare).(overlay := None) == Restored(bare);
    }
  }

  // ---- When nothing is silenced ------------------------------------------------------------------

  /** Submitted ids are not of cascade form, and no cascade they cause reuses an id seen before the snapshot. */
  predicate CleanId(base: Twin, id: EventId) {
    !IsCascadeForm(id) && forall seenId :: seenId in base.seen ==> !(CASCADE_PREFIX + id + "-" <= seenId)
  }

  /** Every cascade-form id seen since the snapshot is one a replay hears. */
  ghost predicate CascadesHeard(base: Twin, t: Twin, heard: set<EventId>) {
    forall id :: id in t.seen && IsCascadeForm(id) ==> id in base.seen || id in heard
  }

  /** A road event adds at most its own id to the seen ids. */
  lemma RoadSees(t: Twin, ev: Event)
    requires ev.body.RoadChanged?
    ensures Apply(t, ev).0.seen.Keys <= t.seen.Keys + {ev.id}
  {
  }

  /** Applying an event adds to the seen ids only its own and its cascade's. */
  lemma ApplySees(t: Twin, ev: Event)
    ensures forall id :: id in Apply(t, ev).0.seen ==>
              id in t.seen || id == ev.id || (CascadeOf(t, ev).Some? && id == CascadeOf(t, ev).value.id)
    ensures CascadeOf(t, ev).Some? ==>
              ev.body.BridgeChanged? && exists road :: CascadeOf(t, ev).value == CascadeEvent(ev, road)
  {
    if ev.id !in t.seen && Transit(t.entities, ev).Change? {
      hide OnOther;
      var committed := Commit(t, Transit(t.entities, ev).after, ev);
      var o := Sync(committed, ev);
      var c := CascadeOf(t, ev);
      if o.Some? && c.Some? {
        RoadSees(committed.(overlay := o.value), c.value);
      }
    } else {
      hide OnOther;
    }
  }

  /** With clean ids nothing is silenced, so replay rebuilds the twin. */
  lemma {:induction false} CleanRunsAreHeard(base: Twin, evs: seq<Event>)
    requires forall i :: 0 <= i < |evs| ==> CleanId(base, evs[i].id)
    ensures NothingSilenced(base, evs) && CascadesHeard(base, Run(base, evs), Heard(base, evs))
  {
    if evs != [] {
      var init, last := evs[..|evs| - 1], evs[|evs| - 1];
      CleanRunsAreHeard(base, init);
      NothingSilencedSnoc(base, evs);
      CleanStepIsHeard(base, Run(base, init), Heard(base, init), last);
    }
  }

  lemma CleanStepIsHeard(base: Twin, t: Twin, heard: set<EventId>, ev: Event)
    requires CleanId(base, ev.id) && CascadesHeard(base, t, heard)
    ensures !Silenced(t, heard, ev) && CascadesHeard(base, Apply(t, ev).0, HeardAfter(t, heard, ev))
  {
    ApplySees(t, ev);
    if CascadeOf(t, ev).Some? {
      var road :| CascadeOf(t, ev).value == CascadeEvent(ev, road);
      CascadeIdForm(ev.id, road);
    }
    hide Apply, Transit;
  }

  // ---- Two ways to fail ---------------------------------------------------------------------------

  /**
    A no-op submitted under a cascade-form id silences the later cascade in the live twin but not in
    the replay, which ends one version ahead.
  */
  lemma CascadeFormNoOpBreaksReplay(base: Twin, e: EventId, b: BridgeId, r: RoadId, time: Time)
    requires base.overlay.None? && base.seen == map[] && base.log == [] && r != ""
    requires b in base.entities.bridges && base.entities.bridges[b] == DefaultBridge(b).(roadId := Some(r))
    requires r in base.entities.roads && base.entities.roads[r] == DefaultRoad(r)
    ensures var noop := Event(CascadeId(e, r), time, SystemEvent, None, None, None, RoadChanged(r, Open, None, None));
            var fail := Event(e, time, SystemEvent, None, None, None, BridgeChanged(b, BridgeBlocked, true));
            var live := Run(base, [noop, fail]);
            && live.version == base.version + 1
            && Replay(Restored(base), live.log).Some?
            && Replay(Restored(base), live.log).value.version == base.version + 2
  {
    var noop := Event(CascadeId(e, r), time, SystemEvent, None, None, None, RoadChanged(r, Open, None, None));
    var fail := Event(e, time, SystemEvent, None, None, None, BridgeChanged(b, BridgeBlocked, true));
    var logged := fail.(version := Some(base.version + 1));
    SilencedLive(base, noop, fail, b, r);
    ReplayHearsCascade(base, logged, b, r);
    ReplayOne(Restored(base), logged);
    hide Apply;
  }

  /** The live side: the no-op takes the cascade's id, so only the bridge event is logged. */
  lemma SilencedLive(base: Twin, noop: Event, fail: Event, b: BridgeId, r: RoadId)
    requires base.overlay.None? && base.seen == map[] && base.log == [] && r != ""
    requires b in base.entities.bridges && base.entities.bridges[b] == DefaultBridge(b).(roadId := Some(r))
    requires r in base.entities.roads && base.entities.roads[r] == DefaultRoad(r)
    requires noop.id == CascadeId(fail.id, r) && noop.body == RoadChanged(r, Open, None, None)
    requires fail.body == BridgeChanged(b, BridgeBlocked, true)
    ensures var live := Run(base, [noop, fail]);
            live.version == base.version + 1 && live.log == [fail.(version := Some(base.version + 1))]
  {
    CascadeIdForm(fail.id, r);
    RunTwo(base, noop, fail);
    var quiet := Apply(base, noop).0;
    assert quiet == base.(entities := OnRoad(base.entities, noop).after, seen := map[noop.id := base.version]);
    ApplyChange(quiet, fail);
  }

  /** The replaying side: with nothing seen, the failed bridge closes its road. */
  lemma ReplayHearsCascade(base: Twin, fail: Event, b: BridgeId, r: RoadId)
    requires base.overlay.None? && r != ""
    requires b in base.entities.bridges && base.entities.bridges[b] == DefaultBridge(b).(roadId := Some(r))
    requires r in base.entities.roads && base.entities.roads[r] == DefaultRoad(r)
    requires fail.body == BridgeChanged(b, BridgeBlocked, true)
    ensures Apply(Restored(base), fail).1.Done? && Apply(Restored(base), fail).0.version == base.version + 2
  {
    CascadeIdForm(fail.id, r);
    ApplyChange(Restored(base), fail);
    var committed := Commit(Restored(base), Transit(base.entities, fail).after, fail);
    ApplyChange(committed, CascadeEvent(fail, r));
  }

  lemma RunTwo(t: Twin, a: Event, b: Event)
    ensures Run(t, [a, b]) == Apply(Apply(t, a).0, b).0
  {
    assert [a, b][..1] == [a] && [a][..0] == [];
    assert Run(t, [a]) == Apply(t, a).0;
  }

  /** A no-op on an unknown road creates it in the live twin only: the rebuilt entities are not identical. */
  lemma NoOpCreationIsNotReplayed(base: Twin, id: EventId, r: RoadId, time: Time)
    requires base.overlay.None? && id !in base.seen && r !in base.entities.roads
    ensures var ev := Event(id, time, SystemEvent, None, None, None, RoadChanged(r, Open, None, None));
            var live := Run(base, [ev]);
            && live.log == base.log && r in live.entities.roads
            && Replay(Restored(base), live.log[|base.log|..]) == Some(Restored(base))
            && live.entities != Restored(base).entities
  {
    var ev := Event(id, time, SystemEvent, None, None, None, RoadChanged(r, Open, None, None));
    assert [ev][..0] == [];
    assert Run(base, [ev]) == Apply(base, ev).0;
  }
}
