/** What-if previews: a scenario runs on a fork, predicts what the live twin would do, and never touches it. */
module Simulation {
  import opened Basics
  import opened Overlay
  import opened TwinEntities
  import opened TwinState
  import opened TwinReplay
  import opened TwinMeaning
  import opened TwinManager

  /**
    One hypothetical change. A flood carries the extent its simulation produced and the roads whose
    exposure recommends closure.
  */
  datatype Modification =
    | BridgeFailure(bridge: BridgeId, propagate: bool)
    | HospitalCapacity(hospital: string, available: nat, icu: Option<nat>)
    | ShelterCapacity(shelter: string, free: nat)
    | ResourceShortage(quantity: nat)
    | FloodLevel(zone: string, name: Option<string>, geometry: string, severity: string, depth: Option<real>,
                 closures: seq<RoadId>)

  datatype Scenario = Scenario(id: string, baseVersion: int, time: Time, modifications: seq<Modification>)

  datatype ScenarioError = StateVersionConflict | InvalidModification | ForkFailed | EventRaised

  datatype Preview = Preview(
    version: int,
    newlyBlocked: set<RoadId>,
    newlyRestricted: set<RoadId>,
    disabledTeams: seq<set<string>>)

  // ---- The events of a scenario -----------------------------------------------------------

  function ScenarioEvent(s: Scenario, tag: string, body: Body): Event {
    Event("SCEN-EVT-" + s.id + tag, s.time, SimulationEvent, Some("SCENARIO"), None, None, body)
  }

  function CapacityOr(m: map<string, Facility>, id: string, default: nat): nat {
    if id in m && m[id].capacity >= 0 then m[id].capacity else default
  }

  function ClosureEvents(s: Scenario, roads: seq<RoadId>): seq<Event> {
    if roads == [] then []
    else
      ClosureEvents(s, roads[..|roads| - 1]) +
      [ScenarioEvent(s, "-R-" + roads[|roads| - 1], RoadChanged(roads[|roads| - 1], Blocked, None, None))]
  }

  /** Capacities are taken from the live baseline, not from the fork. */
  function EventsOf(s: Scenario, base: Entities, m: Modification): seq<Event> {
    match m
    case BridgeFailure(b, p) => [ScenarioEvent(s, "-B-" + b, BridgeChanged(b, BridgeBlocked, p))]
    case HospitalCapacity(h, a, icu) =>
      [ScenarioEvent(s, "-H-" + h,
                     CapacityUpdated(HospitalFacility, h, CapacityOr(base.others.hospitals, h, 100), a, icu, None))]
    case ShelterCapacity(x, a) =>
      [ScenarioEvent(s, "-S-" + x,
                     CapacityUpdated(ShelterFacility, x, CapacityOr(base.others.shelters, x, 200), a, None, None))]
    case ResourceShortage(_) => []
    case FloodLevel(z, n, g, sev, d, closures) =>
      [ScenarioEvent(s, "-FLOOD", FloodUpdated(z, n, g, sev, d))] + ClosureEvents(s, closures)
  }

  function AllEvents(s: Scenario, base: Entities, ms: seq<Modification>): seq<Event> {
    if ms == [] then []
    else AllEvents(s, base, ms[..|ms| - 1]) + EventsOf(s, base, ms[|ms| - 1])
  }

  /** All of a scenario's events are hypothetical ones at the scenario's time, under the scenario's id. */
  ghost predicate IsScenarioEvent(s: Scenario, e: Event, tag: string) {
    && e.id == "SCEN-EVT-" + s.id + tag && e.time == s.time && e.source == SimulationEvent
    && e.causedBy.None? && e.version.None?
  }

  /** What a modification submits: a failed bridge blocks; a capacity change keeps the live facility's total; a shortage submits nothing. */
  lemma EventsMean(s: Scenario, base: Entities, m: Modification)
    ensures var es := EventsOf(s, base, m);
      match m
      case BridgeFailure(b, p) =>
        |es| == 1 && IsScenarioEvent(s, es[0], "-B-" + b) && es[0].body == BridgeChanged(b, BridgeBlocked, p)
      case HospitalCapacity(h, a, icu) =>
        |es| == 1 && IsScenarioEvent(s, es[0], "-H-" + h) && es[0].body.CapacityUpdated?
        && (h in base.others.hospitals && base.others.hospitals[h].capacity >= 0 ==>
              es[0].body == CapacityUpdated(HospitalFacility, h, base.others.hospitals[h].capacity, a, icu, None))
      case ShelterCapacity(x, a) =>
        |es| == 1 && IsScenarioEvent(s, es[0], "-S-" + x) && es[0].body.CapacityUpdated?
        && (x in base.others.shelters && base.others.shelters[x].capacity >= 0 ==>
              es[0].body == CapacityUpdated(ShelterFacility, x, base.others.shelters[x].capacity, a, None, None))
      case ResourceShortage(_) => es == []
      case FloodLevel(_, _, _, _, _, _) => true
  {
    hide ClosureEvents;
  }

  /** A flood updates its zone and then blocks each road its simulation closes. */
  lemma FloodEventsMean(s: Scenario, base: Entities, m: Modification)
    requires m.FloodLevel?
    ensures var es := EventsOf(s, base, m);
      && |es| == 1 + |m.closures| && IsScenarioEvent(s, es[0], "-FLOOD")
      && es[0].body == FloodUpdated(m.zone, m.name, m.geometry, m.severity, m.depth)
      && forall i :: 0 <= i < |m.closures| ==> IsClosure(s, es[i + 1], m.closures[i])
  {
    ClosuresMean(s, m.closures);
    assert EventsOf(s, base, m)[1..] == ClosureEvents(s, m.closures);
    hide ClosureEvents, IsClosure;
  }

  ghost predicate IsClosure(s: Scenario, e: Event, road: RoadId) {
    IsScenarioEvent(s, e, "-R-" + road) && e.body == RoadChanged(road, Blocked, None, None)
  }

  lemma {:induction false} ClosuresMean(s: Scenario, roads: seq<RoadId>)
    ensures |ClosureEvents(s, roads)| == |roads|
    ensures forall i :: 0 <= i < |roads| ==> IsClosure(s, ClosureEvents(s, roads)[i], roads[i])
  {
    if roads != [] {
      ClosuresMean(s, roads[..|roads| - 1]);
    }
  }

  /** A scenario's events are its modifications' events, in their order. */
  lemma {:induction false} AllEventsMean(s: Scenario, base: Entities, ms: seq<Modification>, i: nat)
    requires i < |ms|
    ensures var before := |AllEvents(s, base, ms[..i])|;
      && before + |EventsOf(s, base, ms[i])| <= |AllEvents(s, base, ms)|
      && AllEvents(s, base, ms)[before..before + |EventsOf(s, base, ms[i])|] == EventsOf(s, base, ms[i])
  {
    hide EventsOf;
    var init := ms[..|ms| - 1];
    if i < |init| {
      AllEventsMean(s, base, init, i);
      assert init[..i] == ms[..i];
    }
  }

  /** A failed bridge is blocked afterwards, and the road it carries too when the failure propagates. */
  lemma FailureBlocks(t: Twin, s: Scenario, b: BridgeId, propagate: bool)
    requires WellKeyed(t) && b in t.entities.bridges && t.overlay.None?
    requires "SCEN-EVT-" + s.id + ("-B-" + b) !in t.seen && t.entities.bridges[b].status != BridgeBlocked
    ensures var ev := EventsOf(s, t.entities, BridgeFailure(b, propagate))[0]; var t' := Apply(t, ev).0;
      && b in t'.entities.bridges && t'.entities.bridges[b].status == BridgeBlocked
      && forall road :: CascadesTo(t, t.entities.bridges[b], ev, road) ==>
           road in t'.entities.roads && t'.entities.roads[road].status == Blocked
  {
    EventsMean(s, t.entities, BridgeFailure(b, propagate));
    var ev := EventsOf(s, t.entities, BridgeFailure(b, propagate))[0];
    hide EventsOf, Apply;
    BridgeEventMeans(t, ev, t.entities.bridges[b]);
  }

  predicate ValidModification(base: Entities, m: Modification) {
    match m
    case BridgeFailure(b, _) => b in base.bridges
    case HospitalCapacity(h, a, _) => h in base.others.hospitals && a <= base.others.hospitals[h].capacity
    case ShelterCapacity(x, a) => x in base.others.shelters && a <= base.others.shelters[x].capacity
    case ResourceShortage(_) => true
    case FloodLevel(_, _, _, _, _, _) => true
  }

  /** Bridges and facilities must exist, and a facility cannot offer more than it has. */
  lemma ValidMeans(base: Entities, m: Modification)
    ensures ValidModification(base, m) <==>
      && (m.BridgeFailure? ==> m.bridge in base.bridges)
      && (m.HospitalCapacity? ==> m.hospital in base.others.hospitals && m.available <= base.others.hospitals[m.hospital].capacity)
      && (m.ShelterCapacity? ==> m.shelter in base.others.shelters && m.free <= base.others.shelters[m.shelter].capacity)
  {
  }

  predicate AllValid(base: Entities, s: Scenario) {
    forall m :: m in s.modifications ==> ValidModification(base, m)
  }

  lemma {:induction false} AllEventsPrefix(s: Scenario, base: Entities, ms: seq<Modification>, n: nat)
    requires n <= |ms|
    ensures AllEvents(s, base, ms[..n]) <= AllEvents(s, base, ms)
  {
    if n == |ms| {
      assert ms[..n] == ms;
    } else {
      var init := ms[..|ms| - 1];
      AllEventsPrefix(s, base, init, n);
      assert init[..n] == ms[..n];
    }
  }

  /** None of the events raises when applied in order. */
  ghost predicate AllDone(t: Twin, events: seq<Event>) {
    forall out :: out in Outcomes(t, events) ==> out.Done?
  }

  lemma AllDoneSnoc(t: Twin, events: seq<Event>, ev: Event)
    ensures AllDone(t, events + [ev]) <==> AllDone(t, events) && Apply(Run(t, events), ev).1.Done?
  {
    assert (events + [ev])[..|events|] == events;
    hide Apply, Run;
  }

  lemma {:induction false} AllDonePrefix(t: Twin, a: seq<Event>, b: seq<Event>)
    ensures AllDone(t, a + b) ==> AllDone(t, a)
  {
    if b == [] {
      assert a + b == a;
    } else {
      var init := b[..|b| - 1];
      AllDonePrefix(t, a, init);
      AllDoneSnoc(t, a + init, b[|b| - 1]);
      assert (a + init) + [b[|b| - 1]] == a + b;
    }
  }

  /** Roads that have this status afterwards and did not before. */
  function NewlyIn(status: RoadStatus, before: map<RoadId, Road>, after: map<RoadId, Road>): set<RoadId> {
    set r | r in after && after[r].status == status && !(r in before && before[r].status == status)
  }

  // ---- Rescue teams stand apart from events ---------------------------------------------------

  function SetTeams(t: Twin, teams: map<string, TeamStatus>): Twin {
    t.(entities := t.entities.(teams := teams))
  }

  /** No transition rule reads or writes rescue teams. */
  lemma TransitIgnoresTeams(es: Entities, ev: Event, teams: map<string, TeamStatus>)
    ensures var a, b := Transit(es, ev), Transit(es.(teams := teams), ev);
            && a.Refused? == b.Refused? && a.NoChange? == b.NoChange?
            && (!a.Refused? ==> b.after == a.after.(teams := teams))
  {
  }

  lemma {:induction false} ApplyIgnoresTeams(t: Twin, ev: Event, teams: map<string, TeamStatus>)
    ensures Apply(SetTeams(t, teams), ev).0 == SetTeams(Apply(t, ev).0, teams)
    ensures Apply(SetTeams(t, teams), ev).1 == Apply(t, ev).1
    decreases if ev.body.BridgeChanged? then 1 else 0
  {
    TransitIgnoresTeams(t.entities, ev, teams);
    hide Transit;
    if ev.id !in t.seen && Transit(t.entities, ev).Change? {
      var committed := Commit(t, Transit(t.entities, ev).after, ev);
      assert Commit(SetTeams(t, teams), Transit(t.entities.(teams := teams), ev).after, ev) == SetTeams(committed, teams);
      var o := Sync(committed, ev);
      assert Sync(SetTeams(committed, teams), ev) == o;
      if o.Some? {
        var synced := committed.(overlay := o.value);
        assert SetTeams(committed, teams).(overlay := o.value) == SetTeams(synced, teams);
        var road := CascadeRoad(committed.entities, ev);
        if road.Some? {
          ApplyIgnoresTeams(synced, CascadeEvent(ev, road.value), teams);
        }
      }
    }
  }

  lemma ApplyKeepsTeams(t: Twin, ev: Event)
    ensures Apply(t, ev).0.entities.teams == t.entities.teams
  {
    ApplyIgnoresTeams(t, ev, t.entities.teams);
    assert SetTeams(t, t.entities.teams) == t;
    hide Apply;
  }

  /** One event moves the fork and the live twin alike, whatever teams the fork has stood down. */
  lemma ForkStepsAlikeButTeams(live: Twin, fork: Twin, ev: Event)
    requires WellKeyed(live) && WellKeyed(fork) && ForkOf(live, SetTeams(fork, live.entities.teams))
    ensures var live', fork' := Apply(live, ev).0, Apply(fork, ev).0;
            && WellKeyed(live') && WellKeyed(fork')
            && ForkOf(live', SetTeams(fork', live'.entities.teams))
            && Apply(live, ev).1 == Apply(fork, ev).1
  {
    var teams := live.entities.teams;
    ApplyIgnoresTeams(fork, ev, teams);
    ForkStepsAlike(live, SetTeams(fork, teams), ev);
    ApplyIgnoresTeams(live, ev, teams);
    assert SetTeams(live, teams) == live;
    assert Apply(live, ev).0 == SetTeams(Apply(live, ev).0, teams);
    ApplyKeepsKeys(live, ev);
    ApplyKeepsKeys(fork, ev);
  }

  // ---- Teams stood down ------------------------------------------------------------------------

  function Least(a: nat, b: nat): nat {
    if a <= b then a else b
  }

  /** How many teams a shortage asks to stand down, counted from the live baseline. */
  function Excess(standing: nat, quantity: nat): nat {
    if quantity < standing then standing - quantity else 0
  }

  function Total(ns: seq<nat>): nat {
    if ns == [] then 0 else Total(ns[..|ns| - 1]) + ns[|ns| - 1]
  }

  /** How many teams each shortage stands down: what it asks for, or all that earlier ones left. */
  function StoodDown(standing: nat, ms: seq<Modification>): (ns: seq<nat>)
    ensures Total(ns) <= standing
  {
    if ms == [] then []
    else
      var before, m := StoodDown(standing, ms[..|ms| - 1]), ms[|ms| - 1];
      if !m.ResourceShortage? then before
      else
        var n := Least(Excess(standing, m.quantity), standing - Total(before));
        assert (before + [n])[..|before|] == before;
        before + [n]
  }

  /** One set of formerly available teams per shortage, of that size, and no team in two of them. */
  ghost predicate TeamsReported(teams: map<string, TeamStatus>, ms: seq<Modification>, disabled: seq<set<string>>) {
    var standing := AvailableTeams(teams);
    var counts := StoodDown(|standing|, ms);
    && |disabled| == |counts|
    && (forall k :: 0 <= k < |disabled| ==> |disabled[k]| == counts[k] && disabled[k] <= standing)
    && (forall j, k :: 0 <= j < k < |disabled| ==> disabled[j] !! disabled[k])
  }

  /** And the teams still available are the others. */
  ghost predicate TeamsFollow(teams: map<string, TeamStatus>, ms: seq<Modification>, disabled: seq<set<string>>, now: set<string>) {
    && TeamsReported(teams, ms, disabled)
    && now <= AvailableTeams(teams) && |now| == |AvailableTeams(teams)| - Total(StoodDown(|AvailableTeams(teams)|, ms))
    && forall k :: 0 <= k < |disabled| ==> disabled[k] !! now
  }

  lemma FirstShortage(standing: nat, ms: seq<Modification>, i: nat)
    requires i < |ms| && ms[i].ResourceShortage? && forall j :: 0 <= j < i ==> !ms[j].ResourceShortage?
    ensures |StoodDown(standing, ms)| > 0 && StoodDown(standing, ms)[0] == Excess(standing, ms[i].quantity)
  {
    if i == |ms| - 1 {
      NoShortage(standing, ms[..i]);
    } else {
      FirstShortage(standing, ms[..|ms| - 1], i);
    }
  }

  lemma {:induction false} NoShortage(standing: nat, ms: seq<Modification>)
    requires forall j :: 0 <= j < |ms| ==> !ms[j].ResourceShortage?
    ensures StoodDown(standing, ms) == []
  {
    if ms != [] {
      NoShortage(standing, ms[..|ms| - 1]);
    }
  }

  lemma ShortageFollows(teams: map<string, TeamStatus>, ms: seq<Modification>, disabled: seq<set<string>>, now: set<string>,
                        m: Modification, stoodDown: set<string>)
    requires TeamsFollow(teams, ms, disabled, now) && m.ResourceShortage? && stoodDown <= now
    requires |stoodDown| == Least(Excess(|AvailableTeams(teams)|, m.quantity), |now|)
    ensures TeamsFollow(teams, ms + [m], disabled + [stoodDown], now - stoodDown)
  {
    hide AvailableTeams;
    var counts := StoodDown(|AvailableTeams(teams)|, ms);
    assert (ms + [m])[..|ms|] == ms;
    assert StoodDown(|AvailableTeams(teams)|, ms + [m]) == counts + [|stoodDown|];
    assert (counts + [|stoodDown|])[..|counts|] == counts;
    assert |now - stoodDown| == |now| - |stoodDown|;
  }

  lemma OthersFollow(teams: map<string, TeamStatus>, ms: seq<Modification>, disabled: seq<set<string>>, now: set<string>, m: Modification)
    requires TeamsFollow(teams, ms, disabled, now) && !m.ResourceShortage?
    ensures TeamsFollow(teams, ms + [m], disabled, now)
  {
    hide AvailableTeams;
    assert (ms + [m])[..|ms|] == ms;
  }

  // ---- The preview --------------------------------------------------------------------------

  function AvailableTeams(teams: map<string, TeamStatus>): set<string> {
    set t | t in teams && teams[t] == Available
  }

  /** Stands down available teams of the fork, as many as the shortage needs and there are. */
  method DisableTeams(fork: DigitalTwinStateManager, count: nat) returns (disabled: set<string>)
    modifies fork`entities
    ensures fork.View() == SetTeams(old(fork.View()), fork.entities.teams)
    ensures disabled <= AvailableTeams(old(fork.entities.teams))
    ensures AvailableTeams(fork.entities.teams) == AvailableTeams(old(fork.entities.teams)) - disabled
    ensures |disabled| == if count <= |AvailableTeams(old(fork.entities.teams))| then count
                          else |AvailableTeams(old(fork.entities.teams))|
    ensures fork.entities.teams.Keys == old(fork.entities.teams.Keys)
    ensures forall t :: t in fork.entities.teams ==>
              fork.entities.teams[t] == if t in disabled then OffDuty else old(fork.entities.teams)[t]
  {
    disabled := {};
    var teams := fork.entities.teams;
    ghost var available := AvailableTeams(teams);
    var left := count;
    while left > 0 && AvailableTeams(teams) != {}
      invariant teams.Keys == old(fork.entities.teams.Keys)
      invariant disabled <= available && AvailableTeams(teams) == available - disabled
      invariant |disabled| == count - left
      invariant forall t :: t in teams ==> teams[t] == if t in disabled then OffDuty else old(fork.entities.teams)[t]
      decreases left
    {
      var t :| t in AvailableTeams(teams);
      teams := teams[t := OffDuty];
      disabled := disabled + {t};
      left := left - 1;
    }
    CardinalityLeft(available, disabled);
    fork.entities := fork.entities.(teams := teams);
  }

  lemma CardinalityLeft(all: set<string>, part: set<string>)
    requires part <= all
    ensures |part| <= |all| && (all - part == {} ==> |part| == |all|)
  {
    assert all == part + (all - part);
  }

  /** Applies one modification's events to the fork, stopping at the first that raises. */
  method RunEvents(fork: DigitalTwinStateManager, more: seq<Event>, ghost start: Twin, ghost events: seq<Event>)
    returns (ok: bool)
    requires InStep(start, fork.View(), events)
    modifies fork.Footprint()
    ensures fork.overlay == old(fork.overlay) && fork.entities.teams == old(fork.entities.teams)
    ensures ok ==> InStep(start, fork.View(), events + more)
    ensures ok <==> AllDone(start, events + more)
  {
    hide InStep, Apply, Run, AllDone;
    ghost var done := events;
    assert done == events + more[..0];
    for k := 0 to |more|
      invariant fork.overlay == old(fork.overlay) && fork.entities.teams == old(fork.entities.teams)
      invariant done == events + more[..k] && InStep(start, fork.View(), done)
    {
      InStepOneMore(start, fork.View(), done, more[k]);
      ApplyKeepsTeams(fork.View(), more[k]);
      assert more[..k + 1] == more[..k] + [more[k]];
      var out := fork.ApplyEvent(more[k]);
      if out.Raised? {
        assert events + more == (done + [more[k]]) + more[k + 1..];
        AllDonePrefix(start, done + [more[k]], more[k + 1..]);
        return false;
      }
      done := done + [more[k]];
    }
    assert done == events + more by {
      assert more[..|more|] == more;
    }
    InStepIsDone(start, fork.View(), done);
    return true;
  }

  /**
    Applies one modification to the fork. A shortage counts the teams available in the live baseline
    and stands down that many fewer.
  */
  method RunModification(fork: DigitalTwinStateManager, s: Scenario, base: Entities, m: Modification,
                         ghost start: Twin, ghost events: seq<Event>)
    returns (ok: bool, stoodDown: set<string>)
    requires InStep(start, fork.View(), events)
    modifies fork.Footprint()
    ensures fork.overlay == old(fork.overlay)
    ensures ok ==> InStep(start, fork.View(), events + EventsOf(s, base, m))
    ensures ok <==> AllDone(start, events + EventsOf(s, base, m))
    ensures !m.ResourceShortage? ==> fork.entities.teams == old(fork.entities.teams)
    ensures m.ResourceShortage? ==>
              var before := AvailableTeams(old(fork.entities.teams));
              && stoodDown <= before && AvailableTeams(fork.entities.teams) == before - stoodDown
              && |stoodDown| == Least(Excess(|AvailableTeams(base.teams)|, m.quantity), |before|)
  {
    stoodDown := {};
    hide InStep, AvailableTeams, AllDone;
    if !m.ResourceShortage? {
      ok := RunEvents(fork, EventsOf(s, base, m), start, events);
      return;
    }
    ok := true;
    assert EventsOf(s, base, m) == [] && events + EventsOf(s, base, m) == events;
    InStepIsDone(start, fork.View(), events);
    var standing := |AvailableTeams(base.teams)|;
    if m.quantity < standing {
      ghost var before := fork.View();
      stoodDown := DisableTeams(fork, standing - m.quantity);
      TeamsDoNotMatter(start, before, fork.entities.teams, events);
    }
  }

  /** Applies all modifications in order, collecting the teams each shortage stood down. */
  method RunScenario(fork: DigitalTwinStateManager, s: Scenario, base: Entities, ghost start: Twin)
    returns (ok: bool, disabled: seq<set<string>>)
    requires InStep(start, fork.View(), []) && fork.entities.teams == base.teams
    modifies fork.Footprint()
    ensures fork.overlay == old(fork.overlay)
    ensures ok ==> TeamsReported(base.teams, s.modifications, disabled)
    ensures ok ==> InStep(start, fork.View(), AllEvents(s, base, s.modifications))
    ensures ok <==> AllDone(start, AllEvents(s, base, s.modifications))
  {
    ghost var events: seq<Event> := [];
    ok, disabled := true, [];
    hide InStep, EventsOf, AllDone;
    assert TeamsFollow(base.teams, [], [], AvailableTeams(base.teams));
    assert AllEvents(s, base, []) == [];
    hide TeamsFollow, TeamsReported, AvailableTeams, AllEvents;
    for i := 0 to |s.modifications|
      invariant fork.overlay == old(fork.overlay)
      invariant TeamsFollow(base.teams, s.modifications[..i], disabled, AvailableTeams(fork.entities.teams))
      invariant events == AllEvents(s, base, s.modifications[..i])
      invariant InStep(start, fork.View(), events)
    {
      NextEvents(s, base, s.modifications, i);
      var m := s.modifications[i];
      var stoodDown;
      ghost var before := AvailableTeams(fork.entities.teams);
      ok, stoodDown := RunModification(fork, s, base, m, start, events);
      assert s.modifications[..i + 1] == s.modifications[..i] + [m];
      if m.ResourceShortage? {
        ShortageFollows(base.teams, s.modifications[..i], disabled, before, m, stoodDown);
      } else {
        OthersFollow(base.teams, s.modifications[..i], disabled, before, m);
      }
      if !ok {
        EarlyRaiseRemains(start, s, base, i + 1);
        return;
      }
      events := events + EventsOf(s, base, m);
      disabled := if m.ResourceShortage? then disabled + [stoodDown] else disabled;
    }
    ok := true;
    assert s.modifications[..|s.modifications|] == s.modifications;
    InStepIsDone(start, fork.View(), events);
    FollowedIsReported(base.teams, s.modifications, disabled, AvailableTeams(fork.entities.teams));
  }

  lemma NextEvents(s: Scenario, base: Entities, ms: seq<Modification>, i: nat)
    requires i < |ms|
    ensures AllEvents(s, base, ms[..i + 1]) == AllEvents(s, base, ms[..i]) + EventsOf(s, base, ms[i])
  {
    assert ms[..i + 1][..i] == ms[..i];
  }

  /** What raises after n modifications raises in the whole scenario. */
  lemma EarlyRaiseRemains(start: Twin, s: Scenario, base: Entities, n: nat)
    requires n <= |s.modifications| && !AllDone(start, AllEvents(s, base, s.modifications[..n]))
    ensures !AllDone(start, AllEvents(s, base, s.modifications))
  {
    hide AllDone, AllEvents;
    var soFar, all := AllEvents(s, base, s.modifications[..n]), AllEvents(s, base, s.modifications);
    AllEventsPrefix(s, base, s.modifications, n);
    assert all == soFar + all[|soFar|..];
    AllDonePrefix(start, soFar, all[|soFar|..]);
  }

  lemma FollowedIsReported(teams: map<string, TeamStatus>, ms: seq<Modification>, disabled: seq<set<string>>, now: set<string>)
    requires TeamsFollow(teams, ms, disabled, now)
    ensures TeamsReported(teams, ms, disabled)
  {
  }

  /**
    Runs a scenario on a fork. Nothing that existed before is modified, so the live twin and its overlay
    stay as they were; and the reported version and road impact are exactly what the same events would do
    to the live twin. It succeeds exactly when the version matches, the modifications are valid, the twin
    can be forked, and none of those events would raise; each failure has its cause.
  */
  method ExecutePreview(live: DigitalTwinStateManager, s: Scenario, now: Time)
    returns (r: Result<Preview, ScenarioError>)
    requires WellKeyed(live.View())
    ensures r == Err(StateVersionConflict) <==> s.baseVersion != live.version
    ensures r == Err(InvalidModification) <==> s.baseVersion == live.version && !AllValid(live.entities, s)
    ensures r == Err(ForkFailed) <==>
              s.baseVersion == live.version && AllValid(live.entities, s) && !CanMirror(live.entities, live.View().overlay)
    ensures r == Err(EventRaised) <==>
              && s.baseVersion == live.version && AllValid(live.entities, s) && CanMirror(live.entities, live.View().overlay)
              && !AllDone(live.View(), AllEvents(s, live.entities, s.modifications))
    ensures r.Ok? ==>
      var would := Run(live.View(), AllEvents(s, live.entities, s.modifications));
      && r.value.version == would.version
      && (forall road :: road in r.value.newlyBlocked <==>
            && road in would.entities.roads && would.entities.roads[road].status == Blocked
            && (road in live.entities.roads ==> live.entities.roads[road].status != Blocked))
      && (forall road :: road in r.value.newlyRestricted <==>
            && road in would.entities.roads && would.entities.roads[road].status == Restricted
            && (road in live.entities.roads ==> live.entities.roads[road].status != Restricted))
      && TeamsReported(live.entities.teams, s.modifications, r.value.disabledTeams)
  {
    assert KeysMatch(live.entities);
    hide Run, WellKeyed, KeysMatch, ForkOf, SameCore, InStep, ValidModification, AllEvents, AllDone, CanMirror, TeamsReported;
    if s.baseVersion != live.version {
      return Err(StateVersionConflict);
    }
    if !AllValid(live.entities, s) {
      return Err(InvalidModification);
    }
    var fork := live.Fork(now);
    if fork == null {
      return Err(ForkFailed);
    }
    var base := live.entities;
    ghost var start := live.View();
    InStepStart(start, fork.View());
    ForkSharesTeams(start, fork.View());
    var ok, disabled := RunScenario(fork, s, base, start);
    if !ok {
      return Err(EventRaised);
    }
    InStepRoads(start, fork.View(), AllEvents(s, base, s.modifications));
    r := Ok(Preview(fork.version,
                    NewlyIn(Blocked, base.roads, fork.entities.roads),
                    NewlyIn(Restricted, base.roads, fork.entities.roads),
                    disabled));
  }

  /** None of these events raised, and the fork is where the live twin would be after them, rescue teams aside. */
  ghost predicate InStep(start: Twin, fork: Twin, events: seq<Event>) {
    var live := Run(start, events);
    && AllDone(start, events)
    && WellKeyed(live) && WellKeyed(fork) && ForkOf(live, SetTeams(fork, live.entities.teams))
  }

  lemma InStepIsDone(start: Twin, fork: Twin, events: seq<Event>)
    requires InStep(start, fork, events)
    ensures AllDone(start, events)
  {
  }

  lemma InStepStart(live: Twin, fork: Twin)
    requires WellKeyed(live) && WellKeyed(fork) && ForkOf(live, fork)
    ensures InStep(live, fork, [])
  {
    assert SetTeams(fork, live.entities.teams) == fork;
  }

  lemma ForkSharesTeams(live: Twin, fork: Twin)
    requires ForkOf(live, fork)
    ensures fork.entities.teams == live.entities.teams
  {
  }

  lemma InStepRoads(start: Twin, fork: Twin, events: seq<Event>)
    requires InStep(start, fork, events)
    ensures fork.version == Run(start, events).version && fork.entities.roads == Run(start, events).entities.roads
  {
    hide Run;
  }

  /** One more event either raises on both sides or keeps the fork in step. */
  lemma InStepOneMore(start: Twin, fork: Twin, events: seq<Event>, ev: Event)
    requires InStep(start, fork, events)
    ensures Apply(fork, ev).1.Done? ==> InStep(start, Apply(fork, ev).0, events + [ev])
    ensures Apply(fork, ev).1.Raised? ==> !AllDone(start, events + [ev])
  {
    ForkStepsAlikeButTeams(Run(start, events), fork, ev);
    AllDoneSnoc(start, events, ev);
    assert (events + [ev])[..|events|] == events;
    assert Run(start, events + [ev]) == Apply(Run(start, events), ev).0;
    hide Apply, WellKeyed, ForkOf, AllDone;
  }

  lemma TeamsDoNotMatter(start: Twin, fork: Twin, teams: map<string, TeamStatus>, events: seq<Event>)
    requires InStep(start, fork, events)
    ensures InStep(start, SetTeams(fork, teams), events)
  {
    hide Run;
    var live := Run(start, events).entities.teams;
    assert SetTeams(SetTeams(fork, teams), live) == SetTeams(fork, live);
  }
}
