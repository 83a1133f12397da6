/** What the transition rules keep and when repeating an event changes nothing. */
module TwinRules {
  import opened Basics
  import opened TwinEntities
  import opened TwinState

  // ---- Repetition -----------------------------------------------------------------------

  /** An empty location is never stored, so a group update that carries one keeps looking like a change. */
  predicate ForgetsLocation(after: Registers, b: Body) {
    b.GroupUpdated? && b.location == Some("") && b.group in after.groups && after.groups[b.group].location != Some("")
  }

  /**
    An event that asserts what already holds is a no-op: repeating an applied event's content under any
    id, time or source changes nothing, except for incident creation and group updates with an empty
    location.
  */
  lemma RepeatIsNoOpIff(es: Entities, ev: Event, again: Event)
    requires Transit(es, ev).Change? && again.body == ev.body
    ensures var after := Transit(es, ev).after;
            Transit(after, again).NoChange? <==> !ev.body.IncidentCreated? && !ForgetsLocation(after.others, ev.body)
  {
    match ev.body
    case RoadChanged(_, _, _, _) => hide OnOther;
    case BridgeChanged(_, _, _) => hide OnOther;
    case _ => RepeatOnRegisters(es.others, ev, again); hide OnOther;
  }

  lemma RepeatOnRegisters(es: Registers, ev: Event, again: Event)
    requires OnOther(es, ev).Change? && again.body == ev.body
    ensures var after := OnOther(es, ev).after;
            OnOther(after, again).NoChange? <==> !ev.body.IncidentCreated? && !ForgetsLocation(after, ev.body)
  {
  }

  // ---- Facilities -------------------------------------------------------------------------

  predicate FacilityOk(f: Facility) {
    0 <= f.available <= f.capacity
  }

  /** No facility offers more than it has, and statuses stay within their enumerations. */
  ghost predicate FacilitiesOk(o: Registers) {
    && (forall h :: h in o.hospitals ==> FacilityOk(o.hospitals[h]) && o.hospitals[h].status in HOSPITAL_STATUSES)
    && (forall s :: s in o.shelters ==> FacilityOk(o.shelters[s]) && o.shelters[s].status in SHELTER_STATUSES)
  }

  lemma HospitalsStayOk(o: Registers, ev: Event)
    requires FacilitiesOk(o) && (ev.body.CapacityUpdated? || ev.body.FacilityChanged?) && !OnHospital(o, ev).Refused?
    ensures FacilitiesOk(OnHospital(o, ev).after)
  {
    hide HOSPITAL_STATUSES, SHELTER_STATUSES, SameCapacity;
  }

  lemma SheltersStayOk(o: Registers, ev: Event)
    requires FacilitiesOk(o) && (ev.body.CapacityUpdated? || ev.body.FacilityChanged?) && !OnShelter(o, ev).Refused?
    ensures FacilitiesOk(OnShelter(o, ev).after)
  {
    hide HOSPITAL_STATUSES, SHELTER_STATUSES, SameCapacity;
  }

  lemma RulesKeepFacilities(o: Registers, ev: Event)
    requires FacilitiesOk(o) && !OnOther(o, ev).Refused?
    ensures FacilitiesOk(OnOther(o, ev).after)
  {
    hide FacilityOk, OnHospital, OnShelter, HOSPITAL_STATUSES, SHELTER_STATUSES;
    if ev.body.CapacityUpdated? || ev.body.FacilityChanged? {
      if ev.body.kind == HospitalFacility {
        HospitalsStayOk(o, ev);
      } else {
        SheltersStayOk(o, ev);
      }
    }
  }

  lemma {:induction false} ApplyKeepsFacilities(t: Twin, ev: Event)
    requires FacilitiesOk(t.entities.others)
    ensures FacilitiesOk(Apply(t, ev).0.entities.others)
    decreases if ev.body.BridgeChanged? then 1 else 0
  {
    if ev.id !in t.seen && !Transit(t.entities, ev).Refused? {
      var es := Transit(t.entities, ev).after;
      if !ev.body.RoadChanged? && !ev.body.BridgeChanged? {
        RulesKeepFacilities(t.entities.others, ev);
      }
      hide OnOther, FacilitiesOk;
      assert FacilitiesOk(es.others);
      if Transit(t.entities, ev).Change? {
        var committed := Commit(t, es, ev);
        var o := Sync(committed, ev);
        if o.Some? {
          var road := CascadeRoad(committed.entities, ev);
          if road.Some? {
            ApplyKeepsFacilities(committed.(overlay := o.value), CascadeEvent(ev, road.value));
          }
        }
      }
    }
  }

  /** In every run, whatever the events claim, availability stays between zero and capacity. */
  lemma {:induction false} EveryRunKeepsFacilities(t: Twin, evs: seq<Event>)
    requires FacilitiesOk(t.entities.others)
    ensures FacilitiesOk(Run(t, evs).entities.others)
  {
    if evs != [] {
      EveryRunKeepsFacilities(t, evs[..|evs| - 1]);
      ApplyKeepsFacilities(Run(t, evs[..|evs| - 1]), evs[|evs| - 1]);
    }
  }

  function OfKind(o: Registers, kind: FacilityKind): map<string, Facility> {
    match kind
    case HospitalFacility => o.hospitals
    case ShelterFacility => o.shelters
    case OtherFacility => map[]
  }

  /**
    The price of validating each assignment on its own: a well-formed capacity update of a registered
    facility is refused exactly when it lowers the total below the old availability.
  */
  lemma WellFormedCapacityRefusedIff(o: Registers, ev: Event)
    requires ev.body.CapacityUpdated? && ev.body.facility in OfKind(o, ev.body.kind)
    requires FacilitiesOk(o) && ev.body.available <= ev.body.capacity
    ensures OnOther(o, ev).Refused? <==> ev.body.capacity < OfKind(o, ev.body.kind)[ev.body.facility].available
  {
  }

  /** Such an update goes through after a first one that lowers availability alone. */
  lemma CapacityCanBeLoweredInTwoSteps(o: Registers, first: Event, second: Event)
    requires first.body.CapacityUpdated? && second.body.CapacityUpdated? && first.body.kind == second.body.kind
    requires first.body.facility == second.body.facility && first.body.facility in OfKind(o, first.body.kind) && FacilitiesOk(o)
    requires var f := OfKind(o, first.body.kind)[first.body.facility];
             && second.body.available <= second.body.capacity < f.available
             && first.body.capacity == f.capacity && first.body.available == second.body.available
    ensures OnOther(o, second).Refused?
    ensures OnOther(o, first).Change? && OnOther(OnOther(o, first).after, second).Change?
  {
  }
}
