/** Actors, roles and what each role may do. */
module Roles {
  datatype Role = Viewer | FieldOfficer | Operator | Approver | Commander | Admin

  datatype Actor = Actor(id: string, role: Role)

  predicate MaySync(a: Actor) {
    a.role in {FieldOfficer, Operator, Commander, Admin}
  }

  /** Approving and rejecting need the same roles. */
  predicate MayDecide(a: Actor) {
    a.role in {Approver, Commander, Admin}
  }

  predicate MayExpire(a: Actor) {
    a.role in {Commander, Admin}
  }
}
