/**
  The offline-sync pipeline: at-least-once delivery turned into exactly-once effect by an idempotency
  store, with optimistic concurrency on top.
*/
module Sync {
  import opened Basics
  import opened Roles

  datatype EntityType = IncidentEntity | EvidenceEntity | ResourceRequestEntity | StatusUpdateEntity

  datatype OperationType = Create | Update | Delete

  datatype SyncStatus = Accepted | Duplicate | Conflicting | Rejected | RetryableError

  datatype ConflictType = StateVersionConflict | EntityNotFound | IdempotencyKeyReuse

  datatype Operation<P> = Operation(
    id: string,
    entityType: EntityType,
    entityId: string,
    operationType: OperationType,
    payload: P,
    schema: string,
    baseVersion: Option<int>)

  datatype OperationResult<R> = OperationResult(
    id: string,
    entityId: string,
    entityType: EntityType,
    status: SyncStatus,
    conflict: Option<ConflictType>,
    serverVersion: Option<int>,
    data: Option<R>)

  /** Payload hashing is taken to be injective, so records keep the payload itself. */
  datatype Record<P, R> = Record(
    id: string, payload: P, entityType: EntityType, entityId: string, operationType: OperationType,
    cached: OperationResult<R>, version: int)

  datatype LedgerEvent = LedgerEvent(operation: string, actor: string, status: SyncStatus, conflict: Option<ConflictType>)

  /**
    The domain behind the pipeline: an operation either fails without effect (None) or yields the next
    domain state and its result data; the twin's version and incident existence are read from the state.
  */
  datatype Domain<!D, !P, R> = Domain(
    mutate: (D, Operation<P>, Actor) -> Option<(D, R)>,
    version: D -> int,
    hasIncident: (D, string) -> bool)

  datatype State<D, P, R> = State(
    domain: D,
    store: map<string, Record<P, R>>,
    ledger: seq<LedgerEvent>)

  datatype Delivery<P> = Delivery(op: Operation<P>, actor: Actor)

  // ---- Conflict resolution ------------------------------------------------------------

  function EvaluateConflict<P>(op: Operation<P>, current: int, exists_: bool): Option<ConflictType> {
    if op.baseVersion.Some? && current > op.baseVersion.value && exists_ && op.operationType != Create then
      Some(StateVersionConflict)
    else if op.operationType in {Update, Delete} && !exists_ then Some(EntityNotFound)
    else if op.operationType == Create && exists_ then Some(StateVersionConflict)
    else None
  }

  /** No conflict: creating what is new, or changing what exists from a base that is absent or not behind. */
  lemma ConflictFreeIff<P>(op: Operation<P>, current: int, exists_: bool)
    ensures EvaluateConflict(op, current, exists_).None? <==>
            if op.operationType == Create then !exists_
            else exists_ && (op.baseVersion.None? || current <= op.baseVersion.value)
  {
  }

  // ---- The pipeline on values ------------------------------------------------------------

  const SCHEMA := "1.0.0"

  predicate PassesChecks<P>(d: Delivery<P>) {
    d.op.schema == SCHEMA && MaySync(d.actor)
  }

  function Refuse<P, R>(op: Operation<P>, status: SyncStatus, conflict: Option<ConflictType>, version: Option<int>): OperationResult<R> {
    OperationResult(op.id, op.entityId, op.entityType, status, conflict, version, None)
  }

  function Note<D, P, R>(s: State<D, P, R>, d: Delivery<P>, status: SyncStatus, conflict: Option<ConflictType>): State<D, P, R> {
    s.(ledger := s.ledger + [LedgerEvent(d.op.id, d.actor.id, status, conflict)])
  }

  /** Only incidents are looked up; every other entity type counts as absent. */
  function Exists<D, P, R>(m: Domain<D, P, R>, s: D, op: Operation<P>): bool {
    op.entityType == IncidentEntity && m.hasIncident(s, op.entityId)
  }

  function Process<D, P(==), R>(m: Domain<D, P, R>, s: State<D, P, R>, d: Delivery<P>): (State<D, P, R>, OperationResult<R>) {
    var op := d.op;
    if !PassesChecks(d) then (Note(s, d, Rejected, None), Refuse(op, Rejected, None, None))
    else if op.id in s.store then
      if s.store[op.id].payload == op.payload then
        (Note(s, d, Duplicate, None), s.store[op.id].cached.(status := Duplicate))
      else
        (Note(s, d, Conflicting, Some(IdempotencyKeyReuse)), Refuse(op, Conflicting, Some(IdempotencyKeyReuse), None))
    else
      var current := m.version(s.domain);
      match EvaluateConflict(op, current, Exists(m, s.domain, op))
      case Some(c) => (Note(s, d, Conflicting, Some(c)), Refuse(op, Conflicting, Some(c), Some(current)))
      case None =>
        match m.mutate(s.domain, op, d.actor)
        case None => (Note(s, d, Rejected, None), Refuse(op, Rejected, None, None))
        case Some((next, data)) =>
          var v := m.version(next);
          var result := OperationResult(op.id, op.entityId, op.entityType, Accepted, None, Some(v), Some(data));
          (Note(State(next, s.store[op.id := Record(op.id, op.payload, op.entityType, op.entityId, op.operationType, result, v)],
                      s.ledger), d, Accepted, None),
           result)
  }

  function After<D, P(==), R>(m: Domain<D, P, R>, s: State<D, P, R>, ds: seq<Delivery<P>>): State<D, P, R>
    decreases |ds|
  {
    if ds == [] then s else After(m, Process(m, s, ds[0]).0, ds[1..])
  }

  function Results<D, P(==), R>(m: Domain<D, P, R>, s: State<D, P, R>, ds: seq<Delivery<P>>): (rs: seq<OperationResult<R>>)
    ensures |rs| == |ds|
    decreases |ds|
  {
    if ds == [] then [] else [Process(m, s, ds[0]).1] + Results(m, Process(m, s, ds[0]).0, ds[1..])
  }

  // ---- Exactly once ------------------------------------------------------------------------

  /** Equal up to the audit ledger, which nothing in the pipeline reads. */
  ghost predicate SameEffect<D, P, R>(s: State<D, P, R>, t: State<D, P, R>) {
    s.domain == t.domain && s.store == t.store
  }

  /** A stored operation id makes every later delivery inert; the reply depends on checks and payload alone. */
  lemma StoredIdsAreInert<D, P, R>(m: Domain<D, P, R>, s: State<D, P, R>, d: Delivery<P>)
    requires d.op.id in s.store
    ensures SameEffect(s, Process(m, s, d).0)
    ensures var r := Process(m, s, d).1;
            && r.status != Accepted
            && (PassesChecks(d) && d.op.payload == s.store[d.op.id].payload ==>
                  r == s.store[d.op.id].cached.(status := Duplicate))
            && (PassesChecks(d) && d.op.payload != s.store[d.op.id].payload ==>
                  r.status == Conflicting && r.conflict == Some(IdempotencyKeyReuse))
            && (!PassesChecks(d) ==> r.status == Rejected)
  {
  }

  /** An id enters the store exactly by being accepted, and never leaves. */
  lemma StoredIffAccepted<D, P, R>(m: Domain<D, P, R>, s: State<D, P, R>, d: Delivery<P>)
    requires RecordsAreAccepted(s)
    ensures var (s', r) := Process(m, s, d);
            && (forall id :: id in s'.store <==> id in s.store || (r.status == Accepted && id == d.op.id))
            && (forall id :: id in s.store ==> s'.store[id] == s.store[id])
            && (r.status == Accepted ==> d.op.id !in s.store)
            && (r.status != Accepted ==> SameEffect(s, s'))
            && RecordsAreAccepted(s')
  {
  }

  /** Cached results are acceptances. */
  ghost predicate RecordsAreAccepted<D, P, R>(s: State<D, P, R>) {
    forall id :: id in s.store ==> s.store[id].cached.status == Accepted && s.store[id].id == id
  }

  lemma ProcessIgnoresLedger<D, P, R>(m: Domain<D, P, R>, s: State<D, P, R>, t: State<D, P, R>, d: Delivery<P>)
    requires SameEffect(s, t)
    ensures SameEffect(Process(m, s, d).0, Process(m, t, d).0)
    ensures Process(m, s, d).1 == Process(m, t, d).1
  {
  }

  lemma {:induction false} RunsIgnoreLedger<D, P, R>(
      m: Domain<D, P, R>, s: State<D, P, R>, t: State<D, P, R>, ds: seq<Delivery<P>>)
    requires SameEffect(s, t)
    ensures SameEffect(After(m, s, ds), After(m, t, ds))
    ensures Results(m, s, ds) == Results(m, t, ds)
    decreases |ds|
  {
    if ds != [] {
      ProcessIgnoresLedger(m, s, t, ds[0]);
      RunsIgnoreLedger(m, Process(m, s, ds[0]).0, Process(m, t, ds[0]).0, ds[1..]);
    }
  }

  lemma {:induction false} RunConcat<D, P, R>(
      m: Domain<D, P, R>, s: State<D, P, R>, a: seq<Delivery<P>>, b: seq<Delivery<P>>)
    ensures After(m, s, a + b) == After(m, After(m, s, a), b)
    ensures Results(m, s, a + b) == Results(m, s, a) + Results(m, After(m, s, a), b)
    decreases |a|
  {
    if a == [] {
      assert a + b == b;
    } else {
      RunConcat(m, Process(m, s, a[0]).0, a[1..], b);
      assert (a + b)[1..] == a[1..] + b;
    }
  }

  /**
    Exactly-once effect: deleting a redelivery of an accepted operation from a stream changes neither
    the final domain and store nor the result of any other delivery.
  */
  lemma RedeliveriesCanBeDeleted<D, P, R>(
      m: Domain<D, P, R>, s: State<D, P, R>, a: seq<Delivery<P>>, d: Delivery<P>, b: seq<Delivery<P>>)
    requires d.op.id in After(m, s, a).store
    ensures SameEffect(After(m, s, a + [d] + b), After(m, s, a + b))
    ensures exists r :: Results(m, s, a + [d] + b) == Results(m, s, a) + [r] + Results(m, After(m, s, a), b)
    ensures Results(m, s, a + b) == Results(m, s, a) + Results(m, After(m, s, a), b)
  {
    var mid := After(m, s, a);
    RunConcat(m, s, a, b);
    RunConcat(m, s, a, [d]);
    RunConcat(m, s, a + [d], b);
    StoredIdsAreInert(m, mid, d);
    var mid' := Process(m, mid, d).0;
    assert After(m, mid, [d]) == mid' by {
      assert [d][1..] == [];
    }
    RunsIgnoreLedger(m, mid', mid, b);
    assert Results(m, mid, [d]) == [Process(m, mid, d).1];
  }

  /** The deliveries of a stream whose id is not yet stored when they arrive. */
  function FirstDeliveries<D, P(==), R>(m: Domain<D, P, R>, s: State<D, P, R>, ds: seq<Delivery<P>>): seq<Delivery<P>>
    decreases |ds|
  {
    if ds == [] then []
    else (if ds[0].op.id in s.store then [] else [ds[0]]) + FirstDeliveries(m, Process(m, s, ds[0]).0, ds[1..])
  }

  /** Their results in the full stream. */
  function FirstResults<D, P(==), R>(m: Domain<D, P, R>, s: State<D, P, R>, ds: seq<Delivery<P>>): seq<OperationResult<R>>
    decreases |ds|
  {
    if ds == [] then []
    else
      var (s', r) := Process(m, s, ds[0]);
      (if ds[0].op.id in s.store then [] else [r]) + FirstResults(m, s', ds[1..])
  }

  /**
    Exactly-once effect for a whole stream: dropping every redelivery of an accepted operation leaves the
    final domain and store, and each remaining result, as they were.
  */
  lemma {:induction false} AllRedeliveriesCanBeDeleted<D, P, R>(
      m: Domain<D, P, R>, s: State<D, P, R>, t: State<D, P, R>, ds: seq<Delivery<P>>)
    requires SameEffect(s, t)
    ensures SameEffect(After(m, s, ds), After(m, t, FirstDeliveries(m, s, ds)))
    ensures Results(m, t, FirstDeliveries(m, s, ds)) == FirstResults(m, s, ds)
    decreases |ds|
  {
    if ds != [] {
      var d, rest := ds[0], ds[1..];
      var s' := Process(m, s, d).0;
      if d.op.id in s.store {
        StoredIdsAreInert(m, s, d);
        AllRedeliveriesCanBeDeleted(m, s', t, rest);
        assert FirstDeliveries(m, s, ds) == FirstDeliveries(m, s', rest);
      } else {
        ProcessIgnoresLedger(m, s, t, d);
        AllRedeliveriesCanBeDeleted(m, s', Process(m, t, d).0, rest);
        var kept := FirstDeliveries(m, s, ds);
        assert kept[0] == d && kept[1..] == FirstDeliveries(m, s', rest);
      }
    }
  }

  lemma {:induction false} StoreOnlyGrows<D, P, R>(m: Domain<D, P, R>, s: State<D, P, R>, ds: seq<Delivery<P>>)
    requires RecordsAreAccepted(s)
    ensures RecordsAreAccepted(After(m, s, ds))
    ensures forall id :: id in s.store ==> id in After(m, s, ds).store
    decreases |ds|
  {
    if ds != [] {
      StoredIffAccepted(m, s, ds[0]);
      StoreOnlyGrows(m, Process(m, s, ds[0]).0, ds[1..]);
    }
  }

  /** In any stream an operation id is accepted, and so applied to the domain, at most once. */
  lemma AcceptedAtMostOnce<D, P, R>(m: Domain<D, P, R>, s: State<D, P, R>, ds: seq<Delivery<P>>, i: nat, j: nat)
    requires RecordsAreAccepted(s) && i < j < |ds| && ds[i].op.id == ds[j].op.id
    requires Results(m, s, ds)[i].status == Accepted
    ensures Results(m, s, ds)[j].status != Accepted
  {
    hide Process;
    var before, mid := After(m, s, ds[..i]), After(m, s, ds[..j]);
    ResultAt(m, s, ds, i);
    ResultAt(m, s, ds, j);
    StoreOnlyGrows(m, s, ds[..i]);
    StoredIffAccepted(m, before, ds[i]);
    assert ds[..j] == ds[..i] + [ds[i]] + ds[i + 1..j];
    RunConcat(m, s, ds[..i] + [ds[i]], ds[i + 1..j]);
    RunConcat(m, s, ds[..i], [ds[i]]);
    assert After(m, before, [ds[i]]) == Process(m, before, ds[i]).0;
    StoreOnlyGrows(m, Process(m, before, ds[i]).0, ds[i + 1..j]);
    StoredIdsAreInert(m, mid, ds[j]);
  }

  /** The k-th result is the k-th delivery processed where the first k left off. */
  lemma ResultAt<D, P, R>(m: Domain<D, P, R>, s: State<D, P, R>, ds: seq<Delivery<P>>, k: nat)
    requires k < |ds|
    ensures Results(m, s, ds)[k] == Process(m, After(m, s, ds[..k]), ds[k]).1
  {
    assert ds == ds[..k] + ds[k..];
    RunConcat(m, s, ds[..k], ds[k..]);
  }

  // ---- What a delivery does ---------------------------------------------------------------------

  /** Roles that may submit operations. */
  predicate IsSubmitter(a: Actor) {
    a.role == FieldOfficer || a.role == Operator || a.role == Commander || a.role == Admin
  }

  /** Creating what exists, changing what does not, or changing from a base the twin is past. */
  predicate Clashes<D, P, R>(m: Domain<D, P, R>, s: D, op: Operation<P>) {
    var known := op.entityType == IncidentEntity && m.hasIncident(s, op.entityId);
    if op.operationType == Create then known
    else !known || (op.baseVersion.Some? && m.version(s) > op.baseVersion.value)
  }

  /** The delivery was refused without effect, with this status and this reason. */
  ghost predicate RefusedAs<D, P, R>(s: State<D, P, R>, s': State<D, P, R>, d: Delivery<P>, r: OperationResult<R>,
                               status: SyncStatus, conflict: Option<ConflictType>, version: Option<int>)
  {
    && s'.domain == s.domain && s'.store == s.store
    && r == OperationResult(d.op.id, d.op.entityId, d.op.entityType, status, conflict, version, None)
    && s'.ledger == s.ledger + [LedgerEvent(d.op.id, d.actor.id, status, conflict)]
  }

  /** The operation took effect: the domain is what the mutation made of it, and the outcome is on record under the id. */
  ghost predicate TookEffect<D, P, R>(m: Domain<D, P, R>, s: State<D, P, R>, s': State<D, P, R>, d: Delivery<P>, r: OperationResult<R>) {
    && r.status == Accepted && r.id == d.op.id && r.entityId == d.op.entityId && r.entityType == d.op.entityType
    && r.conflict.None? && r.data.Some? && r.serverVersion == Some(m.version(s'.domain))
    && m.mutate(s.domain, d.op, d.actor) == Some((s'.domain, r.data.value))
    && d.op.id in s'.store && s'.store == s.store[d.op.id := s'.store[d.op.id]]
    && s'.store[d.op.id] == Record(d.op.id, d.op.payload, d.op.entityType, d.op.entityId, d.op.operationType, r, m.version(s'.domain))
    && s'.ledger == s.ledger + [LedgerEvent(d.op.id, d.actor.id, Accepted, None)]
  }

  /** Every way a delivery can end, when it does, and what it leaves. */
  lemma DeliveryMeans<D, P, R>(m: Domain<D, P, R>, s: State<D, P, R>, d: Delivery<P>)
    ensures var (s', r) := Process(m, s, d); var op := d.op;
      if op.schema != "1.0.0" || !IsSubmitter(d.actor) then RefusedAs(s, s', d, r, Rejected, None, None)
      else if op.id in s.store then
        if s.store[op.id].payload != op.payload then RefusedAs(s, s', d, r, Conflicting, Some(IdempotencyKeyReuse), None)
        else
          && s' == s.(ledger := s.ledger + [LedgerEvent(op.id, d.actor.id, Duplicate, None)])
          && r == s.store[op.id].cached.(status := Duplicate)
      else if Clashes(m, s.domain, op) then
        && RefusedAs(s, s', d, r, Conflicting, r.conflict, Some(m.version(s.domain)))
        && r.conflict == Some(if op.operationType != Create && !(op.entityType == IncidentEntity && m.hasIncident(s.domain, op.entityId))
                              then EntityNotFound else StateVersionConflict)
      else if m.mutate(s.domain, op, d.actor).None? then RefusedAs(s, s', d, r, Rejected, None, None)
      else TookEffect(m, s, s', d, r)
  {
    assert d.op.operationType == Create || d.op.operationType == Update || d.op.operationType == Delete;
    assert MaySync(d.actor) <==> IsSubmitter(d.actor);
  }

  /** A delivery is accepted exactly under these conditions, and then it takes effect. */
  lemma AcceptedIff<D, P, R>(m: Domain<D, P, R>, s: State<D, P, R>, d: Delivery<P>)
    requires RecordsAreAccepted(s)
    ensures var (s', r) := Process(m, s, d);
      && (r.status == Accepted <==>
            && d.op.schema == "1.0.0" && IsSubmitter(d.actor) && d.op.id !in s.store
            && !Clashes(m, s.domain, d.op) && m.mutate(s.domain, d.op, d.actor).Some?)
      && (r.status == Accepted ==> TookEffect(m, s, s', d, r))
  {
    DeliveryMeans(m, s, d);
    hide Process, Clashes, IsSubmitter;
  }

  /** The deliveries of a stream that were accepted. */
  function AcceptedOf<D, P(==), R>(m: Domain<D, P, R>, s: State<D, P, R>, ds: seq<Delivery<P>>): seq<Delivery<P>>
    decreases |ds|
  {
    if ds == [] then []
    else
      var (s', r) := Process(m, s, ds[0]);
      (if r.status == Accepted then [ds[0]] else []) + AcceptedOf(m, s', ds[1..])
  }

  /** The domain after these mutations in order, or None when one of them fails. */
  function Fold<D, P, R>(m: Domain<D, P, R>, start: D, ds: seq<Delivery<P>>): Option<D>
    decreases |ds|
  {
    if ds == [] then Some(start)
    else
      match m.mutate(start, ds[0].op, ds[0].actor)
      case None => None
      case Some((next, _)) => Fold(m, next, ds[1..])
  }

  /** Exactly once means once: the final domain is the accepted operations' mutations applied in order, each of them. */
  lemma {:induction false} DomainIsFoldOfAccepted<D, P, R>(m: Domain<D, P, R>, s: State<D, P, R>, ds: seq<Delivery<P>>)
    requires RecordsAreAccepted(s)
    ensures Fold(m, s.domain, AcceptedOf(m, s, ds)) == Some(After(m, s, ds).domain)
    decreases |ds|
  {
    if ds != [] {
      var (s', r) := Process(m, s, ds[0]);
      AcceptedIff(m, s, ds[0]);
      StoredIffAccepted(m, s, ds[0]);
      DomainIsFoldOfAccepted(m, s', ds[1..]);
      var kept, rest := AcceptedOf(m, s, ds), AcceptedOf(m, s', ds[1..]);
      if r.status == Accepted {
        assert kept == [ds[0]] + rest;
        assert kept[0] == ds[0] && kept[1..] == rest;
      } else {
        assert kept == rest;
      }
    }
  }

  // ---- No lost updates ----------------------------------------------------------------------

  /** An accepted incident update found its incident, from a base version absent or not behind the twin. */
  lemma AcceptedUpdateWasCurrent<D, P, R>(m: Domain<D, P, R>, s: State<D, P, R>, d: Delivery<P>)
    requires Process(m, s, d).1.status == Accepted && RecordsAreAccepted(s)
    ensures d.op.operationType != Create ==>
              && d.op.entityType == IncidentEntity && m.hasIncident(s.domain, d.op.entityId)
              && (d.op.baseVersion.None? || m.version(s.domain) <= d.op.baseVersion.value)
    ensures d.op.operationType == Create ==> !Exists(m, s.domain, d.op)
  {
    hide EvaluateConflict;
    ConflictFreeIff(d.op, m.version(s.domain), Exists(m, s.domain, d.op));
  }

  ghost predicate VersionNeverDrops<D(!new), P(!new), R(!new)>(m: Domain<D, P, R>) {
    forall d, op, actor :: m.mutate(d, op, actor).Some? ==> m.version(d) <= m.version(m.mutate(d, op, actor).value.0)
  }

  /** This delivery is an accepted update from base version b that moves the twin's version. */
  predicate Advances<D, P(==), R>(m: Domain<D, P, R>, s: State<D, P, R>, d: Delivery<P>, b: int) {
    && d.op.operationType == Update && d.op.baseVersion == Some(b)
    && Process(m, s, d).1.status == Accepted
    && m.version(s.domain) < m.version(Process(m, s, d).0.domain)
  }

  function CountAdvances<D, P(==), R>(m: Domain<D, P, R>, s: State<D, P, R>, ds: seq<Delivery<P>>, b: int): nat
    decreases |ds|
  {
    if ds == [] then 0
    else (if Advances(m, s, ds[0], b) then 1 else 0) + CountAdvances(m, Process(m, s, ds[0]).0, ds[1..], b)
  }

  /**
    No lost updates: of the updates that share base version b, at most b - v + 1 that advance the version
    are ever accepted when processing starts at version v; none once the twin is ahead of b.
  */
  lemma {:induction false} NoLostUpdates<D(!new), P(!new), R(!new)>(m: Domain<D, P, R>, s: State<D, P, R>, ds: seq<Delivery<P>>, b: int)
    requires VersionNeverDrops(m) && RecordsAreAccepted(s)
    ensures var v := m.version(s.domain);
            CountAdvances(m, s, ds, b) <= if v <= b then b - v + 1 else 0
    decreases |ds|
  {
    if ds != [] {
      var s' := Process(m, s, ds[0]).0;
      StoredIffAccepted(m, s, ds[0]);
      assert m.version(s.domain) <= m.version(s'.domain);
      NoLostUpdates(m, s', ds[1..], b);
      if Advances(m, s, ds[0], b) {
        AcceptedUpdateWasCurrent(m, s, ds[0]);
      }
    }
  }

  /** Updates based on the twin's present version: at most one that advances it is accepted. */
  lemma OneWinnerPerVersion<D(!new), P(!new), R(!new)>(m: Domain<D, P, R>, s: State<D, P, R>, ds: seq<Delivery<P>>)
    requires VersionNeverDrops(m) && RecordsAreAccepted(s)
    ensures CountAdvances(m, s, ds, m.version(s.domain)) <= 1
  {
    NoLostUpdates(m, s, ds, m.version(s.domain));
  }

  // ---- The mutable store and processor --------------------------------------------------------

  class IdempotencyStore<P(==), R> {
    var store: map<string, Record<P, R>>

    constructor ()
      ensures store == map[]
    {
      store := map[];
    }

    /** None when unseen, the record when seen with this payload, an error when seen with another. */
    method CheckAndRegister(id: string, payload: P) returns (r: Result<Option<Record<P, R>>, ConflictType>)
      ensures r == if id !in store then Ok(None)
                   else if store[id].payload == payload then Ok(Some(store[id]))
                   else Err(IdempotencyKeyReuse)
    {
      if id !in store {
        return Ok(None);
      }
      if store[id].payload != payload {
        return Err(IdempotencyKeyReuse);
      }
      return Ok(Some(store[id]));
    }

    method SaveRecord(record: Record<P, R>)
      modifies this
      ensures store == old(store)[record.id := record]
    {
      store := store[record.id := record];
    }
  }

  class SyncQueueProcessor<D, P(==), R> {
    const model: Domain<D, P, R>
    const idempotency: IdempotencyStore<P, R>
    var domain: D
    var ledger: seq<LedgerEvent>

    ghost function View(): State<D, P, R>
      reads this, idempotency
    {
      State(domain, idempotency.store, ledger)
    }

    constructor (model: Domain<D, P, R>, domain: D)
      ensures fresh(idempotency) && this.model == model
      ensures View() == State(domain, map[], [])
    {
      this.model, this.domain, this.ledger := model, domain, [];
      this.idempotency := new IdempotencyStore();
    }

    method RecordEvent(d: Delivery<P>, status: SyncStatus, conflict: Option<ConflictType>)
      modifies this`ledger
      ensures View() == Note(old(View()), d, status, conflict)
    {
      ledger := ledger + [LedgerEvent(d.op.id, d.actor.id, status, conflict)];
    }

    method ProcessSingleOperation(d: Delivery<P>) returns (r: OperationResult<R>)
      modifies this, idempotency
      ensures View() == Process(model, old(View()), d).0
      ensures r == Process(model, old(View()), d).1
    {
      var op := d.op;
      if op.schema != SCHEMA {
        RecordEvent(d, Rejected, None);
        return Refuse(op, Rejected, None, None);
      }
      if !MaySync(d.actor) {
        RecordEvent(d, Rejected, None);
        return Refuse(op, Rejected, None, None);
      }
      var checked := idempotency.CheckAndRegister(op.id, op.payload);
      if checked.Err? {
        RecordEvent(d, Conflicting, Some(checked.error));
        return Refuse(op, Conflicting, Some(checked.error), None);
      }
      if checked.value.Some? {
        RecordEvent(d, Duplicate, None);
        return checked.value.value.cached.(status := Duplicate);
      }
      var current := model.version(domain);
      var conflict := EvaluateConflict(op, current, Exists(model, domain, op));
      if conflict.Some? {
        RecordEvent(d, Conflicting, conflict);
        return Refuse(op, Conflicting, conflict, Some(current));
      }
      var mutated := model.mutate(domain, op, d.actor);
      if mutated.None? {
        RecordEvent(d, Rejected, None);
        return Refuse(op, Rejected, None, None);
      }
      domain := mutated.value.0;
      var version := model.version(domain);
      r := OperationResult(op.id, op.entityId, op.entityType, Accepted, None, Some(version), Some(mutated.value.1));
      idempotency.SaveRecord(Record(op.id, op.payload, op.entityType, op.entityId, op.operationType, r, version));
      RecordEvent(d, Accepted, None);
    }

    /** Processes a batch in order; the four counters account for every operation. */
    method ProcessBatch(ops: seq<Operation<P>>, actor: Actor)
      returns (results: seq<OperationResult<R>>, accepted: nat, duplicate: nat, conflicting: nat, rejected: nat)
      modifies this, idempotency
      ensures var ds := seq(|ops|, i requires 0 <= i < |ops| => Delivery(ops[i], actor));
              View() == After(model, old(View()), ds) && results == Results(model, old(View()), ds)
      ensures accepted == CountStatus(results, Accepted) && duplicate == CountStatus(results, Duplicate)
      ensures conflicting == CountStatus(results, Conflicting)
      ensures rejected == CountStatus(results, Rejected) + CountStatus(results, RetryableError)
      ensures accepted + duplicate + conflicting + rejected == |ops|
    {
      results, accepted, duplicate, conflicting, rejected := [], 0, 0, 0, 0;
      assert forall st :: CountStatus(results, st) == 0;
      hide Process, CountStatus;
      ghost var start := View();
      ghost var ds := seq(|ops|, i requires 0 <= i < |ops| => Delivery(ops[i], actor));
      for i := 0 to |ops|
        invariant View() == After(model, start, ds[..i]) && results == Results(model, start, ds[..i])
        invariant accepted == CountStatus(results, Accepted) && duplicate == CountStatus(results, Duplicate)
        invariant conflicting == CountStatus(results, Conflicting)
        invariant rejected == CountStatus(results, Rejected) + CountStatus(results, RetryableError)
        invariant accepted + duplicate + conflicting + rejected == i
      {
        assert ds[..i + 1] == ds[..i] + [ds[i]];
        RunConcat(model, start, ds[..i], [ds[i]]);
        var r := ProcessSingleOperation(Delivery(ops[i], actor));
        forall st ensures CountStatus(results + [r], st) == CountStatus(results, st) + if r.status == st then 1 else 0 {
          CountOneMore(results, r, st);
        }
        results := results + [r];
        match r.status {
          case Accepted => accepted := accepted + 1;
          case Duplicate => duplicate := duplicate + 1;
          case Conflicting => conflicting := conflicting + 1;
          case Rejected => rejected := rejected + 1;
          case RetryableError => rejected := rejected + 1;
        }
      }
      assert ds[..|ops|] == ds;
    }
  }

  function CountStatus<R>(results: seq<OperationResult<R>>, status: SyncStatus): nat {
    if results == [] then 0
    else CountStatus(results[..|results| - 1], status) + if results[|results| - 1].status == status then 1 else 0
  }

  lemma CountOneMore<R>(results: seq<OperationResult<R>>, r: OperationResult<R>, status: SyncStatus)
    ensures CountStatus(results + [r], status) == CountStatus(results, status) + if r.status == status then 1 else 0
  {
    assert (results + [r])[..|results|] == results;
  }

  /** Where the results with that status stand. */
  function Having<R>(results: seq<OperationResult<R>>, status: SyncStatus): set<int> {
    set i | 0 <= i < |results| && results[i].status == status
  }

  /** The count is the number of results with that status. */
  lemma {:induction false} CountsTheStatus<R>(results: seq<OperationResult<R>>, status: SyncStatus)
    ensures CountStatus(results, status) == |Having(results, status)|
  {
    if results != [] {
      var init, n := results[..|results| - 1], |results| - 1;
      assert Having(results, status) == Having(init, status) + (if results[n].status == status then {n} else {});
      assert n !in Having(init, status);
      hide Having;
      CountsTheStatus(init, status);
    }
  }
}
