/** Greedy allocation of boats and teams to sectors in order of risk. */
module Allocation {
  import opened Basics

  datatype Kind = RescueTeam | Boat | OtherKind

  datatype Sector = Sector(id: string, risk: real, boats: int, teams: int)

  datatype Resource = Resource(id: string, kind: Kind, isAvailable: bool)

  datatype Proposal = Proposal(sector: string, resources: seq<string>, coverage: real)

  datatype Shortfall = Shortfall(sector: string, kind: Kind)

  datatype Allocation = Allocation(proposals: seq<Proposal>, unmet: seq<Shortfall>, left: seq<Resource>)

  function Min(a: nat, b: nat): nat {
    if a <= b then a else b
  }

  /** `range(n)` runs no iteration for a negative n. */
  function Positive(n: int): nat {
    if n < 0 then 0 else n
  }

  // ---- Risk order ---------------------------------------------------------------------

  /** Insertion after everything at least as risky, which keeps equal risks in their original order. */
  function InsertByRisk(sorted: seq<Sector>, s: Sector): (r: seq<Sector>)
    ensures |r| == |sorted| + 1
    ensures forall x :: x in r <==> x in sorted || x == s
  {
    if sorted == [] || sorted[0].risk < s.risk then [s] + sorted
    else [sorted[0]] + InsertByRisk(sorted[1..], s)
  }

  function SortByRisk(sectors: seq<Sector>): (r: seq<Sector>)
    ensures |r| == |sectors|
  {
    if sectors == [] then [] else InsertByRisk(SortByRisk(sectors[..|sectors| - 1]), sectors[|sectors| - 1])
  }

  ghost predicate Descending(s: seq<Sector>) {
    forall i, j :: 0 <= i < j < |s| ==> s[i].risk >= s[j].risk
  }

  function AtRisk(s: seq<Sector>, risk: real): seq<Sector> {
    if s == [] then []
    else (if s[0].risk == risk then [s[0]] else []) + AtRisk(s[1..], risk)
  }

  lemma {:induction false} InsertKeepsOrder(sorted: seq<Sector>, s: Sector)
    requires Descending(sorted)
    ensures Descending(InsertByRisk(sorted, s))
  {
    if sorted != [] && sorted[0].risk >= s.risk {
      InsertKeepsOrder(sorted[1..], s);
      var rest := InsertByRisk(sorted[1..], s);
      forall j | 0 <= j < |rest| ensures sorted[0].risk >= rest[j].risk {
        assert rest[j] in rest;
        assert rest[j] in sorted[1..] || rest[j] == s;
      }
    }
  }

  lemma {:induction false} InsertKeepsAll(sorted: seq<Sector>, s: Sector)
    ensures multiset(InsertByRisk(sorted, s)) == multiset(sorted) + multiset{s}
  {
    if sorted != [] && sorted[0].risk >= s.risk {
      InsertKeepsAll(sorted[1..], s);
      assert sorted == [sorted[0]] + sorted[1..];
    }
  }

  lemma {:induction false} InsertIsStable(sorted: seq<Sector>, s: Sector, risk: real)
    requires Descending(sorted)
    ensures AtRisk(InsertByRisk(sorted, s), risk) == AtRisk(sorted, risk) + if s.risk == risk then [s] else []
  {
    if sorted == [] || sorted[0].risk < s.risk {
      if s.risk == risk {
        NoneAtHigherRisk(sorted, risk);
      }
      assert ([s] + sorted)[1..] == sorted;
    } else {
      InsertIsStable(sorted[1..], s, risk);
      assert InsertByRisk(sorted, s)[1..] == InsertByRisk(sorted[1..], s);
    }
  }

  lemma {:induction false} NoneAtHigherRisk(sorted: seq<Sector>, risk: real)
    requires Descending(sorted) && (sorted != [] ==> sorted[0].risk < risk)
    ensures AtRisk(sorted, risk) == []
  {
    if sorted != [] {
      NoneAtHigherRisk(sorted[1..], risk);
    }
  }

  lemma {:induction false} AtRiskConcat(a: seq<Sector>, s: Sector, risk: real)
    ensures AtRisk(a + [s], risk) == AtRisk(a, risk) + if s.risk == risk then [s] else []
  {
    if a == [] {
      assert a + [s] == [s] && [s][1..] == [];
    } else {
      AtRiskConcat(a[1..], s, risk);
      assert (a + [s])[1..] == a[1..] + [s];
    }
  }

  /** The order is by descending risk. */
  lemma {:induction false} SortedByRisk(sectors: seq<Sector>)
    ensures Descending(SortByRisk(sectors))
  {
    if sectors != [] {
      SortedByRisk(sectors[..|sectors| - 1]);
      InsertKeepsOrder(SortByRisk(sectors[..|sectors| - 1]), sectors[|sectors| - 1]);
      hide Descending, InsertByRisk;
    }
  }

  /** No sector is lost or repeated. */
  lemma {:induction false} SortKeepsAll(sectors: seq<Sector>)
    ensures multiset(SortByRisk(sectors)) == multiset(sectors)
  {
    if sectors != [] {
      var init, last := sectors[..|sectors| - 1], sectors[|sectors| - 1];
      hide SortByRisk, InsertByRisk;
      SortKeepsAll(init);
      InsertKeepsAll(SortByRisk(init), last);
      SortSnoc(sectors);
      MultisetSnoc(sectors);
    }
  }

  lemma MultisetSnoc<T>(s: seq<T>)
    requires s != []
    ensures multiset(s) == multiset(s[..|s| - 1]) + multiset{s[|s| - 1]}
  {
    assert s == s[..|s| - 1] + [s[|s| - 1]];
  }

  lemma SortSnoc(sectors: seq<Sector>)
    requires sectors != []
    ensures SortByRisk(sectors) == InsertByRisk(SortByRisk(sectors[..|sectors| - 1]), sectors[|sectors| - 1])
  {
  }

  /** Sectors of equal risk keep their original order. */
  lemma {:induction false} SortIsStable(sectors: seq<Sector>, risk: real)
    ensures AtRisk(SortByRisk(sectors), risk) == AtRisk(sectors, risk)
  {
    if sectors != [] {
      var init, last := sectors[..|sectors| - 1], sectors[|sectors| - 1];
      SortIsStable(init, risk);
      SortedByRisk(init);
      InsertIsStable(SortByRisk(init), last, risk);
      AtRiskConcat(init, last, risk);
      assert sectors == init + [last];
    }
  }

  // ---- Taking from the pool -----------------------------------------------------------------

  /** Index of the first resource of a kind, or the pool's length. */
  function FirstOf(pool: seq<Resource>, kind: Kind): (i: nat)
    ensures i <= |pool|
    ensures i < |pool| ==> pool[i].kind == kind
    ensures forall j :: 0 <= j < i ==> pool[j].kind != kind
  {
    if pool == [] || pool[0].kind == kind then 0 else 1 + FirstOf(pool[1..], kind)
  }

  function Count(pool: seq<Resource>, kind: Kind): nat {
    if pool == [] then 0 else (if pool[0].kind == kind then 1 else 0) + Count(pool[1..], kind)
  }

  /** The first n resources of a kind, or as many as there are. */
  function Taken(pool: seq<Resource>, kind: Kind, n: nat): seq<Resource> {
    if pool == [] || n == 0 then []
    else if pool[0].kind == kind then [pool[0]] + Taken(pool[1..], kind, n - 1)
    else Taken(pool[1..], kind, n)
  }

  /** The pool without them. */
  function Rest(pool: seq<Resource>, kind: Kind, n: nat): seq<Resource> {
    if pool == [] || n == 0 then pool
    else if pool[0].kind == kind then Rest(pool[1..], kind, n - 1)
    else [pool[0]] + Rest(pool[1..], kind, n)
  }

  /** Exactly min(n, supply) resources of the kind leave the pool, and other kinds stay. */
  lemma {:induction false} TakeIsExact(pool: seq<Resource>, kind: Kind, n: nat, other: Kind)
    ensures |Taken(pool, kind, n)| == Min(n, Count(pool, kind))
    ensures Count(Rest(pool, kind, n), other) == Count(pool, other) - if other == kind then |Taken(pool, kind, n)| else 0
  {
    if pool != [] && n > 0 {
      TakeIsExact(pool[1..], kind, if pool[0].kind == kind then n - 1 else n, other);
      if pool[0].kind != kind {
        assert Rest(pool, kind, n)[1..] == Rest(pool[1..], kind, n);
      }
    }
  }

  /** Taking splits the pool: nothing is lost or used twice, and what is taken is of the kind. */
  lemma {:induction false} TakeSplitsPool(pool: seq<Resource>, kind: Kind, n: nat)
    ensures multiset(pool) == multiset(Taken(pool, kind, n)) + multiset(Rest(pool, kind, n))
    ensures forall r :: r in Taken(pool, kind, n) ==> r.kind == kind
  {
    if pool != [] && n > 0 {
      assert pool == [pool[0]] + pool[1..];
      TakeSplitsPool(pool[1..], kind, if pool[0].kind == kind then n - 1 else n);
    }
  }

  /** Taking one more is taking one from what is left. */
  lemma {:induction false} TakeOneMore(pool: seq<Resource>, kind: Kind, n: nat)
    ensures Taken(pool, kind, n + 1) == Taken(pool, kind, n) + Taken(Rest(pool, kind, n), kind, 1)
    ensures Rest(pool, kind, n + 1) == Rest(Rest(pool, kind, n), kind, 1)
  {
    if pool != [] && n > 0 {
      TakeOneMore(pool[1..], kind, if pool[0].kind == kind then n - 1 else n);
      if pool[0].kind != kind {
        assert Rest(pool, kind, n)[1..] == Rest(pool[1..], kind, n);
      }
    }
  }

  function RemoveAt(pool: seq<Resource>, i: nat): seq<Resource>
    requires i < |pool|
  {
    pool[..i] + pool[i + 1..]
  }

  lemma RemoveAtCons(pool: seq<Resource>, i: nat)
    requires i + 1 < |pool|
    ensures RemoveAt(pool, i + 1) == [pool[0]] + RemoveAt(pool[1..], i)
  {
  }

  /** Taking one is removing the first of the kind. */
  lemma {:induction false} TakeFirst(pool: seq<Resource>, kind: Kind)
    ensures var i := FirstOf(pool, kind);
            if i < |pool| then Taken(pool, kind, 1) == [pool[i]] && Rest(pool, kind, 1) == RemoveAt(pool, i)
            else Taken(pool, kind, 1) == [] && Rest(pool, kind, 1) == pool
  {
    if pool != [] {
      if pool[0].kind == kind {
        assert Taken(pool[1..], kind, 0) == [] && Rest(pool[1..], kind, 0) == pool[1..];
        assert RemoveAt(pool, 0) == pool[1..];
      } else {
        TakeFirst(pool[1..], kind);
        var i := FirstOf(pool[1..], kind);
        assert Taken(pool, kind, 1) == Taken(pool[1..], kind, 1);
        assert Rest(pool, kind, 1) == [pool[0]] + Rest(pool[1..], kind, 1);
        assert FirstOf(pool, kind) == i + 1;
        hide RemoveAt, Taken, Rest, FirstOf;
        if i < |pool[1..]| {
          RemoveAtCons(pool, i);
        }
      }
    }
  }

  function OfKind(pool: seq<Resource>, kind: Kind): seq<Resource> {
    if pool == [] then [] else (if pool[0].kind == kind then [pool[0]] else []) + OfKind(pool[1..], kind)
  }

  /** What is taken are the first of the kind, and the others of the kind keep their order. */
  lemma {:induction false} TakenAreFirst(pool: seq<Resource>, kind: Kind, n: nat)
    ensures OfKind(pool, kind) == Taken(pool, kind, n) + OfKind(Rest(pool, kind, n), kind)
  {
    if pool == [] || n == 0 {
      assert Taken(pool, kind, n) == [] && Rest(pool, kind, n) == pool;
    } else {
      var head, tail, m := pool[0], pool[1..], if pool[0].kind == kind then n - 1 else n;
      TakenAreFirst(tail, kind, m);
      OfKindCons(head, Rest(tail, kind, m), kind);
      var own := if head.kind == kind then [head] else [];
      assert OfKind(pool, kind) == own + OfKind(tail, kind) && Taken(pool, kind, n) == own + Taken(tail, kind, m);
      assert Rest(pool, kind, n) == (if head.kind == kind then [] else [head]) + Rest(tail, kind, m);
      hide OfKind, Taken, Rest;
    }
  }

  lemma OfKindCons(r: Resource, rs: seq<Resource>, kind: Kind)
    ensures OfKind([r] + rs, kind) == (if r.kind == kind then [r] else []) + OfKind(rs, kind)
  {
    assert ([r] + rs)[1..] == rs;
  }

  // ---- The allocation as a value -----------------------------------------------------------

  function Ids(rs: seq<Resource>): (ids: seq<string>)
    ensures |ids| == |rs|
    ensures forall i :: 0 <= i < |rs| ==> ids[i] == rs[i].id
  {
    if rs == [] then [] else [rs[0].id] + Ids(rs[1..])
  }

  function Repeat(s: Shortfall, n: nat): (r: seq<Shortfall>)
    ensures |r| == n
  {
    if n == 0 then [] else Repeat(s, n - 1) + [s]
  }

  function Coverage(s: Sector, granted: nat): real {
    if s.boats + s.teams > 0 then Round2(granted as real / (s.boats + s.teams) as real) else Round2(1.0)
  }

  function BoatsFor(s: Sector, pool: seq<Resource>): seq<Resource> {
    Taken(pool, Boat, Positive(s.boats))
  }

  function TeamsFor(s: Sector, pool: seq<Resource>): seq<Resource> {
    Taken(Rest(pool, Boat, Positive(s.boats)), RescueTeam, Positive(s.teams))
  }

  /** The pool after serving a sector. */
  function PoolAfter(s: Sector, pool: seq<Resource>): seq<Resource> {
    Rest(Rest(pool, Boat, Positive(s.boats)), RescueTeam, Positive(s.teams))
  }

  function ProposalFor(s: Sector, pool: seq<Resource>): Proposal {
    var boats, teams := BoatsFor(s, pool), TeamsFor(s, pool);
    Proposal(s.id, Ids(boats) + Ids(teams), Coverage(s, |boats| + |teams|))
  }

  /** One report per missing boat, then one per missing team. */
  function ShortfallsFor(s: Sector, pool: seq<Resource>): seq<Shortfall> {
    Repeat(Shortfall(s.id, Boat), Positive(Positive(s.boats) - |BoatsFor(s, pool)|))
    + Repeat(Shortfall(s.id, RescueTeam), Positive(Positive(s.teams) - |TeamsFor(s, pool)|))
  }

  function Allocate(sectors: seq<Sector>, pool: seq<Resource>): Allocation {
    if sectors == [] then Allocation([], [], pool)
    else
      var before, s := Allocate(sectors[..|sectors| - 1], pool), sectors[|sectors| - 1];
      Allocation(before.proposals + [ProposalFor(s, before.left)],
                 before.unmet + ShortfallsFor(s, before.left),
                 PoolAfter(s, before.left))
  }

  // ---- Greedy vectors --------------------------------------------------------------------------

  function Sum(v: seq<nat>): nat {
    if v == [] then 0 else v[0] + Sum(v[1..])
  }

  /** Each need in turn gets as much of the remaining supply as it asks for. */
  function Greedy(needs: seq<nat>, supply: nat): (v: seq<nat>)
    ensures |v| == |needs|
  {
    if needs == [] then []
    else [Min(needs[0], supply)] + Greedy(needs[1..], supply - Min(needs[0], supply))
  }

  ghost predicate Feasible(v: seq<nat>, needs: seq<nat>, supply: nat) {
    |v| == |needs| && (forall i :: 0 <= i < |v| ==> v[i] <= needs[i]) && Sum(v) <= supply
  }

  predicate LexLeq(a: seq<nat>, b: seq<nat>)
    requires |a| == |b|
  {
    a == [] || a[0] < b[0] || (a[0] == b[0] && LexLeq(a[1..], b[1..]))
  }

  /** Closed form: need i gets min(need, what earlier needs leave of the supply). */
  lemma {:induction false} GreedyClosedForm(needs: seq<nat>, supply: nat, i: nat)
    requires i < |needs|
    ensures Greedy(needs, supply)[i] == Min(needs[i], Positive(supply - Sum(needs[..i])))
  {
    if i > 0 {
      var first := Min(needs[0], supply);
      GreedyClosedForm(needs[1..], supply - first, i - 1);
      assert needs[..i][0] == needs[0] && needs[..i][1..] == needs[1..][..i - 1];
    }
  }

  /** The greedy vector is feasible, uses min(demand, supply), and no feasible vector is lexicographically greater. */
  lemma {:induction false} GreedyIsBest(needs: seq<nat>, supply: nat)
    ensures Feasible(Greedy(needs, supply), needs, supply)
    ensures Sum(Greedy(needs, supply)) == Min(Sum(needs), supply)
    ensures forall v: seq<nat> :: Feasible(v, needs, supply) ==> LexLeq(v, Greedy(needs, supply))
  {
    if needs != [] {
      var first := Min(needs[0], supply);
      GreedyIsBest(needs[1..], supply - first);
      var g := Greedy(needs, supply);
      assert g[1..] == Greedy(needs[1..], supply - first);
      forall v: seq<nat> | Feasible(v, needs, supply) ensures LexLeq(v, g) {
        if v[0] == g[0] {
          forall i | 0 <= i < |v[1..]| ensures v[1..][i] <= needs[1..][i] {
          }
          assert Feasible(v[1..], needs[1..], supply - first);
        }
      }
    }
  }

  lemma {:induction false} GreedyConcat(needs: seq<nat>, supply: nat, last: nat)
    ensures Sum(Greedy(needs, supply)) <= supply
    ensures Greedy(needs + [last], supply) == Greedy(needs, supply) + [Min(last, supply - Sum(Greedy(needs, supply)))]
  {
    if needs == [] {
      assert needs + [last] == [last] && [last][1..] == [];
    } else {
      GreedyConcat(needs[1..], supply - Min(needs[0], supply), last);
      assert (needs + [last])[1..] == needs[1..] + [last];
    }
  }

  lemma {:induction false} SumConcat(v: seq<nat>, last: nat)
    ensures Sum(v + [last]) == Sum(v) + last
  {
    if v == [] {
      assert v + [last] == [last] && [last][1..] == [];
    } else {
      SumConcat(v[1..], last);
      assert (v + [last])[1..] == v[1..] + [last];
    }
  }

  // ---- What an allocation grants -----------------------------------------------------------------

  function Needs(sectors: seq<Sector>, kind: Kind): (v: seq<nat>)
    ensures |v| == |sectors|
  {
    if sectors == [] then []
    else
      var s := sectors[|sectors| - 1];
      Needs(sectors[..|sectors| - 1], kind) +
      [if kind == Boat then Positive(s.boats) else if kind == RescueTeam then Positive(s.teams) else 0]
  }

  /** How many resources of the kind each sector was granted. */
  function Grants(sectors: seq<Sector>, pool: seq<Resource>, kind: Kind): (v: seq<nat>)
    ensures |v| == |sectors|
  {
    if sectors == [] then []
    else
      var init, s := sectors[..|sectors| - 1], sectors[|sectors| - 1];
      var before := Allocate(init, pool).left;
      Grants(init, pool, kind) +
      [if kind == Boat then |BoatsFor(s, before)| else if kind == RescueTeam then |TeamsFor(s, before)| else 0]
  }

  /** Everything granted to anyone. */
  function Granted(sectors: seq<Sector>, pool: seq<Resource>): seq<Resource> {
    if sectors == [] then []
    else
      var init, s := sectors[..|sectors| - 1], sectors[|sectors| - 1];
      var before := Allocate(init, pool).left;
      Granted(init, pool) + BoatsFor(s, before) + TeamsFor(s, before)
  }

  /** Serving one sector takes min(need, supply) of each kind and nothing else. */
  lemma ServeIsExact(s: Sector, pool: seq<Resource>)
    ensures |BoatsFor(s, pool)| == Min(Positive(s.boats), Count(pool, Boat))
    ensures |TeamsFor(s, pool)| == Min(Positive(s.teams), Count(pool, RescueTeam))
    ensures Count(PoolAfter(s, pool), Boat) == Count(pool, Boat) - |BoatsFor(s, pool)|
    ensures Count(PoolAfter(s, pool), RescueTeam) == Count(pool, RescueTeam) - |TeamsFor(s, pool)|
    ensures multiset(pool) == multiset(BoatsFor(s, pool)) + multiset(TeamsFor(s, pool)) + multiset(PoolAfter(s, pool))
  {
    var mid := Rest(pool, Boat, Positive(s.boats));
    TakeIsExact(pool, Boat, Positive(s.boats), Boat);
    TakeIsExact(pool, Boat, Positive(s.boats), RescueTeam);
    TakeIsExact(mid, RescueTeam, Positive(s.teams), Boat);
    TakeIsExact(mid, RescueTeam, Positive(s.teams), RescueTeam);
    TakeSplitsPool(pool, Boat, Positive(s.boats));
    TakeSplitsPool(mid, RescueTeam, Positive(s.teams));
    hide Taken, Rest, Count;
  }

  /** A kind's grants are the greedy vector over the needs, and leave the rest of the supply. */
  ghost predicate GreedyFor(kind: Kind, sectors: seq<Sector>, pool: seq<Resource>) {
    var grants := Grants(sectors, pool, kind);
    && grants == Greedy(Needs(sectors, kind), Count(pool, kind))
    && Count(Allocate(sectors, pool).left, kind) == Count(pool, kind) - Sum(grants)
  }

  /** One more need after a greedy vector. */
  lemma GreedySnoc(needs: seq<nat>, supply: nat, grants: seq<nat>, need: nat, got: nat, left: nat)
    requires grants == Greedy(needs, supply) && left == supply - Sum(grants) && got == Min(need, left)
    ensures grants + [got] == Greedy(needs + [need], supply)
    ensures left - got == supply - Sum(grants + [got])
  {
    GreedyConcat(needs, supply, need);
    SumConcat(grants, got);
  }

  lemma GreedyForOneMore(kind: Kind, init: seq<Sector>, s: Sector, pool: seq<Resource>)
    requires kind == Boat || kind == RescueTeam
    requires GreedyFor(kind, init, pool)
    ensures GreedyFor(kind, init + [s], pool)
  {
    var sectors := init + [s];
    assert sectors[..|sectors| - 1] == init;
    var before := Allocate(init, pool).left;
    ServeIsExact(s, before);
    var need := if kind == Boat then Positive(s.boats) else Positive(s.teams);
    var got := if kind == Boat then |BoatsFor(s, before)| else |TeamsFor(s, before)|;
    assert Grants(sectors, pool, kind) == Grants(init, pool, kind) + [got];
    assert Needs(sectors, kind) == Needs(init, kind) + [need];
    assert Allocate(sectors, pool).left == PoolAfter(s, before);
    GreedySnoc(Needs(init, kind), Count(pool, kind), Grants(init, pool, kind), need, got, Count(before, kind));
    hide Allocate, Needs, Grants, Greedy, Sum, Count, BoatsFor, TeamsFor, PoolAfter;
  }

  /** The allocation of each kind is the greedy vector over the sectors' needs. */
  lemma {:induction false} AllocationIsGreedy(sectors: seq<Sector>, pool: seq<Resource>)
    ensures GreedyFor(Boat, sectors, pool) && GreedyFor(RescueTeam, sectors, pool)
  {
    if sectors != [] {
      var init, s := sectors[..|sectors| - 1], sectors[|sectors| - 1];
      AllocationIsGreedy(init, pool);
      assert init + [s] == sectors;
      GreedyForOneMore(Boat, init, s, pool);
      GreedyForOneMore(RescueTeam, init, s, pool);
    }
  }

  /** Each entry is min(need, what earlier needs leave). */
  ghost predicate ClosedForm(grants: seq<nat>, needs: seq<nat>, supply: nat) {
    && |grants| == |needs|
    && forall i {:trigger grants[i]} :: 0 <= i < |needs| ==> grants[i] == Min(needs[i], Positive(supply - Sum(needs[..i])))
  }

  ghost predicate LexGreatest(grants: seq<nat>, needs: seq<nat>, supply: nat) {
    && Feasible(grants, needs, supply)
    && forall v: seq<nat> :: Feasible(v, needs, supply) ==> LexLeq(v, grants)
  }

  lemma GreedyHasClosedForm(needs: seq<nat>, supply: nat)
    ensures ClosedForm(Greedy(needs, supply), needs, supply)
  {
    hide Greedy, Sum;
    forall i | 0 <= i < |needs| ensures Greedy(needs, supply)[i] == Min(needs[i], Positive(supply - Sum(needs[..i]))) {
      GreedyClosedForm(needs, supply, i);
    }
  }

  /**
    No allocation of a kind that respects needs and supply is lexicographically greater in risk order,
    none grants more in total, and sector i gets min(need, what riskier sectors leave).
  */
  lemma AllocationIsBest(kind: Kind, sectors: seq<Sector>, pool: seq<Resource>)
    requires kind == Boat || kind == RescueTeam
    ensures LexGreatest(Grants(sectors, pool, kind), Needs(sectors, kind), Count(pool, kind))
    ensures ClosedForm(Grants(sectors, pool, kind), Needs(sectors, kind), Count(pool, kind))
    ensures Sum(Grants(sectors, pool, kind)) == Min(Sum(Needs(sectors, kind)), Count(pool, kind))
  {
    AllocationIsGreedy(sectors, pool);
    assert Grants(sectors, pool, kind) == Greedy(Needs(sectors, kind), Count(pool, kind));
    GreedyIsBest(Needs(sectors, kind), Count(pool, kind));
    GreedyHasClosedForm(Needs(sectors, kind), Count(pool, kind));
    hide Grants, Needs, Count, GreedyFor, Greedy, Sum, LexLeq, ClosedForm, Feasible;
  }

  /** Granted plus left over is exactly the pool: no resource is lost or used twice. */
  lemma {:induction false} PoolIsConserved(sectors: seq<Sector>, pool: seq<Resource>)
    ensures multiset(pool) == multiset(Granted(sectors, pool)) + multiset(Allocate(sectors, pool).left)
  {
    if sectors != [] {
      var init, s := sectors[..|sectors| - 1], sectors[|sectors| - 1];
      PoolIsConserved(init, pool);
      ServeIsExact(s, Allocate(init, pool).left);
      hide BoatsFor, TeamsFor, PoolAfter;
    }
  }

  function CountShort(u: seq<Shortfall>, s: Shortfall): nat {
    multiset(u)[s]
  }

  lemma {:induction false} RepeatCounts(s: Shortfall, n: nat, t: Shortfall)
    ensures CountShort(Repeat(s, n), t) == if s == t then n else 0
  {
    if n > 0 {
      RepeatCounts(s, n - 1, t);
    }
  }

  /** Per sector and kind, granted plus reported shortfalls is the need. */
  lemma ServeAccountsForNeed(s: Sector, pool: seq<Resource>)
    ensures |ProposalFor(s, pool).resources| == |BoatsFor(s, pool)| + |TeamsFor(s, pool)|
    ensures |BoatsFor(s, pool)| + CountShort(ShortfallsFor(s, pool), Shortfall(s.id, Boat)) == Positive(s.boats)
    ensures |TeamsFor(s, pool)| + CountShort(ShortfallsFor(s, pool), Shortfall(s.id, RescueTeam)) == Positive(s.teams)
  {
    ServeIsExact(s, pool);
    var lackBoats, lackTeams := Positive(s.boats) - |BoatsFor(s, pool)|, Positive(s.teams) - |TeamsFor(s, pool)|;
    RepeatCounts(Shortfall(s.id, Boat), lackBoats, Shortfall(s.id, Boat));
    RepeatCounts(Shortfall(s.id, Boat), lackBoats, Shortfall(s.id, RescueTeam));
    RepeatCounts(Shortfall(s.id, RescueTeam), lackTeams, Shortfall(s.id, Boat));
    RepeatCounts(Shortfall(s.id, RescueTeam), lackTeams, Shortfall(s.id, RescueTeam));
    var a, b := Repeat(Shortfall(s.id, Boat), lackBoats), Repeat(Shortfall(s.id, RescueTeam), lackTeams);
    assert ShortfallsFor(s, pool) == a + b && multiset(a + b) == multiset(a) + multiset(b);
    hide BoatsFor, TeamsFor, PoolAfter, Repeat, Count;
  }

  // ---- What is reported -----------------------------------------------------------------------------

  lemma {:induction false} AllocateHasPrefixes(sectors: seq<Sector>, pool: seq<Resource>, i: nat)
    requires i < |sectors|
    ensures |Allocate(sectors, pool).proposals| == |sectors|
    ensures Allocate(sectors, pool).proposals[i] == ProposalFor(sectors[i], Allocate(sectors[..i], pool).left)
  {
    var init := sectors[..|sectors| - 1];
    ProposalCount(init, pool);
    if i < |init| {
      AllocateHasPrefixes(init, pool, i);
      assert init[..i] == sectors[..i];
    }
    hide ProposalFor, ShortfallsFor, PoolAfter;
  }

  lemma {:induction false} ProposalCount(sectors: seq<Sector>, pool: seq<Resource>)
    ensures |Allocate(sectors, pool).proposals| == |sectors|
  {
    if sectors != [] {
      ProposalCount(sectors[..|sectors| - 1], pool);
    }
  }

  lemma {:induction false} GrantsHavePrefixes(sectors: seq<Sector>, pool: seq<Resource>, i: nat)
    requires i < |sectors|
    ensures var before := Allocate(sectors[..i], pool).left;
            && Grants(sectors, pool, Boat)[i] == |BoatsFor(sectors[i], before)|
            && Grants(sectors, pool, RescueTeam)[i] == |TeamsFor(sectors[i], before)|
  {
    var init := sectors[..|sectors| - 1];
    if i < |init| {
      GrantsHavePrefixes(init, pool, i);
      assert init[..i] == sectors[..i];
    }
    hide BoatsFor, TeamsFor, Allocate;
  }

  /** Proposal i lists the ids of exactly the boats and then the teams of the pool granted to sector i. */
  lemma GrantsAreReported(sectors: seq<Sector>, pool: seq<Resource>, i: nat)
    requires i < |sectors|
    ensures |Allocate(sectors, pool).proposals| == |sectors|
    ensures var p := Allocate(sectors, pool).proposals[i];
            && p.sector == sectors[i].id
            && exists boats: seq<Resource>, teams: seq<Resource> ::
                 && p.resources == Ids(boats) + Ids(teams)
                 && |boats| == Grants(sectors, pool, Boat)[i] && |teams| == Grants(sectors, pool, RescueTeam)[i]
                 && (forall r :: r in boats ==> r.kind == Boat) && (forall r :: r in teams ==> r.kind == RescueTeam)
                 && multiset(boats) + multiset(teams) <= multiset(pool)
  {
    hide Allocate, Grants, BoatsFor, TeamsFor, Ids;
    AllocateHasPrefixes(sectors, pool, i);
    GrantsHavePrefixes(sectors, pool, i);
    var s, before := sectors[i], Allocate(sectors[..i], pool).left;
    ServedKinds(s, before);
    ServedFromPool(sectors[..i], s, pool);
    assert ProposalFor(s, before).resources == Ids(BoatsFor(s, before)) + Ids(TeamsFor(s, before));
  }

  /** Whatever was served before, a sector is served from the pool. */
  lemma ServedFromPool(before: seq<Sector>, s: Sector, pool: seq<Resource>)
    ensures var left := Allocate(before, pool).left;
            multiset(BoatsFor(s, left)) + multiset(TeamsFor(s, left)) <= multiset(pool)
  {
    hide BoatsFor, TeamsFor, PoolAfter, Allocate, Granted, Count;
    PoolIsConserved(before, pool);
    ServeIsExact(s, Allocate(before, pool).left);
  }

  lemma ServedKinds(s: Sector, pool: seq<Resource>)
    ensures forall r :: r in BoatsFor(s, pool) ==> r.kind == Boat
    ensures forall r :: r in TeamsFor(s, pool) ==> r.kind == RescueTeam
  {
    TakeSplitsPool(pool, Boat, Positive(s.boats));
    TakeSplitsPool(Rest(pool, Boat, Positive(s.boats)), RescueTeam, Positive(s.teams));
    hide Taken, Rest;
  }

  /** All reported resource ids, proposal after proposal. */
  function Reported(proposals: seq<Proposal>): seq<string> {
    if proposals == [] then []
    else Reported(proposals[..|proposals| - 1]) + proposals[|proposals| - 1].resources
  }

  lemma IdsJoin(a: seq<Resource>, b: seq<Resource>)
    ensures Ids(a + b) == Ids(a) + Ids(b)
  {
    hide Ids;
  }

  /** The reported ids are the ids of everything granted, in order. */
  lemma {:induction false} ReportedAreGranted(sectors: seq<Sector>, pool: seq<Resource>)
    ensures Reported(Allocate(sectors, pool).proposals) == Ids(Granted(sectors, pool))
  {
    if sectors != [] {
      var init, s := sectors[..|sectors| - 1], sectors[|sectors| - 1];
      ReportedAreGranted(init, pool);
      var before := Allocate(init, pool);
      var ps := Allocate(sectors, pool).proposals;
      assert ps[..|ps| - 1] == before.proposals;
      IdsJoin(Granted(init, pool), BoatsFor(s, before.left));
      IdsJoin(Granted(init, pool) + BoatsFor(s, before.left), TeamsFor(s, before.left));
      hide BoatsFor, TeamsFor, ShortfallsFor, PoolAfter, Ids, Allocate;
    }
  }

  /** How many resources carry the id. */
  function Uses(rs: seq<Resource>, id: string): nat {
    if rs == [] then 0 else (if rs[0].id == id then 1 else 0) + Uses(rs[1..], id)
  }

  lemma {:induction false} UsesAreOccurrences(rs: seq<Resource>, id: string)
    ensures Uses(rs, id) == multiset(Ids(rs))[id]
  {
    if rs != [] {
      UsesAreOccurrences(rs[1..], id);
      assert Ids(rs) == [rs[0].id] + Ids(rs[1..]);
    }
  }

  lemma {:induction false} UsesJoin(a: seq<Resource>, b: seq<Resource>, id: string)
    ensures Uses(a + b, id) == Uses(a, id) + Uses(b, id)
  {
    if a == [] {
      assert a + b == b;
    } else {
      UsesJoin(a[1..], b, id);
      assert (a + b)[1..] == a[1..] + b;
    }
  }

  lemma {:induction false} TakeSplitsUses(pool: seq<Resource>, kind: Kind, n: nat, id: string)
    ensures Uses(pool, id) == Uses(Taken(pool, kind, n), id) + Uses(Rest(pool, kind, n), id)
  {
    if pool != [] && n > 0 {
      TakeSplitsUses(pool[1..], kind, if pool[0].kind == kind then n - 1 else n, id);
      if pool[0].kind == kind {
        assert Taken(pool, kind, n)[1..] == Taken(pool[1..], kind, n - 1);
      } else {
        assert Rest(pool, kind, n)[1..] == Rest(pool[1..], kind, n);
      }
    }
  }

  /** Granted ids plus left-over ids are exactly the pool's ids. */
  lemma {:induction false} IdsAreConserved(sectors: seq<Sector>, pool: seq<Resource>, id: string)
    ensures Uses(pool, id) == Uses(Granted(sectors, pool), id) + Uses(Allocate(sectors, pool).left, id)
  {
    if sectors != [] {
      hide Taken, Rest, Uses, ShortfallsFor, ProposalFor;
      var init, s := sectors[..|sectors| - 1], sectors[|sectors| - 1];
      IdsAreConserved(init, pool, id);
      var before := Allocate(init, pool).left;
      var boats, teams := BoatsFor(s, before), TeamsFor(s, before);
      TakeSplitsUses(before, Boat, Positive(s.boats), id);
      TakeSplitsUses(Rest(before, Boat, Positive(s.boats)), RescueTeam, Positive(s.teams), id);
      UsesJoin(Granted(init, pool), boats, id);
      UsesJoin(Granted(init, pool) + boats, teams, id);
    }
  }

  ghost predicate AllDifferent(ids: seq<string>) {
    forall i, j :: 0 <= i < j < |ids| ==> ids[i] != ids[j]
  }

  /** Ids are pairwise different exactly when each occurs at most once. */
  lemma {:induction false} DifferentIffOnce(ids: seq<string>)
    ensures AllDifferent(ids) <==> forall id :: multiset(ids)[id] <= 1
  {
    if ids != [] {
      var head, tail := ids[0], ids[1..];
      DifferentIffOnce(tail);
      assert ids == [head] + tail;
      assert head in tail <==> multiset(tail)[head] > 0;
      DifferentCons(head, tail);
      hide AllDifferent;
      forall id ensures multiset(ids)[id] == multiset(tail)[id] + if id == head then 1 else 0 {
      }
    }
  }

  lemma DifferentCons(head: string, tail: seq<string>)
    ensures AllDifferent([head] + tail) <==> AllDifferent(tail) && head !in tail
  {
    var ids := [head] + tail;
    if AllDifferent(ids) {
      forall i, j | 0 <= i < j < |tail| ensures tail[i] != tail[j] {
        assert ids[i + 1] != ids[j + 1];
      }
      forall i | 0 <= i < |tail| ensures tail[i] != head {
        assert ids[0] != ids[i + 1];
      }
    }
  }

  /** No resource is used twice: with different ids in the pool, no id is reported twice, and each is of the pool. */
  lemma NoResourceIsReportedTwice(sectors: seq<Sector>, pool: seq<Resource>)
    requires AllDifferent(Ids(pool))
    ensures AllDifferent(Reported(Allocate(sectors, pool).proposals))
    ensures forall id :: id in Reported(Allocate(sectors, pool).proposals) ==> id in Ids(pool)
  {
    ReportedAreGranted(sectors, pool);
    DifferentIffOnce(Ids(pool));
    var ids := Ids(Granted(sectors, pool));
    DifferentIffOnce(ids);
    hide Ids, Granted, Allocate, AllDifferent, Reported, Uses;
    forall id ensures multiset(ids)[id] <= multiset(Ids(pool))[id] {
      IdsAreConserved(sectors, pool, id);
      UsesAreOccurrences(pool, id);
      UsesAreOccurrences(Granted(sectors, pool), id);
    }
    forall id | id in ids ensures id in Ids(pool) {
      assert id in multiset(ids) && id in multiset(Ids(pool));
    }
  }

  // ---- Reported shortfalls ----------------------------------------------------------------------------

  lemma CountShortJoin(a: seq<Shortfall>, b: seq<Shortfall>, s: Shortfall)
    ensures CountShort(a + b, s) == CountShort(a, s) + CountShort(b, s)
  {
    assert multiset(a + b) == multiset(a) + multiset(b);
  }

  lemma OthersReportNothing(s: Sector, pool: seq<Resource>, short: Shortfall)
    requires short.sector != s.id
    ensures CountShort(ShortfallsFor(s, pool), short) == 0
  {
    var lackBoats, lackTeams := Positive(Positive(s.boats) - |BoatsFor(s, pool)|), Positive(Positive(s.teams) - |TeamsFor(s, pool)|);
    RepeatCounts(Shortfall(s.id, Boat), lackBoats, short);
    RepeatCounts(Shortfall(s.id, RescueTeam), lackTeams, short);
    CountShortJoin(Repeat(Shortfall(s.id, Boat), lackBoats), Repeat(Shortfall(s.id, RescueTeam), lackTeams), short);
    hide BoatsFor, TeamsFor, Repeat, CountShort;
  }

  predicate DistinctSectors(sectors: seq<Sector>) {
    forall i, j :: 0 <= i < j < |sectors| ==> sectors[i].id != sectors[j].id
  }

  lemma {:induction false} StrangersReportNothing(sectors: seq<Sector>, pool: seq<Resource>, short: Shortfall)
    requires forall i :: 0 <= i < |sectors| ==> sectors[i].id != short.sector
    ensures CountShort(Allocate(sectors, pool).unmet, short) == 0
  {
    if sectors != [] {
      var init, s := sectors[..|sectors| - 1], sectors[|sectors| - 1];
      StrangersReportNothing(init, pool, short);
      var before := Allocate(init, pool);
      OthersReportNothing(s, before.left, short);
      CountShortJoin(before.unmet, ShortfallsFor(s, before.left), short);
      hide ShortfallsFor, CountShort;
    }
  }

  /** Over the whole allocation, what sector i was granted of a kind and what is reported missing add up to its need. */
  lemma {:induction false} NeedsAreAccountedFor(sectors: seq<Sector>, pool: seq<Resource>, i: nat, kind: Kind)
    requires DistinctSectors(sectors) && i < |sectors| && (kind == Boat || kind == RescueTeam)
    ensures Grants(sectors, pool, kind)[i] + CountShort(Allocate(sectors, pool).unmet, Shortfall(sectors[i].id, kind))
         == Needs(sectors, kind)[i]
  {
    hide Allocate, Grants, Needs, BoatsFor, TeamsFor, ShortfallsFor, CountShort;
    var init, s := sectors[..|sectors| - 1], sectors[|sectors| - 1];
    var short := Shortfall(sectors[i].id, kind);
    UnmetSnoc(sectors, pool, short);
    GrantsSnoc(sectors, pool, kind);
    var before := Allocate(init, pool).left;
    if i < |init| {
      NeedsAreAccountedFor(init, pool, i, kind);
      OthersReportNothing(s, before, short);
    } else {
      StrangersReportNothing(init, pool, short);
      ServeAccountsForNeed(s, before);
    }
  }

  lemma GrantsSnoc(sectors: seq<Sector>, pool: seq<Resource>, kind: Kind)
    requires sectors != [] && (kind == Boat || kind == RescueTeam)
    ensures var init, s := sectors[..|sectors| - 1], sectors[|sectors| - 1];
            var before := Allocate(init, pool).left;
            && Grants(sectors, pool, kind) == Grants(init, pool, kind) + [if kind == Boat then |BoatsFor(s, before)| else |TeamsFor(s, before)|]
            && Needs(sectors, kind) == Needs(init, kind) + [if kind == Boat then Positive(s.boats) else Positive(s.teams)]
  {
    hide Allocate, BoatsFor, TeamsFor;
  }

  lemma UnmetSnoc(sectors: seq<Sector>, pool: seq<Resource>, short: Shortfall)
    requires sectors != []
    ensures var before, s := Allocate(sectors[..|sectors| - 1], pool), sectors[|sectors| - 1];
            CountShort(Allocate(sectors, pool).unmet, short)
            == CountShort(before.unmet, short) + CountShort(ShortfallsFor(s, before.left), short)
  {
    var before, s := Allocate(sectors[..|sectors| - 1], pool), sectors[|sectors| - 1];
    CountShortJoin(before.unmet, ShortfallsFor(s, before.left), short);
    hide CountShort, ShortfallsFor, ProposalFor;
  }

  /** The reported coverage is the granted share of the need to the nearest hundredth, or 1 without any need. */
  lemma CoverageMeans(s: Sector, granted: nat)
    ensures s.boats + s.teams <= 0 ==> Coverage(s, granted) == 1.0
    ensures s.boats + s.teams > 0 ==>
              var share := granted as real / (s.boats + s.teams) as real;
              Hundredths(Coverage(s, granted)) && share - 0.005 <= Coverage(s, granted) <= share + 0.005
  {
    IntegerIsHundredth(1.0, 100);
    Round2Fixed(1.0);
    hide Round2;
  }

  /**
    The reported coverage reads 1.0 exactly when at least 99.5% of the need was granted, so a sector of
    200 or more can be short and still read as fully covered.
  */
  lemma CoverageReadsFullIff(s: Sector, granted: nat)
    requires s.boats >= 0 && s.teams >= 0 && granted <= s.boats + s.teams
    ensures Coverage(s, granted) == 1.0 <==> 200 * granted >= 199 * (s.boats + s.teams)
  {
    hide Round2;
    var total := s.boats + s.teams;
    if total > 0 {
      var x := granted as real / total as real;
      assert Coverage(s, granted) == Round2(x);
      QuotientTimes(granted as real, total as real);
      hide Coverage;
      ReadsOneIff(x);
      ScaledBound(x, total as real, granted as real);
    } else {
      ReadsOneIff(1.0);
    }
  }

  lemma QuotientTimes(a: real, b: real)
    requires b > 0.0
    ensures (a / b) * b == a && (a <= b ==> a / b <= 1.0)
  {
  }

  lemma ReadsOneIff(x: real)
    requires x <= 1.0
    ensures Round2(x) == 1.0 <==> x >= 0.995
  {
    assert Round2(x) == RoundHalfEven(x * 100.0) as real / 100.0;
  }

  lemma ScaledBound(x: real, total: real, granted: real)
    requires total > 0.0 && x * total == granted
    ensures x >= 0.995 <==> 200.0 * granted >= 199.0 * total
  {
  }

  // ---- The loop ------------------------------------------------------------------------------------

  /** One inner loop: each request for the kind is served from the pool or reported. */
  method Fulfil(s: Sector, kind: Kind, requested: int, pool: seq<Resource>)
    returns (got: seq<string>, unmet: seq<Shortfall>, left: seq<Resource>)
    ensures got == Ids(Taken(pool, kind, Positive(requested)))
    ensures left == Rest(pool, kind, Positive(requested))
    ensures unmet == Repeat(Shortfall(s.id, kind), Positive(Positive(requested) - |got|))
  {
    got, unmet, left := [], [], pool;
    for k := 0 to Positive(requested)
      invariant got == Ids(Taken(pool, kind, k)) && left == Rest(pool, kind, k)
      invariant unmet == Repeat(Shortfall(s.id, kind), |unmet|) && |got| + |unmet| == k
    {
      var i := FirstOf(left, kind);
      TakeOneMore(pool, kind, k);
      TakeFirst(left, kind);
      if i < |left| {
        IdsConcat(Taken(pool, kind, k), left[i]);
        got := got + [left[i].id];
        left := RemoveAt(left, i);
      } else {
        unmet := unmet + [Shortfall(s.id, kind)];
      }
    }
  }

  lemma {:induction false} IdsConcat(rs: seq<Resource>, r: Resource)
    ensures Ids(rs + [r]) == Ids(rs) + [r.id]
  {
  }

  /** The available resources, in their given order. */
  function AvailableOf(resources: seq<Resource>): seq<Resource> {
    if resources == [] then []
    else (if resources[0].isAvailable then [resources[0]] else []) + AvailableOf(resources[1..])
  }

  /** A resource is in the pool as often as it was given, if it is available, and else not at all. */
  lemma {:induction false} PoolIsAvailable(resources: seq<Resource>, r: Resource)
    ensures multiset(AvailableOf(resources))[r] == if r.isAvailable then multiset(resources)[r] else 0
  {
    if resources != [] {
      var head, tail := resources[0], resources[1..];
      PoolIsAvailable(tail, r);
      assert multiset(resources) == multiset{head} + multiset(tail) by {
        assert resources == [head] + tail;
      }
      assert AvailableOf(resources) == (if head.isAvailable then [head] else []) + AvailableOf(tail);
      assert multiset(AvailableOf(resources)) == (if head.isAvailable then multiset{head} else multiset{}) + multiset(AvailableOf(tail));
    }
  }

  /** Of the resources given, granted plus left over are exactly the available ones. */
  lemma AvailableAreConserved(sectors: seq<Sector>, resources: seq<Resource>, r: Resource)
    ensures var sorted, pool := SortByRisk(sectors), AvailableOf(resources);
            multiset(Granted(sorted, pool))[r] + multiset(Allocate(sorted, pool).left)[r]
            == if r.isAvailable then multiset(resources)[r] else 0
  {
    PoolIsAvailable(resources, r);
    hide AvailableOf, SortByRisk, Allocate, Granted;
    PoolIsConserved(SortByRisk(sectors), AvailableOf(resources));
  }

  /** Some available boat or team among the resources has this id. */
  predicate IsAvailableId(resources: seq<Resource>, id: string) {
    exists r :: r in resources && r.isAvailable && r.id == id && (r.kind == Boat || r.kind == RescueTeam)
  }

  lemma ReportedAreAvailable(sectors: seq<Sector>, resources: seq<Resource>)
    ensures forall id :: id in Reported(Allocate(SortByRisk(sectors), AvailableOf(resources)).proposals) ==> IsAvailableId(resources, id)
  {
    hide Reported, Allocate, AvailableOf, SortByRisk, Granted, Ids, IsAvailableId;
    var sorted, pool := SortByRisk(sectors), AvailableOf(resources);
    ReportedAreGranted(sorted, pool);
    GrantedKinds(sorted, pool);
    var granted := Granted(sorted, pool);
    forall id | id in Ids(granted) ensures IsAvailableId(resources, id) {
      var i :| 0 <= i < |granted| && granted[i].id == id;
      GrantedIsAvailable(sectors, resources, granted[i]);
    }
  }

  lemma GrantedIsAvailable(sectors: seq<Sector>, resources: seq<Resource>, r: Resource)
    requires r in Granted(SortByRisk(sectors), AvailableOf(resources)) && (r.kind == Boat || r.kind == RescueTeam)
    ensures IsAvailableId(resources, r.id)
  {
    hide AvailableOf, SortByRisk, Allocate, Granted;
    AvailableAreConserved(sectors, resources, r);
    assert multiset(Granted(SortByRisk(sectors), AvailableOf(resources)))[r] > 0;
    assert r in multiset(resources);
  }

  lemma {:induction false} GrantedKinds(sectors: seq<Sector>, pool: seq<Resource>)
    ensures forall r :: r in Granted(sectors, pool) ==> r.kind == Boat || r.kind == RescueTeam
  {
    if sectors != [] {
      var init, s := sectors[..|sectors| - 1], sectors[|sectors| - 1];
      GrantedKinds(init, pool);
      ServedKinds(s, Allocate(init, pool).left);
      hide BoatsFor, TeamsFor, Allocate;
    }
  }

  /** Sorts by risk, then serves each sector from the shrinking pool. */
  method Optimize(sectors: seq<Sector>, resources: seq<Resource>)
    returns (proposals: seq<Proposal>, unmet: seq<Shortfall>)
    ensures var a := Allocate(SortByRisk(sectors), AvailableOf(resources));
            proposals == a.proposals && unmet == a.unmet
    ensures forall id :: id in Reported(proposals) ==> IsAvailableId(resources, id)
  {
    ReportedAreAvailable(sectors, resources);
    var sorted := SortByRisk(sectors);
    var pool := AvailableOf(resources);
    proposals, unmet := [], [];
    hide SortByRisk, AvailableOf, Taken, Rest, Ids, Repeat, Round2, Reported, IsAvailableId;
    for i := 0 to |sorted|
      invariant Allocation(proposals, unmet, pool) == Allocate(sorted[..i], AvailableOf(resources))
    {
      assert sorted[..i + 1][..i] == sorted[..i];
      var s := sorted[i];
      var boats, noBoats, afterBoats := Fulfil(s, Boat, s.boats, pool);
      var teams, noTeams, left := Fulfil(s, RescueTeam, s.teams, afterBoats);
      var coverage := if s.boats + s.teams > 0
        then Round2((|boats| + |teams|) as real / (s.boats + s.teams) as real) else Round2(1.0);
      assert Proposal(s.id, boats + teams, coverage) == ProposalFor(s, pool);
      assert noBoats + noTeams == ShortfallsFor(s, pool);
      proposals := proposals + [Proposal(s.id, boats + teams, coverage)];
      unmet := unmet + (noBoats + noTeams);
      pool := left;
    }
    assert sorted[..|sorted|] == sorted;
  }

  // ---- The reported allocation -----------------------------------------------------------------------

  lemma {:induction false} AvailableIdsAreAmong(resources: seq<Resource>)
    ensures multiset(Ids(AvailableOf(resources))) <= multiset(Ids(resources))
  {
    if resources != [] {
      var head, tail := resources[0], resources[1..];
      AvailableIdsAreAmong(tail);
      assert resources == [head] + tail;
      IdsJoin([head], tail);
      IdsJoin([head], AvailableOf(tail));
      assert AvailableOf(resources) == (if head.isAvailable then [head] else []) + AvailableOf(tail);
      assert [] + AvailableOf(tail) == AvailableOf(tail);
      hide Ids, AvailableOf;
    }
  }

  lemma {:induction false} InsertKeepsDistinct(sorted: seq<Sector>, s: Sector)
    requires DistinctSectors(sorted) && forall x :: x in sorted ==> x.id != s.id
    ensures DistinctSectors(InsertByRisk(sorted, s))
  {
    if sorted != [] && sorted[0].risk >= s.risk {
      InsertKeepsDistinct(sorted[1..], s);
      var rest := InsertByRisk(sorted[1..], s);
      forall j | 0 <= j < |rest| ensures sorted[0].id != rest[j].id {
        assert rest[j] in rest;
        assert rest[j] in sorted[1..] || rest[j] == s;
      }
    }
  }

  lemma {:induction false} SortKeepsDistinct(sectors: seq<Sector>)
    requires DistinctSectors(sectors)
    ensures DistinctSectors(SortByRisk(sectors)) && forall x :: x in SortByRisk(sectors) <==> x in sectors
  {
    if sectors != [] {
      var init, last := sectors[..|sectors| - 1], sectors[|sectors| - 1];
      SortKeepsDistinct(init);
      InsertKeepsDistinct(SortByRisk(init), last);
      assert sectors == init + [last];
      hide InsertByRisk;
    }
  }

  lemma AvailableIdsDiffer(resources: seq<Resource>)
    requires AllDifferent(Ids(resources))
    ensures AllDifferent(Ids(AvailableOf(resources)))
  {
    hide AllDifferent, AvailableOf, Ids;
    AvailableIdsAreAmong(resources);
    DifferentIffOnce(Ids(resources));
    DifferentIffOnce(Ids(AvailableOf(resources)));
    forall id ensures multiset(Ids(AvailableOf(resources)))[id] <= multiset(Ids(resources))[id] {
    }
  }

  /**
    What `Optimize` reports, for sectors and resources with different ids: no resource is reported twice,
    and in risk order each sector's grants and reported shortfalls of a kind add up to its need.
  */
  lemma ReportIsExact(sectors: seq<Sector>, resources: seq<Resource>)
    requires DistinctSectors(sectors) && AllDifferent(Ids(resources))
    ensures var sorted, pool := SortByRisk(sectors), AvailableOf(resources);
            var a := Allocate(sorted, pool);
            && AllDifferent(Reported(a.proposals))
            && (forall id :: id in Reported(a.proposals) ==> id in Ids(pool))
            && forall i, kind :: 0 <= i < |sorted| && (kind == Boat || kind == RescueTeam) ==>
                 Grants(sorted, pool, kind)[i] + CountShort(a.unmet, Shortfall(sorted[i].id, kind)) == Needs(sorted, kind)[i]
  {
    var sorted, pool := SortByRisk(sectors), AvailableOf(resources);
    SortKeepsDistinct(sectors);
    AvailableIdsDiffer(resources);
    hide SortByRisk, AvailableOf, Allocate, Grants, Needs, CountShort, Ids, Reported, AllDifferent;
    NoResourceIsReportedTwice(sorted, pool);
    forall i, kind | 0 <= i < |sorted| && (kind == Boat || kind == RescueTeam)
      ensures Grants(sorted, pool, kind)[i] + CountShort(Allocate(sorted, pool).unmet, Shortfall(sorted[i].id, kind))
           == Needs(sorted, kind)[i]
    {
      NeedsAreAccountedFor(sorted, pool, i, kind);
    }
  }
}
