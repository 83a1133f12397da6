/** Paths and their costs over any weighted multigraph. */
module Paths {

  /** A multigraph seen through its usable hops; `hop(u, v, e)` says edge e leads from u to v. */
  datatype Net<!N, !E> = Net(hop: (N, N, E) -> bool, weight: E -> real)

  ghost predicate NonNegative<N, E(!new)>(net: Net<N, E>) {
    forall e :: net.weight(e) >= 0.0
  }

  /** Consecutive nodes joined by usable edges. */
  ghost predicate IsPath<N, E>(net: Net<N, E>, ns: seq<N>, es: seq<E>) {
    && |ns| == |es| + 1
    && forall i :: 0 <= i < |es| ==> net.hop(ns[i], ns[i + 1], es[i])
  }

  ghost predicate Joins<N, E>(net: Net<N, E>, s: N, t: N, ns: seq<N>, es: seq<E>) {
    IsPath(net, ns, es) && ns[0] == s && ns[|ns| - 1] == t
  }

  function Cost<N, E>(net: Net<N, E>, es: seq<E>): real {
    if es == [] then 0.0 else Cost(net, es[..|es| - 1]) + net.weight(es[|es| - 1])
  }

  /** Cost with an allowance of eps for each edge. */
  function Padded<N, E>(net: Net<N, E>, es: seq<E>, eps: real): real {
    if es == [] then 0.0 else Padded(net, es[..|es| - 1], eps) + net.weight(es[|es| - 1]) + eps
  }

  lemma {:induction false} PaddedIsCostPlus<N, E>(net: Net<N, E>, es: seq<E>, eps: real)
    ensures Padded(net, es, eps) == Cost(net, es) + eps * |es| as real
  {
    if es != [] {
      var n := |es| - 1;
      PaddedIsCostPlus(net, es[..n], eps);
      assert eps * n as real + eps == eps * (n as real + 1.0);
    }
  }

  lemma {:induction false} CostNonNegative<N, E(!new)>(net: Net<N, E>, es: seq<E>)
    requires NonNegative(net)
    ensures Cost(net, es) >= 0.0
  {
    if es != [] {
      CostNonNegative(net, es[..|es| - 1]);
    }
  }

  /** Cost may also be counted from the front. */
  lemma {:induction false} CostCons<N, E>(net: Net<N, E>, e: E, es: seq<E>)
    ensures Cost(net, [e] + es) == net.weight(e) + Cost(net, es)
  {
    if es == [] {
      assert ([e] + es)[..0] == [];
    } else {
      CostCons(net, e, es[..|es| - 1]);
      assert ([e] + es)[..|es|] == [e] + es[..|es| - 1];
    }
  }

  /** Some usable path leads from s to t. */
  ghost predicate Reachable<N(!new), E(!new)>(net: Net<N, E>, s: N, t: N) {
    exists ns, es :: Joins(net, s, t, ns, es)
  }

  /** Some usable path from s to t costs at most c. */
  ghost predicate Within<N(!new), E(!new)>(net: Net<N, E>, s: N, t: N, c: real) {
    exists ns, es :: Joins(net, s, t, ns, es) && Cost(net, es) <= c
  }

  /** Every usable path from s to t costs at least c. */
  ghost predicate NoCheaper<N(!new), E(!new)>(net: Net<N, E>, s: N, t: N, c: real) {
    forall ns, es :: Joins(net, s, t, ns, es) ==> c <= Cost(net, es)
  }

  /** c is at most the padded cost of every usable path from s to t. */
  ghost predicate NearOptimal<N(!new), E(!new)>(net: Net<N, E>, s: N, t: N, c: real, eps: real) {
    forall ns, es :: Joins(net, s, t, ns, es) ==> c <= Padded(net, es, eps)
  }

  lemma {:induction false} PaddedAtLeastCost<N, E>(net: Net<N, E>, es: seq<E>, eps: real)
    requires eps >= 0.0
    ensures Cost(net, es) <= Padded(net, es, eps)
    ensures eps == 0.0 ==> Cost(net, es) == Padded(net, es, eps)
  {
    if es != [] {
      PaddedAtLeastCost(net, es[..|es| - 1], eps);
    }
  }

  /** Without slack, near-optimal is optimal; and optimal is near-optimal with any slack. */
  lemma SlackAndOptimality<N(!new), E(!new)>(net: Net<N, E>, s: N, t: N, c: real, eps: real)
    requires eps >= 0.0
    ensures NearOptimal(net, s, t, c, 0.0) ==> NoCheaper(net, s, t, c)
    ensures NoCheaper(net, s, t, c) ==> NearOptimal(net, s, t, c, eps)
  {
    forall ns, es | Joins(net, s, t, ns, es)
      ensures Cost(net, es) == Padded(net, es, 0.0) && Cost(net, es) <= Padded(net, es, eps)
    {
      PaddedAtLeastCost(net, es, 0.0);
      PaddedAtLeastCost(net, es, eps);
    }
  }

  /** Dropping the last hop of a non-trivial path. */
  lemma PathPrefix<N, E>(net: Net<N, E>, s: N, t: N, ns: seq<N>, es: seq<E>)
    requires Joins(net, s, t, ns, es) && es != []
    ensures Joins(net, s, ns[|ns| - 2], ns[..|ns| - 1], es[..|es| - 1])
    ensures net.hop(ns[|ns| - 2], t, es[|es| - 1])
  {
  }

  /** Putting a hop in front of a path. */
  lemma PathCons<N, E>(net: Net<N, E>, u: N, v: N, t: N, e: E, ns: seq<N>, es: seq<E>)
    requires Joins(net, v, t, ns, es) && net.hop(u, v, e)
    ensures Joins(net, u, t, [u] + ns, [e] + es)
  {
  }

  lemma WithinHere<N(!new), E(!new)>(net: Net<N, E>, t: N)
    ensures Within(net, t, t, 0.0)
  {
    assert Joins(net, t, t, [t], []) && Cost(net, []) == 0.0;
  }

  /** One more hop in front. */
  lemma WithinCons<N(!new), E(!new)>(net: Net<N, E>, u: N, v: N, t: N, e: E, c: real)
    requires Within(net, v, t, c) && net.hop(u, v, e)
    ensures Within(net, u, t, net.weight(e) + c)
  {
    var ns, es :| Joins(net, v, t, ns, es) && Cost(net, es) <= c;
    PathCons(net, u, v, t, e, ns, es);
    CostCons(net, e, es);
  }

  lemma WithinIsReachable<N(!new), E(!new)>(net: Net<N, E>, s: N, t: N, c: real)
    requires Within(net, s, t, c)
    ensures Reachable(net, s, t)
  {
  }

  /** A bound no path undercuts is below every cost some path meets. */
  lemma NoCheaperThanWithin<N(!new), E(!new)>(net: Net<N, E>, s: N, t: N, c: real, d: real)
    requires Within(net, s, t, c) && NoCheaper(net, s, t, d)
    ensures d <= c
  {
  }

  // ---- Parts of paths -----------------------------------------------------------------------

  lemma {:induction false} CostJoin<N, E>(net: Net<N, E>, a: seq<E>, b: seq<E>)
    ensures Cost(net, a + b) == Cost(net, a) + Cost(net, b)
  {
    if b == [] {
      assert a + b == a;
    } else {
      CostJoin(net, a, b[..|b| - 1]);
      assert (a + b)[..|a + b| - 1] == a + b[..|b| - 1];
    }
  }

  /** Two paths that meet form one. */
  lemma JoinPaths<N, E>(net: Net<N, E>, s: N, m: N, t: N, ns: seq<N>, es: seq<E>, ms: seq<N>, fs: seq<E>)
    requires Joins(net, s, m, ns, es) && Joins(net, m, t, ms, fs)
    ensures Joins(net, s, t, ns + ms[1..], es + fs)
  {
    var xs, gs := ns + ms[1..], es + fs;
    forall i | 0 <= i < |gs| ensures net.hop(xs[i], xs[i + 1], gs[i]) {
      if i >= |es| {
        var k := i - |es|;
        assert xs[i] == ms[k] && xs[i + 1] == ms[k + 1] && gs[i] == fs[k];
      }
    }
  }

  lemma PathParts<N, E>(net: Net<N, E>, s: N, t: N, ns: seq<N>, es: seq<E>, i: nat)
    requires Joins(net, s, t, ns, es) && i <= |es|
    ensures Joins(net, s, ns[i], ns[..i + 1], es[..i]) && Joins(net, ns[i], t, ns[i..], es[i..])
  {
  }

  /** Replacing one edge of a path by another way between its nodes. */
  lemma DetourPath<N, E>(net: Net<N, E>, s: N, t: N, ns: seq<N>, es: seq<E>, i: nat, ms: seq<N>, fs: seq<E>)
    returns (xs: seq<N>, gs: seq<E>)
    requires Joins(net, s, t, ns, es) && i < |es| && Joins(net, ns[i], ns[i + 1], ms, fs)
    ensures Joins(net, s, t, xs, gs) && Cost(net, gs) == Cost(net, es) - net.weight(es[i]) + Cost(net, fs)
  {
    PathParts(net, s, t, ns, es, i);
    PathParts(net, s, t, ns, es, i + 1);
    var before, after := es[..i], es[i + 1..];
    assert es == before + ([es[i]] + after);
    CostJoin(net, before, [es[i]] + after);
    CostCons(net, es[i], after);
    JoinPaths(net, ns[i], ns[i + 1], t, ms, fs, ns[i + 1..], after);
    var rest := ms + ns[i + 1..][1..];
    JoinPaths(net, s, ns[i], t, ns[..i + 1], before, rest, fs + after);
    CostJoin(net, fs, after);
    CostJoin(net, before, fs + after);
    hide Joins, Cost;
    xs, gs := ns[..i + 1] + rest[1..], before + (fs + after);
  }

  /** On a cheapest path every edge is itself a cheapest way between its two nodes. */
  lemma EdgesOfCheapestAreCheapest<N(!new), E(!new)>(net: Net<N, E>, s: N, t: N, ns: seq<N>, es: seq<E>, i: nat)
    requires Joins(net, s, t, ns, es) && NoCheaper(net, s, t, Cost(net, es)) && i < |es|
    ensures NoCheaper(net, ns[i], ns[i + 1], net.weight(es[i]))
  {
    var u, v := ns[i], ns[i + 1];
    forall ms, fs | Joins(net, u, v, ms, fs) ensures net.weight(es[i]) <= Cost(net, fs) {
      var xs, gs := DetourPath(net, s, t, ns, es, i, ms, fs);
    }
  }

  /** `sub` has only hops of `net`, at the same weights. */
  ghost predicate SubNet<N(!new), E(!new)>(sub: Net<N, E>, net: Net<N, E>) {
    && (forall u, v, e :: sub.hop(u, v, e) ==> net.hop(u, v, e))
    && (forall e :: sub.weight(e) == net.weight(e))
  }

  lemma {:induction false} SameWeightsSameCost<N(!new), E(!new)>(sub: Net<N, E>, net: Net<N, E>, es: seq<E>)
    requires SubNet(sub, net)
    ensures Cost(sub, es) == Cost(net, es)
  {
    if es != [] {
      SameWeightsSameCost(sub, net, es[..|es| - 1]);
    }
  }

  /** Losing edges never helps: no new path, and no cheaper one. */
  lemma FewerHopsNeverHelp<N(!new), E(!new)>(sub: Net<N, E>, net: Net<N, E>, s: N, t: N)
    requires SubNet(sub, net)
    ensures Reachable(sub, s, t) ==> Reachable(net, s, t)
    ensures forall c :: NoCheaper(net, s, t, c) ==> NoCheaper(sub, s, t, c)
  {
    forall ns, es | Joins(sub, s, t, ns, es)
      ensures Joins(net, s, t, ns, es) && Cost(net, es) == Cost(sub, es)
    {
      SameWeightsSameCost(sub, net, es);
    }
  }
}
