/** A routing query: the overlay-effective, policy-filtered network as a weighted multigraph. */
module Queries {
  import opened Basics
  import opened Overlay
  import opened RoadGraph
  import opened Policy
  import opened Paths

  /** Everything that decides which edges count and what they cost. */
  datatype Query = Query(
    network: RoadNetwork,
    overrides: map<RoadId, RoadOverride>,
    policy: RoutingPolicy,
    vehicle: VehicleType,
    mode: RoutingMode)

  function UsableOf(q: Query, es: seq<EdgeData>): (r: seq<EdgeData>)
    ensures forall e :: e in r <==> e in es && Traversable(q.policy, e, q.vehicle)
  {
    if es == [] then []
    else if Traversable(q.policy, es[0], q.vehicle) then [es[0]] + UsableOf(q, es[1..])
    else UsableOf(q, es[1..])
  }

  /** The traversable effective edges from u to v. */
  function Hops(q: Query, u: NodeId, v: NodeId): seq<EdgeData> {
    UsableOf(q, EdgesBetween(q.network.arcs, q.overrides, u, v))
  }

  function Weight(q: Query, e: EdgeData): (w: real)
    ensures w >= 0.0
  {
    EdgeCost(e, q.mode, q.policy)
  }

  function NetOf(q: Query): (net: Net<NodeId, EdgeData>)
    ensures NonNegative(net)
  {
    Net((u, v, e) => e in Hops(q, u, v), e => Weight(q, e))
  }

  /** What a hop and a weight are in that multigraph. */
  lemma NetOfIs(q: Query, u: NodeId, v: NodeId)
    ensures forall e :: NetOf(q).hop(u, v, e) <==> e in Hops(q, u, v)
    ensures forall e :: NetOf(q).weight(e) == Weight(q, e)
  {
  }

  lemma HopsAreEffectiveArcs(q: Query, u: NodeId, v: NodeId, e: EdgeData)
    ensures e in Hops(q, u, v) <==>
            Traversable(q.policy, e, q.vehicle) &&
            exists a :: a in q.network.arcs && a.from == u && a.to == v && e == Effective(q.overrides, a.data)
  {
    EdgesBetweenAreArcs(q.network.arcs, q.overrides, u, v, e);
  }

  /**
    A hop in the map's own terms: an arc between the two nodes whose edge, as the overrides show it, has
    nothing that speaks against it.
  */
  lemma HopsMean(q: Query, u: NodeId, v: NodeId, e: EdgeData)
    ensures e in Hops(q, u, v) <==>
            Admits(q.policy, e, q.vehicle) &&
            exists a :: a in q.network.arcs && a.from == u && a.to == v && Shows(q.overrides, a.data, e)
  {
    HopsAreEffectiveArcs(q, u, v, e);
    TraversableIffAdmitted(q.policy, e, q.vehicle);
    hide Hops, Effective, Shows, Traversable, Admits;
    forall a: Arc ensures e == Effective(q.overrides, a.data) <==> Shows(q.overrides, a.data, e) {
      EffectiveIsShown(q.overrides, a.data, e);
    }
  }

  // ---- Closing roads ---------------------------------------------------------

  /** `after` differs from `before` only by further BLOCKED roads. */
  ghost predicate OnlyCloses(before: map<RoadId, RoadOverride>, after: map<RoadId, RoadOverride>) {
    forall r :: (r in after && after[r].status == Blocked) || Lookup(before, r) == Lookup(after, r)
  }

  lemma ClosedHopsAreHops(q: Query, after: map<RoadId, RoadOverride>, u: NodeId, v: NodeId, e: EdgeData)
    requires OnlyCloses(q.overrides, after) && !q.policy.allowBlocked
    requires e in Hops(q.(overrides := after), u, v)
    ensures e in Hops(q, u, v)
  {
    HopsAreEffectiveArcs(q.(overrides := after), u, v, e);
    var a :| a in q.network.arcs && a.from == u && a.to == v && e == Effective(after, a.data);
    var r := a.data.roadId;
    assert Lookup(q.overrides, r) == Lookup(after, r);
    HopsAreEffectiveArcs(q, u, v, e);
  }

  /**
    Closing roads never helps: what was unreachable stays unreachable, and no path after the
    closures is cheaper than a cost no path undercut before.
  */
  lemma ClosuresNeverHelp(q: Query, after: map<RoadId, RoadOverride>, s: NodeId, t: NodeId)
    requires OnlyCloses(q.overrides, after) && !q.policy.allowBlocked
    ensures Reachable(NetOf(q.(overrides := after)), s, t) ==> Reachable(NetOf(q), s, t)
    ensures forall c :: NoCheaper(NetOf(q), s, t, c) ==> NoCheaper(NetOf(q.(overrides := after)), s, t, c)
  {
    var sub, net := NetOf(q.(overrides := after)), NetOf(q);
    forall u, v, e | sub.hop(u, v, e) ensures net.hop(u, v, e) {
      ClosedHopsAreHops(q, after, u, v, e);
    }
    FewerHopsNeverHelp(sub, net, s, t);
  }
}

/**
  The search loop shared by the Dijkstra and A* solvers. Both keep a heap of tentative scores with
  lazy deletion, a closed set that is never reopened, and parent maps that are followed backwards at
  the end; they differ only in the heuristic added to the heap key (zero for Dijkstra).
*/
module Search {
  import opened Basics
  import opened RoadGraph
  import opened Policy
  import opened Paths
  import opened Queries
  import opened SearchTheory

  // ---- The priority queue ----------------------------------------------------

  /** Heap order: priority, then score, then node id. */
  predicate EntryLeq(a: Entry<NodeId>, b: Entry<NodeId>) {
    a.f < b.f || (a.f == b.f && (a.g < b.g || (a.g == b.g && StrLeq(a.node, b.node))))
  }

  lemma EntryLeqOrder(a: Entry<NodeId>, b: Entry<NodeId>, c: Entry<NodeId>)
    ensures EntryLeq(a, b) || EntryLeq(b, a)
    ensures EntryLeq(a, b) && EntryLeq(b, c) ==> EntryLeq(a, c)
  {
    StrLeqTotal(a.node, b.node);
    if StrLeq(a.node, b.node) && StrLeq(b.node, c.node) {
      StrLeqTransitive(a.node, b.node, c.node);
    }
  }

  /** `heappop`: finds the least entry. */
  method PopMin(queue: multiset<Entry<NodeId>>) returns (least: Entry<NodeId>)
    requires queue != multiset{}
    ensures least in queue && forall e :: e in queue ==> EntryLeq(least, e)
  {
    least :| least in queue;
    EntryLeqOrder(least, least, least);
    var todo := queue - multiset{least};
    while todo != multiset{}
      invariant least in queue && todo <= queue
      invariant forall e :: e in queue && e !in todo ==> EntryLeq(least, e)
      decreases |todo|
    {
      var x :| x in todo;
      EntryLeqOrder(least, x, x);
      if !EntryLeq(least, x) {
        EntryLeqOrder(x, x, x);
        forall e | e in queue && e !in todo ensures EntryLeq(x, e) {
          EntryLeqOrder(x, least, e);
        }
        least := x;
      }
      todo := todo - multiset{x};
    }
  }

  // ---- Successors and the best edge between two nodes --------------------------

  function Insert(s: seq<NodeId>, x: NodeId): (r: seq<NodeId>)
    ensures forall y :: y in r <==> y in s || y == x
  {
    if s == [] then [x]
    else if s[0] == x then s
    else if StrLeq(x, s[0]) then [x] + s
    else [s[0]] + Insert(s[1..], x)
  }

  /** The distinct nodes one arc away from u, in increasing order. */
  function Successors(arcs: seq<Arc>, u: NodeId): (r: seq<NodeId>)
    ensures forall v :: v in r ==> exists a :: a in arcs && a.from == u && a.to == v
  {
    if arcs == [] then []
    else
      var rest := Successors(arcs[1..], u);
      if arcs[0].from == u then
        assert arcs[0] in arcs;
        Insert(rest, arcs[0].to)
      else rest
  }

  ghost predicate Ascending(s: seq<NodeId>) {
    forall i, j :: 0 <= i < j < |s| ==> StrLeq(s[i], s[j]) && s[i] != s[j]
  }

  lemma {:induction false} InsertAscending(s: seq<NodeId>, x: NodeId)
    requires Ascending(s)
    ensures Ascending(Insert(s, x))
  {
    if s != [] && s[0] != x {
      StrLeqTotal(x, s[0]);
      if StrLeq(x, s[0]) {
        forall j | 0 <= j < |s| ensures StrLeq(x, s[j]) && x != s[j] {
          if 0 < j {
            StrLeqTransitive(x, s[0], s[j]);
            if x == s[j] {
              StrLeqAntisymmetric(x, s[0]);
            }
          }
        }
      } else {
        InsertAscending(s[1..], x);
        var r := Insert(s[1..], x);
        assert Insert(s, x) == [s[0]] + r;
        hide Insert, StrLeq;
        forall j | 0 <= j < |r| ensures StrLeq(s[0], r[j]) && s[0] != r[j] {
          if r[j] != x {
            assert r[j] in s[1..];
          }
        }
      }
    }
  }

  lemma {:induction false} StrLeqAntisymmetric(a: string, b: string)
    requires StrLeq(a, b) && StrLeq(b, a)
    ensures a == b
  {
    if a != "" && b != "" {
      StrLeqAntisymmetric(a[1..], b[1..]);
      assert a == [a[0]] + a[1..] && b == [b[0]] + b[1..];
    }
  }

  /** The iteration order is deterministic: strictly increasing. */
  lemma {:induction false} SuccessorsAscending(arcs: seq<Arc>, u: NodeId)
    ensures Ascending(Successors(arcs, u))
  {
    if arcs != [] {
      SuccessorsAscending(arcs[1..], u);
      if arcs[0].from == u {
        InsertAscending(Successors(arcs[1..], u), arcs[0].to);
      }
    }
  }

  lemma {:induction false} HopsLeadToSuccessors(q: Query, u: NodeId, v: NodeId, e: EdgeData)
    requires e in Hops(q, u, v)
    ensures v in Successors(q.network.arcs, u)
  {
    EdgesBetweenAreArcs(q.network.arcs, q.overrides, u, v, e);
    var a :| a in q.network.arcs && a.from == u && a.to == v;
    ArcsAreSuccessors(q.network.arcs, a);
  }

  lemma {:induction false} ArcsAreSuccessors(arcs: seq<Arc>, a: Arc)
    requires a in arcs
    ensures a.to in Successors(arcs, a.from)
  {
    if arcs[0] != a {
      ArcsAreSuccessors(arcs[1..], a);
    }
  }

  /** Cheaper first, then by edge id. */
  predicate EdgeLeq(q: Query, a: EdgeData, b: EdgeData) {
    Weight(q, a) < Weight(q, b) || (Weight(q, a) == Weight(q, b) && StrLeq(a.edgeId, b.edgeId))
  }

  /** The cheapest traversable edge among parallel ones, ties broken by edge id. */
  method BestHop(q: Query, u: NodeId, v: NodeId) returns (best: Option<EdgeData>)
    ensures best.None? <==> Hops(q, u, v) == []
    ensures best.Some? ==> best.value in Hops(q, u, v)
    ensures best.Some? ==> forall e :: e in Hops(q, u, v) ==> EdgeLeq(q, best.value, e)
  {
    var candidates := EdgesBetween(q.network.arcs, q.overrides, u, v);
    best := None;
    for i := 0 to |candidates|
      invariant best.None? ==> forall j :: 0 <= j < i ==> !Traversable(q.policy, candidates[j], q.vehicle)
      invariant best.Some? ==> best.value in candidates && Traversable(q.policy, best.value, q.vehicle)
      invariant best.Some? ==> forall j :: 0 <= j < i && Traversable(q.policy, candidates[j], q.vehicle) ==>
                                             EdgeLeq(q, best.value, candidates[j])
    {
      var e := candidates[i];
      if Traversable(q.policy, e, q.vehicle) {
        StrLeqTotal(e.edgeId, e.edgeId);
        if best.None? {
          best := Some(e);
        } else if !EdgeLeq(q, best.value, e) {
          StrLeqTotal(best.value.edgeId, e.edgeId);
          forall j | 0 <= j < i && Traversable(q.policy, candidates[j], q.vehicle)
            ensures EdgeLeq(q, e, candidates[j])
          {
            if StrLeq(e.edgeId, best.value.edgeId) && StrLeq(best.value.edgeId, candidates[j].edgeId) {
              StrLeqTransitive(e.edgeId, best.value.edgeId, candidates[j].edgeId);
            }
          }
          best := Some(e);
        }
      }
    }
    assert best.Some? ==> best.value in Hops(q, u, v);
    assert Hops(q, u, v) != [] ==> Hops(q, u, v)[0] in Hops(q, u, v);
  }

  // ---- The loop ----------------------------------------------------------------

  /** Every node a search from `source` can ever score. */
  function Universe(q: Query, source: NodeId): set<NodeId> {
    {source} + (set a | a in q.network.arcs :: a.to)
  }

  lemma HopsStayInside(q: Query, source: NodeId, u: NodeId, v: NodeId, e: EdgeData)
    requires e in Hops(q, u, v)
    ensures v in Universe(q, source)
  {
    HopsAreEffectiveArcs(q, u, v, e);
  }

  /** Relaxes every successor of the node u just closed, in order, through its best usable edge. */
  method Expand(q: Query, h: NodeId -> real, source: NodeId, u: NodeId,
                s0: SearchState<NodeId, EdgeData>, ghost t0: Trail<NodeId>)
    returns (s: SearchState<NodeId, EdgeData>, ghost t: Trail<NodeId>)
    requires Inv(NetOf(q), h, source, s0, t0, Some(u))
    requires u in s0.visited && u in t0.closed && u in s0.score && t0.closed[u] == s0.score[u]
    requires s0.score.Keys <= Universe(q, source)
    ensures Inv(NetOf(q), h, source, s, t, None)
    ensures s.visited == s0.visited && t.closed == t0.closed
    ensures ParentsClosed(s0) ==> ParentsClosed(s)
    ensures s.score.Keys <= Universe(q, source)
  {
    hide Rooted, Queued, Linked, Hops, Weight, Successors, Universe;
    s, t := s0, t0;
    var g := s0.score[u];
    var successors := Successors(q.network.arcs, u);
    for i := 0 to |successors|
      invariant Inv(NetOf(q), h, source, s, t, Some(u))
      invariant s.visited == s0.visited && t.closed == t0.closed
      invariant ParentsClosed(s0) ==> ParentsClosed(s)
      invariant s.score.Keys <= Universe(q, source) && u in s.score && s.score[u] == g
      invariant forall v, e {:trigger Relaxed(NetOf(q), s, t, u, v, e)} ::
                  v in successors[..i] && e in Hops(q, u, v) ==> Relaxed(NetOf(q), s, t, u, v, e)
    {
      s, t := RelaxBest(q, h, source, u, successors[i], s, t);
      assert successors[..i + 1] == successors[..i] + [successors[i]];
    }
    assert successors[..|successors|] == successors;
    AllRelaxed(q, s, t, u);
  }

  lemma AllRelaxed(q: Query, s: SearchState<NodeId, EdgeData>, t: Trail<NodeId>, u: NodeId)
    requires Settled(NetOf(q), s, t, Some(u)) && u in t.closed
    requires forall v, e {:trigger Relaxed(NetOf(q), s, t, u, v, e)} ::
               v in Successors(q.network.arcs, u) && e in Hops(q, u, v) ==> Relaxed(NetOf(q), s, t, u, v, e)
    ensures Settled(NetOf(q), s, t, None)
  {
    var net := NetOf(q);
    forall w, v, e | w in s.visited && net.hop(w, v, e) ensures Relaxed(net, s, t, w, v, e) {
      if w == u {
        HopsLeadToSuccessors(q, u, v, e);
      }
    }
  }

  /** Relaxes the best usable edge from u to v, when there is one and it improves v's score. */
  method RelaxBest(q: Query, h: NodeId -> real, source: NodeId, u: NodeId, v: NodeId,
                   s0: SearchState<NodeId, EdgeData>, ghost t0: Trail<NodeId>)
    returns (s: SearchState<NodeId, EdgeData>, ghost t: Trail<NodeId>)
    requires Inv(NetOf(q), h, source, s0, t0, Some(u))
    requires u in s0.visited && u in t0.closed && u in s0.score && t0.closed[u] == s0.score[u]
    requires s0.score.Keys <= Universe(q, source)
    ensures Inv(NetOf(q), h, source, s, t, Some(u))
    ensures s.visited == s0.visited && t.closed == t0.closed
    ensures ParentsClosed(s0) ==> ParentsClosed(s)
    ensures s.score.Keys <= Universe(q, source) && u in s.score && s.score[u] == s0.score[u]
    ensures u in t.closed
    ensures forall w, e {:trigger Relaxed(NetOf(q), s, t, u, w, e)} ::
              Relaxed(NetOf(q), s0, t0, u, w, e) ==> Relaxed(NetOf(q), s, t, u, w, e)
    ensures forall e :: e in Hops(q, u, v) ==> Relaxed(NetOf(q), s, t, u, v, e)
  {
    hide Inv, NetOf, Hops, Weight, Successors, Universe;
    s, t := s0, t0;
    var best := BestHop(q, u, v);
    if best.Some? {
      var e := best.value;
      var tentative := s.score[u] + Weight(q, e);
      NetOfIs(q, u, v);
      if v !in s.score || tentative < s.score[v] {
        HopsStayInside(q, source, u, v, e);
        RelaxKeepsInv(NetOf(q), h, source, s, t, u, v, e, tentative);
        s, t := Relax(s, h, u, v, e, tentative), Stamp(t, v);
      }
    }
  }

  /**
    Runs the loop to the target or to exhaustion. Whatever the heuristic: the result is empty
    exactly when the target is unreachable, and no node closes above the priority of a direct edge. When
    the heuristic is eps-consistent, the target's score is within eps per edge of every path.
  */
  method Explore(q: Query, h: NodeId -> real, source: NodeId, target: NodeId, ghost eps: real)
    returns (s: SearchState<NodeId, EdgeData>, ghost t: Trail<NodeId>)
    requires eps >= 0.0
    ensures Rooted(NetOf(q), source, s, t)
    ensures target in s.score <==> Reachable(NetOf(q), source, target)
    ensures ParentsClosed(s) && DirectBound(NetOf(q), h, source, target, t)
    ensures forall w :: w in s.visited ==> w in t.closed && w in s.score && s.score[w] <= t.closed[w]
    ensures target in s.score && Consistent(NetOf(q), h, eps) ==>
              NearOptimal(NetOf(q), source, target, s.score[target], eps)
  {
    s, t := Start(h, source), StartTrail(source);
    ghost var net := NetOf(q);
    StartIsOk(net, h, source, target, eps);
    hide Inv, Rooted, Queued, Settled, Bounded, Consistent, NetOf, DirectBound, ParentsClosed, Reachable, NearOptimal;
    while s.queue != multiset{}
      invariant Inv(net, h, source, s, t, None) && Directed(net, h, source, target, s, t)
      invariant Consistent(net, h, eps) ==> Bounded(net, source, t, eps)
      invariant s.score.Keys <= Universe(q, source) && target !in s.visited
      decreases Universe(q, source) - s.visited, |s.queue|
    {
      var top := PopMin(s.queue);
      if top.node in s.visited {
        SkipKeepsInv(net, h, source, s, t, top);
        SkipKeepsDirected(net, h, source, target, s, t, top);
        s := s.(queue := s.queue - multiset{top});
        continue;
      }
      CloseKeepsAll(net, h, source, target, s, t, eps, top);
      s := s.(queue := s.queue - multiset{top}, visited := s.visited + {top.node});
      t := Close(t, top.node, top.g);
      if top.node == target {
        TargetClosed(net, h, source, target, s, t, eps);
        ClosedIsScored(net, h, source, s, t, Some(target));
        return;
      }
      ghost var s0, t0 := s, t;
      s, t := Expand(q, h, source, top.node, s, t);
      ExpandKeepsDirected(net, h, source, target, s0, t0, s, t);
    }
    ExhaustedIsUnreachable(net, h, source, target, s, t);
    ClosedIsScored(net, h, source, s, t, None);
    assert Directed(net, h, source, target, s, t);
  }

  /** Follows the parent maps from the target back to the source; no node is visited twice. */
  method Reconstruct(q: Query, source: NodeId, target: NodeId,
                     s: SearchState<NodeId, EdgeData>, ghost t: Trail<NodeId>)
    returns (nodes: seq<NodeId>, edges: seq<EdgeData>)
    requires Rooted(NetOf(q), source, s, t) && target in s.score
    ensures Joins(NetOf(q), source, target, nodes, edges)
    ensures Distinct(nodes)
    ensures ParentsClosed(s) ==> forall i :: 0 <= i < |nodes| - 1 ==> nodes[i] in s.visited
    ensures Cost(NetOf(q), edges) <= s.score[target]
  {
    ghost var net := NetOf(q);
    var current := target;
    nodes, edges := [target], [];
    assert s.score.Keys == t.stamp.Keys;
    hide Rooted, NetOf, IsPath, Earlier;
    while current != source
      invariant current in s.score
      invariant Joins(net, current, target, nodes, edges)
      invariant s.score[current] + Cost(net, edges) <= s.score[target]
      invariant Chain(s, t, nodes)
      invariant ParentsClosed(s) ==> forall i :: 0 <= i < |nodes| - 1 ==> nodes[i] in s.visited
      decreases Earlier(s, t, current)
    {
      ParentHasFewerEarlier(net, source, s, t, current);
      var p, e := s.parent[current], s.via[current];
      ChainCons(s, t, p, nodes);
      PathCons(net, p, current, target, e, nodes, edges);
      CostCons(net, e, edges);
      nodes, edges, current := [p] + nodes, [e] + edges, p;
    }
  }
}
