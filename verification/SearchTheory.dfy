/**
  Invariants of a best-first search with lazy deletion and no reopening, over any weighted
  multigraph and any heuristic, and the lemmas that carry them across each step.
*/
module SearchTheory {
  import opened Basics
  import opened Paths

  /** A heap entry: priority, tentative score, node. */
  datatype Entry<N> = Entry(f: real, g: real, node: N)

  datatype SearchState<N(==), E> = SearchState(
    score: map<N, real>,
    parent: map<N, N>,
    via: map<N, E>,
    visited: set<N>,
    queue: multiset<Entry<N>>)

  /** Proof bookkeeping: the score each node had when closed, and when each score was last lowered. */
  datatype Trail<N(==)> = Trail(closed: map<N, real>, stamp: map<N, nat>, clock: nat)

  /** No queued entry has a smaller priority, or the same priority and a smaller score. */
  ghost predicate Least<N(!new)>(top: Entry<N>, queue: multiset<Entry<N>>) {
    top in queue && forall e :: e in queue ==> top.f < e.f || (top.f == e.f && top.g <= e.g)
  }

  /** Parents come strictly first, by score and then by the time the score was set. */
  ghost predicate Before<N, E>(s: SearchState<N, E>, t: Trail<N>, u: N, v: N)
    requires u in s.score && v in s.score && s.score.Keys == t.stamp.Keys
  {
    s.score[u] < s.score[v] || (s.score[u] == s.score[v] && t.stamp[u] < t.stamp[v])
  }

  /** The parent entry of v is a usable edge that accounts for v's score. */
  ghost predicate Linked<N, E>(net: Net<N, E>, s: SearchState<N, E>, t: Trail<N>, v: N)
    requires s.score.Keys == t.stamp.Keys
  {
    && v in s.score && v in s.parent && v in s.via
    && s.parent[v] in s.score
    && net.hop(s.parent[v], v, s.via[v])
    && s.score[s.parent[v]] + net.weight(s.via[v]) <= s.score[v]
    && Before(s, t, s.parent[v], v)
  }

  /** The parent maps form a forest rooted at the source. */
  ghost predicate Rooted<N(!new), E>(net: Net<N, E>, source: N, s: SearchState<N, E>, t: Trail<N>) {
    && source in s.score && s.score[source] == 0.0
    && s.score.Keys == t.stamp.Keys
    && (forall v :: v in s.score ==> s.score[v] >= 0.0 && t.stamp[v] < t.clock)
    && (forall v :: v in s.parent ==> v != source && v in s.score)
    && (forall v {:trigger Linked(net, s, t, v)} :: v in s.score && v != source ==> Linked(net, s, t, v))
  }

  /** Lazy deletion: stale entries may linger, but every open node's current score is queued. */
  ghost predicate Queued<N(!new), E>(h: N -> real, s: SearchState<N, E>) {
    && (forall e :: e in s.queue ==> e.node in s.score && e.f == e.g + h(e.node) && e.g >= s.score[e.node])
    && (forall v :: v in s.score && v !in s.visited ==> Entry(s.score[v] + h(v), s.score[v], v) in s.queue)
  }

  /** Edge e from the closed node w to v has been relaxed from w's closing score. */
  ghost predicate Relaxed<N, E>(net: Net<N, E>, s: SearchState<N, E>, t: Trail<N>, w: N, v: N, e: E)
    requires w in t.closed
  {
    v in s.score && s.score[v] <= t.closed[w] + net.weight(e)
  }

  /** Every closed node except u has been fully relaxed. */
  ghost predicate Settled<N(!new), E(!new)>(net: Net<N, E>, s: SearchState<N, E>, t: Trail<N>, u: Option<N>) {
    && t.closed.Keys == s.visited
    && (forall w :: w in s.visited ==> w in s.score && s.score[w] <= t.closed[w])
    && (forall w, v, e {:trigger Relaxed(net, s, t, w, v, e)} ::
          w in s.visited && Some(w) != u && net.hop(w, v, e) ==> Relaxed(net, s, t, w, v, e))
  }

  /** Closing scores are within eps per edge of every path. */
  ghost predicate Bounded<N(!new), E(!new)>(net: Net<N, E>, source: N, t: Trail<N>, eps: real) {
    forall w :: w in t.closed ==> NearOptimal(net, source, w, t.closed[w], eps)
  }

  /** The heuristic drops by at most the edge's weight plus eps along any usable edge. */
  ghost predicate Consistent<N(!new), E(!new)>(net: Net<N, E>, h: N -> real, eps: real) {
    forall u, v, e :: net.hop(u, v, e) ==> h(u) <= net.weight(e) + h(v) + eps
  }

  ghost predicate Inv<N(!new), E(!new)>(net: Net<N, E>, h: N -> real, source: N,
                                        s: SearchState<N, E>, t: Trail<N>, u: Option<N>)
  {
    Rooted(net, source, s, t) && Queued(h, s) && Settled(net, s, t, u)
  }

  // ---- Start -----------------------------------------------------------------------

  function Start<N(==), E>(h: N -> real, source: N): SearchState<N, E> {
    SearchState(map[source := 0.0], map[], map[], {}, multiset{Entry(h(source), 0.0, source)})
  }

  ghost function StartTrail<N>(source: N): Trail<N> {
    Trail(map[], map[source := 0], 1)
  }

  // ---- Relaxing an edge --------------------------------------------------------------

  /** Records a cheaper way to v through u. */
  function Relax<N(==), E>(s: SearchState<N, E>, h: N -> real, u: N, v: N, e: E, g: real): SearchState<N, E> {
    s.(score := s.score[v := g],
       parent := s.parent[v := u],
       via := s.via[v := e],
       queue := s.queue + multiset{Entry(g + h(v), g, v)})
  }

  ghost function Stamp<N>(t: Trail<N>, v: N): Trail<N> {
    t.(stamp := t.stamp[v := t.clock], clock := t.clock + 1)
  }

  /** Even when a closed node is relaxed, the strict improvement keeps parents strictly first. */
  lemma RelaxKeepsRooted<N(!new), E(!new)>(net: Net<N, E>, h: N -> real, source: N, s: SearchState<N, E>, t: Trail<N>,
                                           u: N, v: N, e: E, g: real)
    requires NonNegative(net) && Rooted(net, source, s, t)
    requires u in s.score && net.hop(u, v, e) && g == s.score[u] + net.weight(e)
    requires v !in s.score || g < s.score[v]
    ensures Rooted(net, source, Relax(s, h, u, v, e, g), Stamp(t, v))
    ensures u != v
  {
    var s', t' := Relax(s, h, u, v, e, g), Stamp(t, v);
    assert net.weight(e) >= 0.0 && u != v && v != source;
    forall w | w in s'.score && w != source ensures Linked(net, s', t', w) {
      if w != v {
        assert Linked(net, s, t, w);
      }
    }
  }

  /** The heap with one more entry holds what it held and that entry. */
  lemma PushedHolds<N>(queue: multiset<Entry<N>>, added: Entry<N>)
    ensures forall x :: x in queue + multiset{added} <==> x in queue || x == added
  {
  }

  lemma RelaxKeepsQueued<N(!new), E>(h: N -> real, s: SearchState<N, E>, u: N, v: N, e: E, g: real)
    requires Queued(h, s)
    requires v !in s.score || g < s.score[v]
    ensures Queued(h, Relax(s, h, u, v, e, g))
  {
    PushedHolds(s.queue, Entry(g + h(v), g, v));
  }

  lemma RelaxKeepsSettled<N(!new), E(!new)>(net: Net<N, E>, h: N -> real, s: SearchState<N, E>, t: Trail<N>,
                                            u: N, v: N, e: E, g: real)
    requires Settled(net, s, t, Some(u))
    requires v !in s.score || g < s.score[v]
    ensures Settled(net, Relax(s, h, u, v, e, g), Stamp(t, v), Some(u))
  {
    var s', t' := Relax(s, h, u, v, e, g), Stamp(t, v);
    forall w, x, d | w in s'.visited && w != u && net.hop(w, x, d) ensures Relaxed(net, s', t', w, x, d) {
      assert Relaxed(net, s, t, w, x, d);
    }
  }

  /** All of the above for one relaxation from the node u being expanded. */
  lemma RelaxKeepsInv<N(!new), E(!new)>(net: Net<N, E>, h: N -> real, source: N, s: SearchState<N, E>, t: Trail<N>,
                                        u: N, v: N, e: E, g: real)
    requires NonNegative(net) && Inv(net, h, source, s, t, Some(u))
    requires u in s.score && net.hop(u, v, e) && g == s.score[u] + net.weight(e)
    requires v !in s.score || g < s.score[v]
    ensures u != v
    ensures Inv(net, h, source, Relax(s, h, u, v, e, g), Stamp(t, v), Some(u))
  {
    hide Rooted, Queued, Settled, Relax, Stamp;
    RelaxKeepsRooted(net, h, source, s, t, u, v, e, g);
    RelaxKeepsQueued(h, s, u, v, e, g);
    RelaxKeepsSettled(net, h, s, t, u, v, e, g);
  }

  // ---- Popping and closing a node -------------------------------------------------------

  /** The popped entry of an open node carries its current score. */
  lemma PoppedIsCurrent<N(!new), E>(h: N -> real, s: SearchState<N, E>, top: Entry<N>)
    requires Queued(h, s) && Least(top, s.queue) && top.node !in s.visited
    ensures top.node in s.score && top.g == s.score[top.node] && top.f == top.g + h(top.node)
  {
  }

  /** One hop out of the closed region leads to a node whose queued priority accounts for it. */
  lemma FrontierHop<N(!new), E(!new)>(net: Net<N, E>, h: N -> real, s: SearchState<N, E>, t: Trail<N>,
                                      top: Entry<N>, p: N, w: N, e: E)
    requires Queued(h, s) && Settled(net, s, t, None) && Least(top, s.queue)
    requires p in s.visited && w !in s.visited && net.hop(p, w, e)
    ensures top.f <= t.closed[p] + net.weight(e) + h(w)
  {
    assert Relaxed(net, s, t, p, w, e);
    assert Entry(s.score[w] + h(w), s.score[w], w) in s.queue;
  }

  /** No path out of the closed region undercuts the least priority in the heap, up to eps per edge. */
  lemma {:induction false} FrontierBound<N(!new), E(!new)>(
      net: Net<N, E>, h: N -> real, source: N, s: SearchState<N, E>, t: Trail<N>,
      eps: real, top: Entry<N>, w: N, ns: seq<N>, es: seq<E>)
    requires Inv(net, h, source, s, t, None) && Bounded(net, source, t, eps) && eps >= 0.0
    requires Consistent(net, h, eps) && Least(top, s.queue)
    requires Joins(net, source, w, ns, es)
    ensures w in s.visited || top.f <= Padded(net, es, eps) + h(w)
    decreases |es|
  {
    hide Relaxed, Linked;
    if w !in s.visited {
      if es == [] {
        assert Entry(s.score[w] + h(w), s.score[w], w) in s.queue;
      } else {
        var p, e := ns[|ns| - 2], es[|es| - 1];
        PathPrefix(net, source, w, ns, es);
        FrontierBound(net, h, source, s, t, eps, top, p, ns[..|ns| - 1], es[..|es| - 1]);
        if p in s.visited {
          FrontierHop(net, h, s, t, top, p, w, e);
        }
      }
    }
  }

  ghost function Close<N>(t: Trail<N>, u: N, g: real): Trail<N> {
    t.(closed := t.closed[u := g])
  }

  /** Closing the popped node keeps every closing score within eps per edge of optimal. */
  lemma CloseKeepsBounded<N(!new), E(!new)>(net: Net<N, E>, h: N -> real, source: N, s: SearchState<N, E>, t: Trail<N>,
                                            eps: real, top: Entry<N>)
    requires Inv(net, h, source, s, t, None) && Bounded(net, source, t, eps) && eps >= 0.0
    requires Consistent(net, h, eps) && Least(top, s.queue) && top.node !in s.visited
    ensures Bounded(net, source, Close(t, top.node, top.g), eps)
  {
    PoppedIsCurrent(h, s, top);
    forall ns, es | Joins(net, source, top.node, ns, es) ensures top.g <= Padded(net, es, eps) {
      FrontierBound(net, h, source, s, t, eps, top, top.node, ns, es);
    }
  }

  /** Being rooted depends only on scores, parents and stamps. */
  lemma SameTreeIsRooted<N(!new), E>(net: Net<N, E>, source: N, s: SearchState<N, E>, t: Trail<N>,
                                     s': SearchState<N, E>, t': Trail<N>)
    requires Rooted(net, source, s, t)
    requires s'.score == s.score && s'.parent == s.parent && s'.via == s.via
    requires t'.stamp == t.stamp && t'.clock == t.clock
    ensures Rooted(net, source, s', t')
  {
    forall v | v in s'.score && v != source ensures Linked(net, s', t', v) {
      assert Linked(net, s, t, v);
    }
  }

  lemma CloseKeepsSettled<N(!new), E(!new)>(net: Net<N, E>, s: SearchState<N, E>, t: Trail<N>, top: Entry<N>)
    requires Settled(net, s, t, None) && top.node !in s.visited
    requires top.node in s.score && s.score[top.node] == top.g
    ensures var s' := s.(queue := s.queue - multiset{top}, visited := s.visited + {top.node});
            Settled(net, s', Close(t, top.node, top.g), Some(top.node))
  {
    var s', t' := s.(queue := s.queue - multiset{top}, visited := s.visited + {top.node}), Close(t, top.node, top.g);
    forall w, v, e | w in s'.visited && w != top.node && net.hop(w, v, e) ensures Relaxed(net, s', t', w, v, e) {
      assert Relaxed(net, s, t, w, v, e);
    }
  }

  /** An entry of a closed node is not needed in the heap. */
  lemma RemoveKeepsQueued<N(!new), E>(h: N -> real, s: SearchState<N, E>, top: Entry<N>, visited: set<N>)
    requires Queued(h, s) && s.visited <= visited && top.node in visited
    ensures Queued(h, s.(queue := s.queue - multiset{top}, visited := visited))
  {
  }

  lemma CloseKeepsInv<N(!new), E(!new)>(net: Net<N, E>, h: N -> real, source: N, s: SearchState<N, E>, t: Trail<N>,
                                        top: Entry<N>)
    requires Inv(net, h, source, s, t, None) && Least(top, s.queue) && top.node !in s.visited
    ensures var s' := s.(queue := s.queue - multiset{top}, visited := s.visited + {top.node});
            Inv(net, h, source, s', Close(t, top.node, top.g), Some(top.node))
  {
    var s', t' := s.(queue := s.queue - multiset{top}, visited := s.visited + {top.node}), Close(t, top.node, top.g);
    PoppedIsCurrent(h, s, top);
    hide Least, Relaxed, Linked;
    CloseKeepsSettled(net, s, t, top);
    SameTreeIsRooted(net, source, s, t, s', t');
    RemoveKeepsQueued(h, s, top, s.visited + {top.node});
  }

  lemma SkipKeepsSettled<N(!new), E(!new)>(net: Net<N, E>, s: SearchState<N, E>, t: Trail<N>, top: Entry<N>)
    requires Settled(net, s, t, None)
    ensures Settled(net, s.(queue := s.queue - multiset{top}), t, None)
  {
    var s' := s.(queue := s.queue - multiset{top});
    forall w, v, e | w in s'.visited && net.hop(w, v, e) ensures Relaxed(net, s', t, w, v, e) {
      assert Relaxed(net, s, t, w, v, e);
    }
  }

  /** Dropping a stale entry changes nothing that matters. */
  lemma SkipKeepsInv<N(!new), E(!new)>(net: Net<N, E>, h: N -> real, source: N, s: SearchState<N, E>, t: Trail<N>,
                                       top: Entry<N>)
    requires Inv(net, h, source, s, t, None) && top.node in s.visited
    ensures Inv(net, h, source, s.(queue := s.queue - multiset{top}), t, None)
  {
    hide Relaxed, Linked;
    SkipKeepsSettled(net, s, t, top);
    RemoveKeepsQueued(h, s, top, s.visited);
    SameTreeIsRooted(net, source, s, t, s.(queue := s.queue - multiset{top}), t);
  }

  /** An exhausted heap means the closed set is closed under usable edges. */
  lemma {:induction false} ExhaustedClosesPaths<N(!new), E(!new)>(
      net: Net<N, E>, h: N -> real, source: N, s: SearchState<N, E>, t: Trail<N>, w: N, ns: seq<N>, es: seq<E>)
    requires Inv(net, h, source, s, t, None) && s.queue == multiset{}
    requires Joins(net, source, w, ns, es)
    ensures w in s.visited
    decreases |es|
  {
    if es != [] {
      PathPrefix(net, source, w, ns, es);
      ExhaustedClosesPaths(net, h, source, s, t, ns[|ns| - 2], ns[..|ns| - 1], es[..|es| - 1]);
      assert Relaxed(net, s, t, ns[|ns| - 2], w, es[|es| - 1]);
    }
  }

  // ---- What a direct edge rules out ---------------------------------------------------------

  /** Only closed nodes are parents. */
  ghost predicate ParentsClosed<N, E>(s: SearchState<N, E>) {
    forall v :: v in s.parent ==> s.parent[v] in s.visited
  }

  /** No node but the source closes at a priority above that of a direct edge to the target. */
  ghost predicate DirectBound<N(!new), E(!new)>(net: Net<N, E>, h: N -> real, source: N, target: N, t: Trail<N>) {
    forall w, e :: w in t.closed && w != source && net.hop(source, target, e) ==>
      t.closed[w] + h(w) <= net.weight(e) + h(target)
  }

  /** The source closes first, at score zero; then direct edges bound what closes. */
  ghost predicate Directed<N(!new), E(!new)>(net: Net<N, E>, h: N -> real, source: N, target: N,
                                             s: SearchState<N, E>, t: Trail<N>)
  {
    && ParentsClosed(s) && DirectBound(net, h, source, target, t)
    && (source !in s.visited ==> s == Start(h, source) && t.closed == map[])
    && (source in s.visited ==> source in t.closed && t.closed[source] == 0.0)
  }

  lemma CloseKeepsDirected<N(!new), E(!new)>(net: Net<N, E>, h: N -> real, source: N, target: N,
                                             s: SearchState<N, E>, t: Trail<N>, top: Entry<N>)
    requires Inv(net, h, source, s, t, None) && Directed(net, h, source, target, s, t)
    requires Least(top, s.queue) && top.node !in s.visited && target !in s.visited
    ensures var s' := s.(queue := s.queue - multiset{top}, visited := s.visited + {top.node});
            Directed(net, h, source, target, s', Close(t, top.node, top.g)) && source in s'.visited
  {
    PoppedIsCurrent(h, s, top);
    if source in s.visited {
      forall e | net.hop(source, target, e) ensures top.g + h(top.node) <= net.weight(e) + h(target) {
        FrontierHop(net, h, s, t, top, source, target, e);
      }
    }
    hide Rooted, Settled, Least, Queued;
  }

  // ---- Whole steps of the loop ---------------------------------------------------------------

  lemma StartIsOk<N(!new), E(!new)>(net: Net<N, E>, h: N -> real, source: N, target: N, eps: real)
    ensures var s: SearchState<N, E> := Start(h, source);
            && Inv(net, h, source, s, StartTrail(source), None)
            && Directed(net, h, source, target, s, StartTrail(source))
            && Bounded(net, source, StartTrail(source), eps)
  {
  }

  /** A closed node has a score, and it only fell since. */
  lemma ClosedIsScored<N(!new), E(!new)>(net: Net<N, E>, h: N -> real, source: N, s: SearchState<N, E>, t: Trail<N>, u: Option<N>)
    requires Inv(net, h, source, s, t, u)
    ensures Rooted(net, source, s, t) && s.score.Keys == t.stamp.Keys
    ensures forall w :: w in s.visited ==> w in t.closed && w in s.score && s.score[w] <= t.closed[w]
  {
  }

  lemma SkipKeepsDirected<N(!new), E(!new)>(net: Net<N, E>, h: N -> real, source: N, target: N,
                                            s: SearchState<N, E>, t: Trail<N>, top: Entry<N>)
    requires Directed(net, h, source, target, s, t) && top.node in s.visited
    ensures Directed(net, h, source, target, s.(queue := s.queue - multiset{top}), t)
  {
    hide DirectBound;
  }

  /** Closing the popped node keeps everything, and the source is closed from then on. */
  lemma CloseKeepsAll<N(!new), E(!new)>(net: Net<N, E>, h: N -> real, source: N, target: N,
                                        s: SearchState<N, E>, t: Trail<N>, eps: real, top: Entry<N>)
    requires Inv(net, h, source, s, t, None) && Directed(net, h, source, target, s, t) && eps >= 0.0
    requires Consistent(net, h, eps) ==> Bounded(net, source, t, eps)
    requires Least(top, s.queue) && top.node !in s.visited && target !in s.visited
    ensures var s', t' := s.(queue := s.queue - multiset{top}, visited := s.visited + {top.node}), Close(t, top.node, top.g);
            && Inv(net, h, source, s', t', Some(top.node)) && Directed(net, h, source, target, s', t')
            && (Consistent(net, h, eps) ==> Bounded(net, source, t', eps))
            && ParentsClosed(s') && source in s'.visited && top.node in s.score && top.g == s.score[top.node]
  {
    PoppedIsCurrent(h, s, top);
    hide Rooted, Queued, Settled, Least, Consistent, Bounded, DirectBound;
    if Consistent(net, h, eps) {
      CloseKeepsBounded(net, h, source, s, t, eps, top);
    }
    CloseKeepsInv(net, h, source, s, t, top);
    CloseKeepsDirected(net, h, source, target, s, t, top);
  }

  lemma ExpandKeepsDirected<N(!new), E(!new)>(net: Net<N, E>, h: N -> real, source: N, target: N,
                                              s: SearchState<N, E>, t: Trail<N>, s': SearchState<N, E>, t': Trail<N>)
    requires Directed(net, h, source, target, s, t) && source in s.visited
    requires s'.visited == s.visited && t'.closed == t.closed && ParentsClosed(s')
    ensures Directed(net, h, source, target, s', t')
    ensures forall eps :: Bounded(net, source, t, eps) ==> Bounded(net, source, t', eps)
  {
  }

  /** What the closed target's score says. */
  lemma TargetClosed<N(!new), E(!new)>(net: Net<N, E>, h: N -> real, source: N, target: N,
                                       s: SearchState<N, E>, t: Trail<N>, eps: real)
    requires Inv(net, h, source, s, t, Some(target)) && target in s.visited
    requires Consistent(net, h, eps) ==> Bounded(net, source, t, eps)
    ensures target in s.score && Reachable(net, source, target)
    ensures Consistent(net, h, eps) ==> NearOptimal(net, source, target, s.score[target], eps)
  {
    ClosedIsScored(net, h, source, s, t, Some(target));
    ScoredIsReachable(net, source, s, t, target);
    hide Rooted, Queued, Settled, Consistent;
  }

  lemma ExhaustedIsUnreachable<N(!new), E(!new)>(net: Net<N, E>, h: N -> real, source: N, target: N,
                                                 s: SearchState<N, E>, t: Trail<N>)
    requires Inv(net, h, source, s, t, None) && s.queue == multiset{} && target !in s.visited
    ensures target !in s.score && !Reachable(net, source, target)
  {
    forall ns, es | Joins(net, source, target, ns, es) ensures false {
      ExhaustedClosesPaths(net, h, source, s, t, target, ns, es);
    }
    hide Inv;
  }

  /** A search path avoids every interior node whose cheapest path plus heuristic exceeds a direct edge. */
  ghost predicate Focused<N(!new), E(!new)>(net: Net<N, E>, h: N -> real, source: N, target: N, nodes: seq<N>) {
    forall i, e :: 0 < i < |nodes| - 1 && net.hop(source, target, e) ==>
      Within(net, source, nodes[i], net.weight(e) + h(target) - h(nodes[i]))
  }

  lemma ClosedPathIsFocused<N(!new), E(!new)>(net: Net<N, E>, h: N -> real, source: N, target: N,
                                              s: SearchState<N, E>, t: Trail<N>, nodes: seq<N>)
    requires Rooted(net, source, s, t) && DirectBound(net, h, source, target, t)
    requires forall w :: w in s.visited ==> w in t.closed && w in s.score && s.score[w] <= t.closed[w]
    requires nodes != [] && nodes[0] == source && Distinct(nodes)
    requires forall i :: 0 <= i < |nodes| - 1 ==> nodes[i] in s.visited
    ensures Focused(net, h, source, target, nodes)
  {
    forall i, e | 0 < i < |nodes| - 1 && net.hop(source, target, e)
      ensures Within(net, source, nodes[i], net.weight(e) + h(target) - h(nodes[i]))
    {
      ScoredIsReachable(net, source, s, t, nodes[i]);
      WithinMore(net, source, nodes[i], s.score[nodes[i]], net.weight(e) + h(target) - h(nodes[i]));
    }
  }

  lemma WithinMore<N(!new), E(!new)>(net: Net<N, E>, s: N, t: N, c: real, more: real)
    requires Within(net, s, t, c) && c <= more
    ensures Within(net, s, t, more)
  {
  }

  // ---- Following parents back to the source ------------------------------------------------

  ghost predicate Distinct<T>(s: seq<T>) {
    forall i, j :: 0 <= i < j < |s| ==> s[i] != s[j]
  }

  /** The nodes that come strictly before v; a parent always has fewer. */
  ghost function Earlier<N(!new), E>(s: SearchState<N, E>, t: Trail<N>, v: N): set<N>
    requires v in s.score && s.score.Keys == t.stamp.Keys
  {
    set w | w in s.score && Before(s, t, w, v)
  }

  lemma ParentHasFewerEarlier<N(!new), E>(net: Net<N, E>, source: N, s: SearchState<N, E>, t: Trail<N>, v: N)
    requires Rooted(net, source, s, t) && v in s.score && v != source
    ensures Linked(net, s, t, v)
    ensures Earlier(s, t, s.parent[v]) < Earlier(s, t, v)
  {
    assert Linked(net, s, t, v);
    assert s.parent[v] in Earlier(s, t, v) && s.parent[v] !in Earlier(s, t, s.parent[v]);
  }

  /** Every scored node is reached by a path that its score pays for. */
  lemma {:induction false} ScoredIsReachable<N(!new), E(!new)>(net: Net<N, E>, source: N, s: SearchState<N, E>, t: Trail<N>, v: N)
    requires Rooted(net, source, s, t) && v in s.score
    ensures Within(net, source, v, s.score[v])
    decreases Earlier(s, t, v)
  {
    if v == source {
      assert Joins(net, source, v, [v], []) && Cost(net, []) <= s.score[v];
    } else {
      ParentHasFewerEarlier(net, source, s, t, v);
      var p, e := s.parent[v], s.via[v];
      ScoredIsReachable(net, source, s, t, p);
      var ns, es :| Joins(net, source, p, ns, es) && Cost(net, es) <= s.score[p];
      assert Joins(net, source, v, ns + [v], es + [e]);
      assert (es + [e])[..|es|] == es;
    }
  }

  /** Each listed node comes strictly before the next ones. */
  ghost predicate Chain<N, E>(s: SearchState<N, E>, t: Trail<N>, ns: seq<N>)
    requires s.score.Keys == t.stamp.Keys
  {
    && (forall i :: 0 <= i < |ns| ==> ns[i] in s.score)
    && (forall i, j :: 0 <= i < j < |ns| ==> Before(s, t, ns[i], ns[j]))
  }

  lemma ChainCons<N, E>(s: SearchState<N, E>, t: Trail<N>, p: N, ns: seq<N>)
    requires s.score.Keys == t.stamp.Keys && Chain(s, t, ns)
    requires ns != [] && p in s.score && Before(s, t, p, ns[0])
    ensures Chain(s, t, [p] + ns)
  {
  }
}
