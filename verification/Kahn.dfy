/** The state shared by the two Kahn-style loops and the lemmas that carry it
    from one loop step to the next. Nothing here depends on the queue discipline. */
module Kahn {
  import opened Graphs

  /** Number of edges into v whose source has not been taken yet. */
  ghost function Pending(edges: seq<Edge>, done: set<Id>, v: Id): nat {
    if edges == [] then 0
    else
      var n := |edges| - 1;
      Pending(edges[..n], done, v) + if edges[n].target == v && edges[n].source !in done then 1 else 0
  }

  /** Targets of the edges that leave u, in edge order, one entry per edge. */
  ghost function Targets(edges: seq<Edge>, u: Id): seq<Id> {
    if edges == [] then []
    else
      var n := |edges| - 1;
      Targets(edges[..n], u) + if edges[n].source == u then [edges[n].target] else []
  }

  ghost function Occurrences(s: seq<Id>, v: Id): nat {
    if s == [] then 0 else (if s[0] == v then 1 else 0) + Occurrences(s[1..], v)
  }

  lemma {:induction false} OccurrencesAppend(s: seq<Id>, x: Id, v: Id)
    ensures Occurrences(s + [x], v) == Occurrences(s, v) + if x == v then 1 else 0
  {
    if s == [] {
    } else {
      OccurrencesAppend(s[1..], x, v);
      assert (s + [x])[1..] == s[1..] + [x];
    }
  }

  /** Every edge into v has its source in done. */
  ghost predicate SettledBy(edges: seq<Edge>, done: set<Id>, v: Id) {
    forall e :: e in edges && e.target == v ==> e.source in done
  }

  ghost predicate TargetsKnown(edges: seq<Edge>, nodes: set<Id>) {
    forall e :: e in edges ==> e.target in nodes
  }

  /** Some edge starts outside the node set, so its target can never be released. */
  ghost predicate HasForeignSource(edges: seq<Edge>, nodes: set<Id>) {
    exists e :: e in edges && e.source !in nodes
  }

  /** order: nodes taken so far; rest: targets of the last taken node still to be decremented. */
  ghost predicate Progress(nodes: set<Id>, edges: seq<Edge>, order: seq<Id>,
                           indegree: map<Id, int>, queue: seq<Id>, rest: seq<Id>) {
    && indegree.Keys == nodes
    && Distinct(order) && Distinct(queue)
    && (forall v :: v in order ==> v in nodes)
    && (forall v :: v in queue ==> v in nodes && v !in order)
    && (forall v :: v in rest ==> v in nodes)
    && (forall v :: v in nodes ==> indegree[v] == Pending(edges, Elements(order), v) + Occurrences(rest, v))
    && (forall v :: v in nodes ==> (indegree[v] == 0 <==> v in queue || v in order))
    && IsTopological(edges, order)
  }

  lemma {:induction false} PendingZero(edges: seq<Edge>, done: set<Id>, v: Id)
    ensures Pending(edges, done, v) == 0 <==> SettledBy(edges, done, v)
  {
    if edges == [] {
    } else {
      var n := |edges| - 1;
      PendingZero(edges[..n], done, v);
      assert edges == edges[..n] + [edges[n]];
    }
  }

  lemma {:induction false} PendingSplits(edges: seq<Edge>, done: set<Id>, u: Id, v: Id)
    requires u !in done
    ensures Pending(edges, done, v) == Pending(edges, done + {u}, v) + Occurrences(Targets(edges, u), v)
  {
    if edges == [] {
    } else {
      var n := |edges| - 1;
      PendingSplits(edges[..n], done, u, v);
      OccurrencesAppend(Targets(edges[..n], u), edges[n].target, v);
      assert Targets(edges[..n], u) + [] == Targets(edges[..n], u);
    }
  }

  lemma {:induction false} TargetsAreTargets(edges: seq<Edge>, u: Id)
    ensures forall t :: t in Targets(edges, u) <==> Edge(u, t) in edges
  {
    if edges == [] {
    } else {
      var n := |edges| - 1;
      TargetsAreTargets(edges[..n], u);
      assert edges == edges[..n] + [edges[n]];
    }
  }

  /** Taking a node out of the queue, wherever it stood. */
  lemma {:induction false} TakeKeepsProgress(nodes: set<Id>, edges: seq<Edge>, order: seq<Id>,
                            indegree: map<Id, int>, queue: seq<Id>, node: Id, remaining: seq<Id>)
    requires TargetsKnown(edges, nodes)
    requires Progress(nodes, edges, order, indegree, queue, [])
    requires node in queue && node !in remaining && Distinct(remaining)
    requires forall v :: v in queue <==> v == node || v in remaining
    ensures Progress(nodes, edges, order + [node], indegree, remaining, Targets(edges, node))
  {
    var taken := order + [node];
    assert Elements(taken) == Elements(order) + {node};
    TargetsAreTargets(edges, node);
    forall v | v in nodes
      ensures indegree[v] == Pending(edges, Elements(taken), v) + Occurrences(Targets(edges, node), v)
    {
      PendingSplits(edges, Elements(order), node, v);
    }
    PendingZero(edges, Elements(order), node);
    forall k, u | 0 <= k < |taken| && Edge(u, taken[k]) in edges
      ensures u in taken[..k]
    {
      if k == |order| {
        assert u in Elements(order);
        assert taken[..k] == order;
      } else {
        assert taken[..k] == order[..k];
      }
    }
  }

  /** One decrement of the inner loop, with the target released when it reaches zero. */
  lemma {:induction false} DecrementKeepsProgress(nodes: set<Id>, edges: seq<Edge>, order: seq<Id>,
                                 indegree: map<Id, int>, queue: seq<Id>, rest: seq<Id>)
    requires Progress(nodes, edges, order, indegree, queue, rest) && rest != []
    ensures rest[0] in indegree
    ensures var lowered := indegree[rest[0] := indegree[rest[0]] - 1];
            var released := if lowered[rest[0]] == 0 then queue + [rest[0]] else queue;
            Progress(nodes, edges, order, lowered, released, rest[1..])
  {
    var t := rest[0];
    assert t in nodes && indegree[t] > 0;
    assert t !in queue && t !in order;
    var lowered := indegree[t := indegree[t] - 1];
    forall v | v in nodes
      ensures lowered[v] == Pending(edges, Elements(order), v) + Occurrences(rest[1..], v)
    {
    }
  }

  /** When the queue is empty, all nodes were taken exactly when nothing could block one. */
  lemma {:induction false} EmptyQueueDecides(nodes: set<Id>, edges: seq<Edge>, order: seq<Id>, indegree: map<Id, int>)
    requires TargetsKnown(edges, nodes)
    requires Progress(nodes, edges, order, indegree, [], [])
    ensures |order| <= |nodes|
    ensures |order| == |nodes| <==> !HasCycle(edges) && !HasForeignSource(edges, nodes)
  {
    DistinctSize(order);
    SubsetSize(Elements(order), nodes);
    if |order| == |nodes| {
      OrderMeansAcyclic(edges, order);
      forall e | e in edges ensures e.source in nodes {
        assert e.target in Elements(order);
        PendingZero(edges, Elements(order), e.target);
      }
    } else if !HasForeignSource(edges, nodes) {
      var stalled := nodes - Elements(order);
      forall v | v in stalled ensures HasPredecessorIn(edges, stalled, v) {
        PendingZero(edges, Elements(order), v);
        assert !SettledBy(edges, Elements(order), v);
        var e :| e in edges && e.target == v && e.source !in Elements(order);
        assert Edge(e.source, v) == e;
        assert e.source in stalled;
      }
      assert Elements(order) != nodes;
      var left :| left in nodes && left !in Elements(order);
      assert left in stalled;
      StalledMeansCycle(edges, stalled);
    }
  }

  /** Before any node is taken, in-degrees are plain edge counts. */
  lemma {:induction false} StartsInProgress(nodes: set<Id>, edges: seq<Edge>, indegree: map<Id, int>, queue: seq<Id>)
    requires indegree.Keys == nodes
    requires forall v :: v in nodes ==> indegree[v] == Pending(edges, {}, v)
    requires Distinct(queue) && forall v :: v in queue <==> v in nodes && indegree[v] == 0
    ensures Progress(nodes, edges, [], indegree, queue, [])
  {
    assert Elements<Id>([]) == {};
  }

  /** The list [n for n, degree in indegree.items() if degree == 0], in an arbitrary order. */
  method ZeroDegrees(indegree: map<Id, int>) returns (queue: seq<Id>)
    ensures Distinct(queue)
    ensures forall v :: v in queue <==> v in indegree && indegree[v] == 0
  {
    var todo := indegree.Keys;
    queue := [];
    while todo != {}
      invariant todo <= indegree.Keys
      invariant Distinct(queue)
      invariant forall v :: v in queue <==> v in indegree.Keys - todo && indegree[v] == 0
      decreases todo
    {
      var v :| v in todo;
      todo := todo - {v};
      if indegree[v] == 0 {
        queue := queue + [v];
      }
    }
  }

  /** The inner loop of both sorts: one decrement per edge out of the node just taken. */
  method Release(ghost nodes: set<Id>, ghost edges: seq<Edge>, ghost order: seq<Id>,
                 indegree: map<Id, int>, queue: seq<Id>, targets: seq<Id>)
    returns (lowered: map<Id, int>, released: seq<Id>)
    requires Progress(nodes, edges, order, indegree, queue, targets)
    ensures Progress(nodes, edges, order, lowered, released, [])
  {
    lowered, released := indegree, queue;
    ghost var rest := targets;
    for t := 0 to |targets|
      invariant rest == targets[t..]
      invariant Progress(nodes, edges, order, lowered, released, rest)
    {
      DecrementKeepsProgress(nodes, edges, order, lowered, released, rest);
      var next := targets[t];
      lowered := lowered[next := lowered[next] - 1];
      if lowered[next] == 0 {
        released := released + [next];
      }
      rest := rest[1..];
    }
    assert rest == [];
  }
}
