/** Validation of a proposed plan: the breadth-first cycle check. */
module Planner {
  import opened Graphs
  import opened Kahn

  /** The parts of a planned work item that bind its execution; evidence requirements by their number. */
  datatype Spec = Spec(key: Id, dependsOn: seq<Id>, requirements: nat)

  datatype Verdict = Accepted | UnknownDependency(name: Id) | Cyclic

  function Keys(specs: seq<Spec>): set<Id> {
    set s | s in specs :: s.key
  }

  /** One edge per listed dependency, in listing order; repetitions are kept. */
  function ItemEdges(key: Id, dependsOn: seq<Id>): (r: seq<Edge>)
    ensures |r| == |dependsOn|
  {
    seq(|dependsOn|, i requires 0 <= i < |dependsOn| => Edge(dependsOn[i], key))
  }

  function PlanEdges(specs: seq<Spec>): seq<Edge> {
    if specs == [] then []
    else
      var n := |specs| - 1;
      PlanEdges(specs[..n]) + ItemEdges(specs[n].key, specs[n].dependsOn)
  }

  /** The edges run from every listed dependency to the item that lists it. */
  lemma {:induction false} PlanEdgesAre(specs: seq<Spec>)
    ensures forall e :: e in PlanEdges(specs) <==>
              exists s :: s in specs && e.target == s.key && e.source in s.dependsOn
  {
    if specs == [] {
    } else {
      var n := |specs| - 1;
      PlanEdgesAre(specs[..n]);
      assert specs == specs[..n] + [specs[n]];
      var last := ItemEdges(specs[n].key, specs[n].dependsOn);
      forall e
        ensures e in last <==> e.target == specs[n].key && e.source in specs[n].dependsOn
      {
        if e.target == specs[n].key && e.source in specs[n].dependsOn {
          var d :| 0 <= d < |specs[n].dependsOn| && specs[n].dependsOn[d] == e.source;
          assert last[d] == e;
        }
      }
    }
  }

  /** The i-th edge is the first one whose source is not a planned key. */
  ghost predicate FirstUnknown(specs: seq<Spec>, i: nat) {
    && i < |PlanEdges(specs)|
    && PlanEdges(specs)[i].source !in Keys(specs)
    && forall j :: 0 <= j < i ==> PlanEdges(specs)[j].source in Keys(specs)
  }

  ghost predicate AllKnown(specs: seq<Spec>) {
    forall e :: e in PlanEdges(specs) ==> e.source in Keys(specs)
  }

  /** The edges of the n-th item follow those of the earlier items. */
  lemma {:induction false} PlanEdgesAt(specs: seq<Spec>, n: nat)
    requires n < |specs|
    ensures |PlanEdges(specs[..n + 1])| == |PlanEdges(specs[..n])| + |specs[n].dependsOn| <= |PlanEdges(specs)|
    ensures forall d :: 0 <= d < |specs[n].dependsOn| ==>
              PlanEdges(specs)[|PlanEdges(specs[..n])| + d] == Edge(specs[n].dependsOn[d], specs[n].key)
    decreases |specs|
  {
    var m := |specs| - 1;
    assert specs[..n + 1][..n] == specs[..n];
    if n == m {
      assert specs[..n + 1] == specs;
    } else {
      assert specs[..m][..n + 1] == specs[..n + 1] && specs[..m][..n] == specs[..n];
      PlanEdgesAt(specs[..m], n);
    }
  }

  lemma {:induction false} PlanEdgesTargetKeys(specs: seq<Spec>)
    ensures forall e :: e in PlanEdges(specs) ==> e.target in Keys(specs)
  {
    if specs == [] {
    } else {
      var n := |specs| - 1;
      PlanEdgesTargetKeys(specs[..n]);
      assert specs == specs[..n] + [specs[n]];
      assert specs[n].key in Keys(specs);
      assert forall s :: s in specs[..n] ==> s in specs;
    }
  }

  /** Lookup in an adjacency table whose missing entries are empty lists. */
  function Successors(graph: map<Id, seq<Id>>, u: Id): seq<Id> {
    if u in graph then graph[u] else []
  }

  /** The in-degrees and adjacency lists after reading the given edges. */
  ghost predicate Tabulated(keys: set<Id>, edges: seq<Edge>, graph: map<Id, seq<Id>>, indegree: map<Id, int>) {
    && indegree.Keys == keys
    && (forall v {:trigger Pending(edges, {}, v)} :: v in keys ==> indegree[v] == Pending(edges, {}, v))
    && (forall u {:trigger Targets(edges, u)} :: Targets(edges, u) == Successors(graph, u))
  }

  /** The first dependencies are known and in the tables. */
  ghost predicate ReadUpTo(keys: set<Id>, edges: seq<Edge>, read: nat, graph: map<Id, seq<Id>>,
                           indegree: map<Id, int>) {
    && read <= |edges|
    && (forall j :: 0 <= j < read ==> edges[j].source in keys)
    && Tabulated(keys, edges[..read], graph, indegree)
  }

  lemma {:induction false} TabulateNext(keys: set<Id>, edges: seq<Edge>, read: nat, graph: map<Id, seq<Id>>,
                                        indegree: map<Id, int>, u: Id, v: Id)
    requires read < |edges| && edges[read] == Edge(u, v) && v in keys
    requires Tabulated(keys, edges[..read], graph, indegree)
    ensures Tabulated(keys, edges[..read + 1], graph[u := Successors(graph, u) + [v]], indegree[v := indegree[v] + 1])
  {
    var more := edges[..read + 1];
    assert more[..read] == edges[..read] && more[read] == edges[read];
    assert forall u :: Targets(more, u) ==
             Targets(edges[..read], u) + if edges[read].source == u then [edges[read].target] else [];
    assert forall v :: Pending(more, {}, v) == Pending(edges[..read], {}, v) + if edges[read].target == v then 1 else 0;
  }

  lemma {:induction false} ReadNext(keys: set<Id>, edges: seq<Edge>, read: nat, graph: map<Id, seq<Id>>,
                                    indegree: map<Id, int>, u: Id, v: Id)
    requires read < |edges| && edges[read] == Edge(u, v) && u in keys && v in keys
    requires ReadUpTo(keys, edges, read, graph, indegree)
    ensures ReadUpTo(keys, edges, read + 1, graph[u := Successors(graph, u) + [v]], indegree[v := indegree[v] + 1])
  {
    TabulateNext(keys, edges, read, graph, indegree, u, v);
  }

  /** The reading half: in-degrees and adjacency lists, or the first unknown dependency. */
  method ReadDependencies(specs: seq<Spec>, keys: set<Id>)
    returns (unknown: Verdict, graph: map<Id, seq<Id>>, indegree: map<Id, int>)
    requires keys == Keys(specs)
    ensures unknown == Accepted || unknown.UnknownDependency?
    ensures unknown == Accepted ==> AllKnown(specs) && Tabulated(keys, PlanEdges(specs), graph, indegree)
    ensures unknown.UnknownDependency? ==>
              exists i: nat :: FirstUnknown(specs, i) && unknown.name == PlanEdges(specs)[i].source
  {
    graph, indegree := map[], map k | k in keys :: 0;
    ghost var all := PlanEdges(specs);
    ghost var read := 0;
    for n := 0 to |specs|
      invariant read == |PlanEdges(specs[..n])|
      invariant ReadUpTo(keys, all, read, graph, indegree)
    {
      var spec := specs[n];
      PlanEdgesAt(specs, n);
      ghost var base := read;
      for d := 0 to |spec.dependsOn|
        invariant read == base + d
        invariant ReadUpTo(keys, all, read, graph, indegree)
      {
        var dep := spec.dependsOn[d];
        assert all[read] == Edge(dep, spec.key);
        if dep !in keys {
          assert FirstUnknown(specs, read);
          return UnknownDependency(dep), graph, indegree;
        }
        ReadNext(keys, all, read, graph, indegree, dep, spec.key);
        graph := graph[dep := Successors(graph, dep) + [spec.key]];
        indegree := indegree[spec.key := indegree[spec.key] + 1];
        read := read + 1;
      }
    }
    assert specs[..|specs|] == specs && all[..read] == all;
    unknown := Accepted;
  }

  /** First-in first-out topological sort over the listed dependencies. */
  method ValidateAcyclic(specs: seq<Spec>) returns (verdict: Verdict)
    ensures verdict == Accepted <==> AllKnown(specs) && !HasCycle(PlanEdges(specs))
    ensures verdict == Cyclic <==> AllKnown(specs) && HasCycle(PlanEdges(specs))
    ensures verdict.UnknownDependency? ==>
              exists i: nat :: FirstUnknown(specs, i) && verdict.name == PlanEdges(specs)[i].source
  {
    var keys := set s | s in specs :: s.key;
    var unknown, graph, indegree := ReadDependencies(specs, keys);
    if unknown != Accepted {
      return unknown;
    }
    ghost var edges := PlanEdges(specs);
    PlanEdgesTargetKeys(specs);
    var queue := ZeroDegrees(indegree);
    StartsInProgress(keys, edges, indegree, queue);
    var visited := 0;
    ghost var order: seq<Id> := [];
    while queue != []
      invariant Progress(keys, edges, order, indegree, queue, [])
      invariant visited == |order|
      decreases |keys| - |order|
    {
      var node := queue[0];
      TakeKeepsProgress(keys, edges, order, indegree, queue, node, queue[1..]);
      order := order + [node];
      DistinctSize(order);
      SubsetSize(Elements(order), keys);
      queue := queue[1..];
      visited := visited + 1;
      var targets := Successors(graph, node);
      indegree, queue := Release(keys, edges, order, indegree, queue, targets);
    }
    EmptyQueueDecides(keys, edges, order, indegree);
    verdict := if visited != |keys| then Cyclic else Accepted;
  }
}
