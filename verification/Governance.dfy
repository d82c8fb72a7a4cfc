/** The depth-first cycle check used when a dependency is added to a drafted plan. */
module Governance {
  import opened Graphs
  import opened Kahn
  import opened Planner

  /** Last-in first-out topological sort. A target outside the node set would raise. */
  method DetectCycle(nodes: set<Id>, edges: seq<Edge>) returns (cyclic: bool)
    requires TargetsKnown(edges, nodes)
    ensures cyclic <==> HasCycle(edges) || HasForeignSource(edges, nodes)
  {
    var graph: map<Id, seq<Id>> := map[];
    var indegree: map<Id, int> := map n | n in nodes :: 0;
    for i := 0 to |edges|
      invariant Tabulated(nodes, edges[..i], graph, indegree)
    {
      var source, target := edges[i].source, edges[i].target;
      TabulateNext(nodes, edges, i, graph, indegree, source, target);
      graph := graph[source := Successors(graph, source) + [target]];
      indegree := indegree[target := indegree[target] + 1];
    }
    assert edges[..|edges|] == edges;
    var queue := ZeroDegrees(indegree);
    StartsInProgress(nodes, edges, indegree, queue);
    var seen := 0;
    ghost var order: seq<Id> := [];
    while queue != []
      invariant Progress(nodes, edges, order, indegree, queue, [])
      invariant seen == |order|
      decreases |nodes| - |order|
    {
      var last := |queue| - 1;
      var node := queue[last];
      TakeKeepsProgress(nodes, edges, order, indegree, queue, node, queue[..last]);
      order := order + [node];
      DistinctSize(order);
      SubsetSize(Elements(order), nodes);
      queue := queue[..last];
      seen := seen + 1;
      var targets := Successors(graph, node);
      indegree, queue := Release(nodes, edges, order, indegree, queue, targets);
    }
    EmptyQueueDecides(nodes, edges, order, indegree);
    cyclic := seen != |nodes|;
  }

  /** The two checks, each written for its own caller, agree on every plan. */
  method ChecksAgree(specs: seq<Spec>) returns (verdict: Verdict, cyclic: bool)
    ensures verdict == Accepted <==> !cyclic
    ensures cyclic <==> !AllKnown(specs) || HasCycle(PlanEdges(specs))
  {
    PlanEdgesTargetKeys(specs);
    verdict := ValidateAcyclic(specs);
    cyclic := DetectCycle(Keys(specs), PlanEdges(specs));
  }
}
