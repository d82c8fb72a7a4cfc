/** Directed multigraphs given as edge lists, their cycles, and the two facts on
    which every Kahn-style algorithm rests. */
module Graphs {
  /** Row ids and plan keys. */
  datatype Id = Id(text: string)

  /** An edge points from a prerequisite to the node that waits for it. */
  datatype Edge = Edge(source: Id, target: Id)

  ghost predicate IsWalk(edges: seq<Edge>, walk: seq<Id>) {
    forall i :: 0 <= i < |walk| - 1 ==> Edge(walk[i], walk[i + 1]) in edges
  }

  /** A closed walk of at least one edge; a self-loop is the shortest one. */
  ghost predicate IsCycle(edges: seq<Edge>, walk: seq<Id>) {
    && |walk| >= 2
    && walk[0] == walk[|walk| - 1]
    && IsWalk(edges, walk)
  }

  ghost predicate HasCycle(edges: seq<Edge>) {
    exists walk :: IsCycle(edges, walk)
  }

  ghost predicate Distinct<T>(s: seq<T>) {
    forall i, j :: 0 <= i < j < |s| ==> s[i] != s[j]
  }

  /** Every edge into the k-th node starts at one of the first k nodes. */
  ghost predicate IsTopological(edges: seq<Edge>, order: seq<Id>) {
    forall k, u :: 0 <= k < |order| && Edge(u, order[k]) in edges ==> u in order[..k]
  }

  // ----- Duplicate-free sequences and their sizes -----

  ghost function Elements<T>(s: seq<T>): set<T> {
    set x | x in s
  }

  lemma {:induction false} DistinctSize<T>(s: seq<T>)
    requires Distinct(s)
    ensures |Elements(s)| == |s|
  {
    if s == [] {
    } else {
      var n := |s| - 1;
      DistinctSize(s[..n]);
      assert s == s[..n] + [s[n]];
      assert Elements(s) == Elements(s[..n]) + {s[n]};
      assert s[n] !in s[..n];
    }
  }

  lemma {:induction false} SubsetSize<T>(a: set<T>, b: set<T>)
    requires a <= b
    ensures |a| <= |b|
    ensures |a| == |b| ==> a == b
  {
    assert b == a + (b - a);
  }

  lemma {:induction false} RepeatsWhenTooLong<T>(s: seq<T>, within: set<T>) returns (i: nat, j: nat)
    requires forall x :: x in s ==> x in within
    requires |s| > |within|
    ensures i < j < |s| && s[i] == s[j]
  {
    if Distinct(s) {
      DistinctSize(s);
      SubsetSize(Elements(s), within);
    }
    i, j :| 0 <= i < j < |s| && s[i] == s[j];
  }

  // ----- What stalls a topological sort -----

  ghost predicate HasPredecessorIn(edges: seq<Edge>, nodes: set<Id>, v: Id) {
    exists u :: u in nodes && Edge(u, v) in edges
  }

  /** Every member of the set has a predecessor in the set. */
  ghost predicate NoSource(edges: seq<Edge>, nodes: set<Id>) {
    forall v {:trigger HasPredecessorIn(edges, nodes, v)} :: v in nodes ==> HasPredecessorIn(edges, nodes, v)
  }

  /** A walk of any length that ends at a given node and stays inside a set whose members
      all have a predecessor in it. */
  lemma {:induction false} BackwardWalk(edges: seq<Edge>, stalled: set<Id>, start: Id,
                                        length: nat)
    returns (walk: seq<Id>)
    requires start in stalled
    requires NoSource(edges, stalled)
    ensures |walk| == length + 1 && walk[length] == start
    ensures IsWalk(edges, walk)
    ensures forall x :: x in walk ==> x in stalled
    decreases length
  {
    if length == 0 {
      walk := [start];
    } else {
      assert HasPredecessorIn(edges, stalled, start);
      var previous :| previous in stalled && Edge(previous, start) in edges;
      var rest := BackwardWalk(edges, stalled, previous, length - 1);
      walk := rest + [start];
    }
  }

  /** The part of a walk between two visits of the same node is a cycle. */
  lemma {:induction false} RepeatIsCycle(edges: seq<Edge>, walk: seq<Id>, i: nat, j: nat)
    requires IsWalk(edges, walk)
    requires i < j < |walk| && walk[i] == walk[j]
    ensures HasCycle(edges)
  {
    var cycle := walk[i..j + 1];
    forall k | 0 <= k < |cycle| - 1 ensures Edge(cycle[k], cycle[k + 1]) in edges {
      assert Edge(walk[i + k], walk[i + k + 1]) in edges;
    }
    assert IsCycle(edges, cycle);
  }

  /** A non-empty finite set in which every node has a predecessor contains a cycle. */
  lemma {:induction false} StalledMeansCycle(edges: seq<Edge>, stalled: set<Id>)
    requires stalled != {}
    requires NoSource(edges, stalled)
    ensures HasCycle(edges)
  {
    var start :| start in stalled;
    var walk := BackwardWalk(edges, stalled, start, |stalled|);
    var i, j := RepeatsWhenTooLong(walk, stalled);
    RepeatIsCycle(edges, walk, i, j);
  }

  /** Along a topological order positions grow along every walk. */
  lemma {:induction false} WalkClimbs(edges: seq<Edge>, order: seq<Id>, walk: seq<Id>, at: nat) returns (first: nat)
    requires IsTopological(edges, order) && Distinct(order)
    requires |walk| >= 1 && IsWalk(edges, walk)
    requires at < |order| && order[at] == walk[|walk| - 1]
    ensures first <= at && order[first] == walk[0]
    ensures |walk| >= 2 ==> first < at
  {
    if |walk| == 1 {
      first := at;
    } else {
      var n := |walk| - 2;
      assert Edge(walk[n], walk[n + 1]) in edges;
      var before :| 0 <= before < at && order[before] == walk[n];
      first := WalkClimbs(edges, order, walk[..n + 1], before);
    }
  }

  /** A graph all of whose edge targets appear in a topological order has no cycle. */
  lemma {:induction false} OrderMeansAcyclic(edges: seq<Edge>, order: seq<Id>)
    requires IsTopological(edges, order) && Distinct(order)
    requires forall e :: e in edges ==> e.target in order
    ensures !HasCycle(edges)
  {
    if HasCycle(edges) {
      var walk :| IsCycle(edges, walk);
      var n := |walk| - 1;
      assert Edge(walk[n - 1], walk[n]) in edges;
      var at :| 0 <= at < |order| && order[at] == walk[n];
      var first := WalkClimbs(edges, order, walk, at);
    }
  }

  /** Fewer edges cannot create a cycle. */
  lemma {:induction false} FewerEdgesStayAcyclic(edges: seq<Edge>, fewer: seq<Edge>)
    requires !HasCycle(edges)
    requires forall e :: e in fewer ==> e in edges
    ensures !HasCycle(fewer)
  {
    if HasCycle(fewer) {
      var walk :| IsCycle(fewer, walk);
      assert IsCycle(edges, walk);
    }
  }

  /** In an acyclic graph every non-empty node set has a member without predecessor in it. */
  lemma {:induction false} AcyclicHasSource(edges: seq<Edge>, nodes: set<Id>) returns (v: Id)
    requires !HasCycle(edges) && nodes != {}
    ensures v in nodes && !HasPredecessorIn(edges, nodes, v)
  {
    if NoSource(edges, nodes) {
      StalledMeansCycle(edges, nodes);
    }
    v :| v in nodes && !HasPredecessorIn(edges, nodes, v);
  }

  // ----- What one more edge does -----

  /** A walk of any length, none included, from one node to another. */
  ghost predicate LeadsTo(edges: seq<Edge>, u: Id, v: Id) {
    exists walk :: walk != [] && walk[0] == u && walk[|walk| - 1] == v && IsWalk(edges, walk)
  }

  lemma {:induction false} FirstOutside(edges: seq<Edge>, walk: seq<Id>) returns (m: nat)
    requires !IsWalk(edges, walk)
    ensures m < |walk| - 1 && Edge(walk[m], walk[m + 1]) !in edges && IsWalk(edges, walk[..m + 1])
  {
    var n := |walk| - 1;
    if IsWalk(edges, walk[..n]) {
      m := n - 1;
      forall i | 0 <= i < n - 1
        ensures Edge(walk[i], walk[i + 1]) in edges
      {
        assert Edge(walk[..n][i], walk[..n][i + 1]) in edges;
      }
    } else {
      m := FirstOutside(edges, walk[..n]);
      assert walk[..n][..m + 1] == walk[..m + 1];
    }
  }

  lemma {:induction false} LastOutside(edges: seq<Edge>, walk: seq<Id>) returns (k: nat)
    requires !IsWalk(edges, walk)
    ensures k < |walk| - 1 && Edge(walk[k], walk[k + 1]) !in edges && IsWalk(edges, walk[k + 1..])
  {
    if IsWalk(edges, walk[1..]) {
      k := 0;
      assert forall i :: 1 <= i < |walk| - 1 ==> Edge(walk[1..][i - 1], walk[1..][i]) == Edge(walk[i], walk[i + 1]);
    } else {
      var rest := LastOutside(edges, walk[1..]);
      k := rest + 1;
      assert walk[1..][rest + 1..] == walk[k + 1..];
    }
  }

  lemma {:induction false} WalksJoin(edges: seq<Edge>, a: seq<Id>, b: seq<Id>)
    requires a != [] && b != [] && IsWalk(edges, a) && IsWalk(edges, b) && a[|a| - 1] == b[0]
    ensures IsWalk(edges, a + b[1..])
  {
    var joined := a + b[1..];
    forall i | 0 <= i < |joined| - 1
      ensures Edge(joined[i], joined[i + 1]) in edges
    {
      if i < |a| - 1 {
        assert Edge(a[i], a[i + 1]) in edges;
      } else {
        var j := i - (|a| - 1);
        assert joined[i] == b[j] && joined[i + 1] == b[j + 1];
        assert Edge(b[j], b[j + 1]) in edges;
      }
    }
  }

  lemma {:induction false} CycleThroughNewEdge(edges: seq<Edge>, e: Edge, cycle: seq<Id>)
    requires !HasCycle(edges) && IsCycle(edges + [e], cycle)
    ensures LeadsTo(edges, e.target, e.source)
  {
    assert !IsCycle(edges, cycle);
    var m := FirstOutside(edges, cycle);
    var k := LastOutside(edges, cycle);
    assert Edge(cycle[m], cycle[m + 1]) in edges + [e] && Edge(cycle[k], cycle[k + 1]) in edges + [e];
    var back := cycle[k + 1..] + cycle[..m + 1][1..];
    WalksJoin(edges, cycle[k + 1..], cycle[..m + 1]);
    assert back[0] == e.target && back[|back| - 1] == e.source;
  }

  /** A further edge closes a cycle exactly when its target already leads to its source. */
  lemma {:induction false} NewEdgeClosesCycle(edges: seq<Edge>, e: Edge)
    requires !HasCycle(edges)
    ensures HasCycle(edges + [e]) <==> LeadsTo(edges, e.target, e.source)
  {
    if HasCycle(edges + [e]) {
      var cycle :| IsCycle(edges + [e], cycle);
      CycleThroughNewEdge(edges, e, cycle);
    }
    if LeadsTo(edges, e.target, e.source) {
      var walk :| walk != [] && walk[0] == e.target && walk[|walk| - 1] == e.source && IsWalk(edges, walk);
      var cycle := walk + [e.target];
      forall i | 0 <= i < |cycle| - 1
        ensures Edge(cycle[i], cycle[i + 1]) in edges + [e]
      {
        if i < |walk| - 1 { assert Edge(walk[i], walk[i + 1]) in edges; }
      }
      assert IsCycle(edges + [e], cycle);
    }
  }
}
