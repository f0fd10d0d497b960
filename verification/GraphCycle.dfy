/** Cycle detection over the route graph by a three-colour depth-first walk. */
module GraphCycle {
  import opened Base

  type Graph = map<string, seq<string>>

  function Next(g: Graph, n: string): seq<string> {
    if n in g then g[n] else []
  }

  function Nodes(g: Graph): set<string> {
    g.Keys + set n, m | n in g && m in g[n] :: m
  }

  ghost predicate IsPath(g: Graph, p: seq<string>) {
    p != [] && forall i :: 0 <= i < |p| - 1 ==> p[i + 1] in Next(g, p[i])
  }

  ghost predicate Joins(g: Graph, p: seq<string>, a: string, b: string) {
    IsPath(g, p) && p[0] == a && p[|p| - 1] == b
  }

  ghost predicate OnCycle(g: Graph, n: string) {
    exists p :: Joins(g, p, n, n) && |p| > 1
  }

  ghost predicate ReachesCycle(g: Graph, n: string) {
    exists p, m :: Joins(g, p, n, m) && OnCycle(g, m)
  }

  ghost predicate Cyclic(g: Graph) {
    exists n :: OnCycle(g, n)
  }

  /** Finished nodes, in the order of finishing: edges only lead to nodes finished before. */
  ghost predicate Ordered(g: Graph, finished: seq<string>) {
    Distinct(finished) &&
    forall i, m :: 0 <= i < |finished| && m in Next(g, finished[i]) ==> m in finished[..i]
  }

  /** A colour; a node without one is unvisited. */
  datatype Colour = InStack | Done

  /** The nodes in the stack are those of the current path, the done ones are in finishing order. */
  ghost predicate Marks(g: Graph, visited: map<string, Colour>, finished: seq<string>, stack: seq<string>) {
    visited.Keys <= Nodes(g) && Ordered(g, finished) &&
    (forall n :: n in visited && visited[n] == InStack <==> n in stack) &&
    (forall n :: n in visited && visited[n] == Done <==> n in finished)
  }

  /** The trail continues the stack and leads back to a node on either. */
  ghost predicate Closes(g: Graph, stack: seq<string>, trail: seq<string>) {
    trail != [] && IsPath(g, stack + trail) && exists m :: m in Next(g, trail[|trail| - 1]) && m in stack + trail
  }

  lemma EnterNode(g: Graph, visited: map<string, Colour>, finished: seq<string>, stack: seq<string>, node: string)
    requires Marks(g, visited, finished, stack) && node in Nodes(g) && node !in visited
    ensures Marks(g, visited[node := InStack], finished, stack + [node])
  {
  }

  lemma LeaveNode(g: Graph, visited: map<string, Colour>, finished: seq<string>, stack: seq<string>, node: string)
    requires Marks(g, visited, finished, stack + [node]) && node !in stack
    requires forall m :: m in Next(g, node) ==> m in finished
    ensures Marks(g, visited[node := Done], finished + [node], stack)
  {
    assert node in stack + [node] && node !in finished;
    var all := finished + [node];
    forall i, m | 0 <= i < |all| && m in Next(g, all[i]) ensures m in all[..i] {
      assert all[..i] == finished[..i];
    }
  }

  lemma PathGrows(g: Graph, p: seq<string>, n: string)
    requires IsPath(g, p) && n in Next(g, p[|p| - 1])
    ensures IsPath(g, p + [n]) && n in Nodes(g)
  {
    assert p[|p| - 1] in g;
  }

  lemma LongerTrail(g: Graph, stack: seq<string>, node: string, rest: seq<string>)
    requires Closes(g, stack + [node], rest)
    ensures Closes(g, stack, [node] + rest)
  {
    assert stack + [node] + rest == stack + ([node] + rest);
  }

  class Walker {
    const graph: Graph
    var visited: map<string, Colour>
    ghost var finished: seq<string>

    constructor (graph: Graph)
      ensures this.graph == graph && visited == map[] && finished == []
    {
      this.graph := graph;
      visited, finished := map[], [];
    }

    ghost predicate Valid(stack: seq<string>)
      reads this
    {
      Marks(graph, visited, finished, stack)
    }

    method Walk(node: string, ghost stack: seq<string>) returns (cyclic: bool, ghost trail: seq<string>)
      requires Valid(stack) && node in Nodes(graph) && node !in visited && IsPath(graph, stack + [node])
      modifies this
      ensures !cyclic ==> Valid(stack) && node in finished
      ensures !cyclic ==> old(finished) <= finished && old(visited).Keys <= visited.Keys
      ensures cyclic ==> Closes(graph, stack, trail) && trail[0] == node
      decreases Nodes(graph) - visited.Keys
    {
      EnterNode(graph, visited, finished, stack, node);
      visited, trail := visited[node := InStack], [node];
      var successors, i := Next(graph, node), 0;
      ghost var deeper := stack + [node];
      while i < |successors|
        invariant 0 <= i <= |successors|
        invariant Valid(deeper) && old(finished) <= finished && old(visited).Keys + {node} <= visited.Keys
        invariant forall k :: 0 <= k < i ==> successors[k] in finished
      {
        var next := successors[i];
        PathGrows(graph, deeper, next);
        if next in visited && visited[next] == InStack {
          return true, [node];
        }
        if next !in visited {
          var found, rest := Walk(next, deeper);
          if found {
            LongerTrail(graph, stack, node, rest);
            return true, [node] + rest;
          }
        }
        i := i + 1;
      }
      LeaveNode(graph, visited, finished, stack, node);
      visited, finished := visited[node := Done], finished + [node];
      cyclic := false;
    }
  }

  /** The first node of the list that reaches a cycle. */
  ghost predicate FirstReaching(g: Graph, order: seq<string>, node: string) {
    exists i :: 0 <= i < |order| && order[i] == node && ReachesCycle(g, node) &&
                forall j :: 0 <= j < i ==> !ReachesCycle(g, order[j])
  }

  /** The walk starts from the nodes in any order the map iteration gives. It ends, and reports the
      first node in that order that reaches a cycle, which exists exactly when the graph is cyclic. */
  method DetectGraphCycle(graph: Graph, order: seq<string>) returns (node: string, cyclic: bool)
    requires forall n :: n in order <==> n in graph
    ensures cyclic <==> Cyclic(graph)
    ensures cyclic ==> FirstReaching(graph, order, node)
  {
    var w := new Walker(graph);
    var i := 0;
    while i < |order|
      invariant 0 <= i <= |order| && w.graph == graph && w.Valid([])
      invariant forall j :: 0 <= j < i ==> order[j] in w.finished
    {
      if order[i] !in w.visited {
        FinishedReachesNone(graph, w.finished);
        assert forall j :: 0 <= j < i ==> !ReachesCycle(graph, order[j]);
        var found, trail := w.Walk(order[i], []);
        if found {
          assert [] + trail == trail;
          LassoReaches(graph, trail);
          return order[i], true;
        }
      }
      i := i + 1;
    }
    FinishedReachesNone(graph, w.finished);
    forall n | OnCycle(graph, n) ensures n in graph && ReachesCycle(graph, n) {
      OnCycleReaches(graph, n);
    }
    return "", false;
  }

  lemma OnCycleReaches(g: Graph, n: string)
    requires OnCycle(g, n)
    ensures n in g && ReachesCycle(g, n)
  {
    var p :| Joins(g, p, n, n) && |p| > 1;
    assert p[1] in Next(g, p[0]);
    assert Joins(g, [n], n, n);
  }

  /** A path whose last node leads back to one on it shows a cycle that its first node reaches. */
  lemma LassoReaches(g: Graph, p: seq<string>)
    requires IsPath(g, p) && exists m :: m in Next(g, p[|p| - 1]) && m in p
    ensures ReachesCycle(g, p[0]) && Cyclic(g)
  {
    var m :| m in Next(g, p[|p| - 1]) && m in p;
    var i :| 0 <= i < |p| && p[i] == m;
    var q := p[i..];
    assert IsPath(g, q) && q[|q| - 1] == p[|p| - 1];
    PathGrows(g, q, m);
    assert Joins(g, q + [m], m, m);
    assert Joins(g, p[..i + 1], p[0], m);
  }

  lemma {:induction false} PathDescends(g: Graph, finished: seq<string>, i: nat, p: seq<string>)
    requires Ordered(g, finished) && i < |finished| && IsPath(g, p) && p[0] == finished[i]
    ensures if |p| == 1 then p[|p| - 1] == finished[i] else p[|p| - 1] in finished[..i]
    decreases |p|
  {
    if |p| > 1 {
      assert p[1] in Next(g, p[0]);
      var j :| 0 <= j < i && finished[j] == p[1];
      PathDescends(g, finished, j, p[1..]);
    }
  }

  /** No finished node reaches a cycle. */
  lemma FinishedReachesNone(g: Graph, finished: seq<string>)
    requires Ordered(g, finished)
    ensures forall n :: n in finished ==> !ReachesCycle(g, n)
  {
    forall n, p, m | n in finished && Joins(g, p, n, m) ensures !OnCycle(g, m) {
      var i :| 0 <= i < |finished| && finished[i] == n;
      PathDescends(g, finished, i, p);
      var j :| 0 <= j < |finished| && finished[j] == m;
      forall q | Joins(g, q, m, m) ensures |q| <= 1 {
        PathDescends(g, finished, j, q);
      }
    }
  }

  lemma OnCycleHasSource(g: Graph, n: string)
    requires OnCycle(g, n)
    ensures exists k :: k in g && n in g[k]
  {
    var p :| Joins(g, p, n, n) && |p| > 1;
    var i := |p| - 2;
    assert p[i + 1] in Next(g, p[i]);
  }

  /** An iteration order of the map: each key once. */
  ghost predicate IsOrder(g: Graph, order: seq<string>) {
    Distinct(order) && forall n :: n in order <==> n in g
  }

  lemma {:induction false} ListOf(nodes: set<string>) returns (list: seq<string>)
    ensures Distinct(list) && forall n :: n in list <==> n in nodes
  {
    list := [];
    if nodes != {} {
      var n :| n in nodes;
      var rest := ListOf(nodes - {n});
      list := [n] + rest;
    }
  }

  /** The node reported lies on a cycle in every iteration order, as the comment promises, exactly when
      every node of the graph that reaches a cycle lies on one. */
  lemma ReportsOnCycleIff(g: Graph)
    ensures (forall order, node :: IsOrder(g, order) && FirstReaching(g, order, node) ==> OnCycle(g, node)) <==>
            (forall n :: n in g && ReachesCycle(g, n) ==> OnCycle(g, n))
  {
    if n :| n in g && ReachesCycle(g, n) && !OnCycle(g, n) {
      var rest := ListOf(g.Keys - {n});
      var order := [n] + rest;
      assert order[0] == n && IsOrder(g, order) && FirstReaching(g, order, n);
    }
  }

  /** That fails already on a -> b -> b: the walk that starts with a can only report a. */
  lemma ReportedMayLieOffCycle(node: string)
    ensures var g := map["a" := ["b"], "b" := ["b"]];
            Cyclic(g) && !OnCycle(g, "a") && (FirstReaching(g, ["a", "b"], node) <==> node == "a")
  {
    var g := map["a" := ["b"], "b" := ["b"]];
    assert Joins(g, ["b", "b"], "b", "b") && Joins(g, ["a", "b"], "a", "b");
    assert ReachesCycle(g, "a") && ["a", "b"][0] == "a";
    if OnCycle(g, "a") {
      OnCycleHasSource(g, "a");
      assert false;
    }
  }
}
