/** Directed graphs of named nodes, each with an ordered list of the nodes it depends on. */
module Graphs {
  import opened Options

  type Graph = map<string, seq<string>>

  predicate Closed(graph: Graph) {
    forall node | node in graph :: forall parent | parent in graph[node] :: parent in graph
  }

  predicate IsPath(graph: Graph, path: seq<string>) {
    && path != []
    && (forall node | node in path :: node in graph)
    && forall i | 0 < i < |path| :: path[i] in graph[path[i - 1]]
  }

  predicate IsCycle(graph: Graph, path: seq<string>) {
    IsPath(graph, path) && |path| > 1 && path[0] == path[|path| - 1]
  }

  ghost predicate Acyclic(graph: Graph) {
    forall path :: !IsCycle(graph, path)
  }

  ghost predicate Reaches(graph: Graph, node: string, ancestor: string) {
    exists path :: IsPath(graph, path) && path[0] == node && path[|path| - 1] == ancestor
  }

  predicate Distinct(nodes: seq<string>) {
    forall i, j | 0 <= i < j < |nodes| :: nodes[i] != nodes[j]
  }

  /** Every node comes after the nodes it depends on, and is listed once. */
  predicate IsOrder(graph: Graph, order: seq<string>) {
    && Distinct(order)
    && (forall node | node in order :: node in graph)
    && forall i | 0 <= i < |order| :: AllIn(graph[order[i]], order[..i])
  }

  predicate AllIn(nodes: seq<string>, others: seq<string>) {
    forall node | node in nodes :: node in others
  }

  lemma {:induction false} OrderExtends(graph: Graph, order: seq<string>, node: string)
    requires IsOrder(graph, order) && node in graph && node !in order && AllIn(graph[node], order)
    ensures IsOrder(graph, order + [node])
  {
    var longer := order + [node];
    forall i | 0 <= i < |longer| ensures AllIn(graph[longer[i]], longer[..i]) {
      if i < |order| {
        assert longer[..i] == order[..i];
      } else {
        assert longer[..i] == order;
      }
    }
  }

  lemma {:induction false} PathExtends(graph: Graph, path: seq<string>, node: string)
    requires path == [] || (IsPath(graph, path) && node in graph[path[|path| - 1]])
    requires node in graph
    ensures IsPath(graph, path + [node])
  {
    var longer := path + [node];
    forall i | 0 < i < |longer| ensures longer[i] in graph[longer[i - 1]] {
    }
  }

  lemma {:induction false} PathPrepends(graph: Graph, node: string, path: seq<string>)
    requires IsPath(graph, path) && node in graph && path[0] in graph[node]
    ensures IsPath(graph, [node] + path)
  {
    var longer := [node] + path;
    forall i | 0 < i < |longer| ensures longer[i] in graph[longer[i - 1]] {
      assert i > 1 ==> longer[i] == path[i - 1] && longer[i - 1] == path[i - 2];
    }
  }

  // ---- Depth-first search -------------------------------------------------

  /** Recursive depth-first post-order from one node; `None` when the trail closes a cycle. */
  function Visit(graph: Graph, node: string, trail: seq<string>, done: seq<string>): (order: Option<seq<string>>)
    requires Closed(graph) && node in graph
    ensures order.Some? ==> done <= order.value && node in order.value
    ensures order.Some? && IsOrder(graph, done) ==> IsOrder(graph, order.value)
    ensures order.Some? ==> forall passed | passed in trail && passed in order.value :: passed in done
    decreases graph.Keys - (set passed | passed in trail), 0
  {
    if node in done then Some(done)
    else if node in trail then None
    else
      assert node in graph.Keys - (set passed | passed in trail);
      var parents := VisitAll(graph, graph[node], trail + [node], done);
      if parents.None? then None
      else
        assert node in trail + [node];
        assert IsOrder(graph, done) ==> IsOrder(graph, parents.value + [node]) by {
          if IsOrder(graph, done) { OrderExtends(graph, parents.value, node); }
        }
        Some(parents.value + [node])
  }

  function VisitAll(graph: Graph, nodes: seq<string>, trail: seq<string>,
                    done: seq<string>): (order: Option<seq<string>>)
    requires Closed(graph) && forall node | node in nodes :: node in graph
    ensures order.Some? ==> done <= order.value && forall node | node in nodes :: node in order.value
    ensures order.Some? && IsOrder(graph, done) ==> IsOrder(graph, order.value)
    ensures order.Some? ==> forall passed | passed in trail && passed in order.value :: passed in done
    decreases graph.Keys - (set passed | passed in trail), |nodes| + 1
  {
    if nodes == [] then Some(done)
    else
      var first := Visit(graph, nodes[0], trail, done);
      if first.None? then None else VisitAll(graph, nodes[1..], trail, first.value)
  }

  // ---- Cycles ---------------------------------------------------------------

  /** A search that fails has found a cycle. */
  lemma {:induction false} FailureIsCycle(graph: Graph, node: string, trail: seq<string>, done: seq<string>)
    returns (cycle: seq<string>)
    requires Closed(graph) && node in graph
    requires IsPath(graph, trail + [node])
    requires Visit(graph, node, trail, done).None?
    ensures IsCycle(graph, cycle)
    decreases graph.Keys - (set passed | passed in trail), 0
  {
    var path := trail + [node];
    if node in trail {
      var i :| 0 <= i < |trail| && trail[i] == node;
      cycle := path[i..];
    } else {
      assert node in graph.Keys - (set passed | passed in trail);
      cycle := FailureOfAllIsCycle(graph, graph[node], path, done);
    }
  }

  lemma {:induction false} FailureOfAllIsCycle(graph: Graph, nodes: seq<string>, trail: seq<string>,
                                               done: seq<string>) returns (cycle: seq<string>)
    requires Closed(graph) && forall node | node in nodes :: node in graph
    requires trail == [] || (IsPath(graph, trail) && AllIn(nodes, graph[trail[|trail| - 1]]))
    requires VisitAll(graph, nodes, trail, done).None?
    ensures IsCycle(graph, cycle)
    decreases graph.Keys - (set passed | passed in trail), |nodes| + 1
  {
    var first := Visit(graph, nodes[0], trail, done);
    if first.None? {
      PathExtends(graph, trail, nodes[0]);
      cycle := FailureIsCycle(graph, nodes[0], trail, done);
    } else {
      cycle := FailureOfAllIsCycle(graph, nodes[1..], trail, first.value);
    }
  }

  /** In an order, everything a listed node reaches is listed no later. */
  lemma {:induction false} PathGoesBack(graph: Graph, order: seq<string>, path: seq<string>, i: nat) returns (j: nat)
    requires IsOrder(graph, order) && IsPath(graph, path)
    requires i < |order| && order[i] == path[0]
    ensures j <= i && order[j] == path[|path| - 1]
    ensures |path| > 1 ==> j < i
  {
    if |path| == 1 {
      j := i;
    } else {
      assert path[1] in order[..i];
      var next :| 0 <= next < i && order[next] == path[1];
      j := PathGoesBack(graph, order, path[1..], next);
    }
  }

  /** A graph has no cycle exactly when a search from all its nodes succeeds. */
  lemma {:induction false} AcyclicIffSearched(graph: Graph, nodes: seq<string>)
    requires Closed(graph) && forall node :: node in nodes <==> node in graph
    ensures Acyclic(graph) <==> VisitAll(graph, nodes, [], []).Some?
  {
    var order := VisitAll(graph, nodes, [], []);
    if order.None? {
      var cycle := FailureOfAllIsCycle(graph, nodes, [], []);
    } else {
      forall path ensures !IsCycle(graph, path) {
        if IsCycle(graph, path) {
          assert path[0] in order.value;
          var i :| 0 <= i < |order.value| && order.value[i] == path[0];
          var j := PathGoesBack(graph, order.value, path, i);
        }
      }
    }
  }

  // ---- Ancestors ------------------------------------------------------------

  /** A search adds only what the node reaches. */
  lemma {:induction false} VisitAddsAncestors(graph: Graph, node: string, trail: seq<string>, done: seq<string>,
                                              added: string)
    requires Closed(graph) && node in graph
    requires Visit(graph, node, trail, done).Some?
    requires added in Visit(graph, node, trail, done).value && added !in done
    ensures Reaches(graph, node, added)
    decreases graph.Keys - (set passed | passed in trail), 0
  {
    if added == node {
      assert IsPath(graph, [node]);
    } else {
      assert node in graph.Keys - (set passed | passed in trail);
      var parent := VisitAllAddsAncestors(graph, graph[node], trail + [node], done, added);
      ReachesThrough(graph, node, parent, added);
    }
  }

  lemma {:induction false} ReachesThrough(graph: Graph, node: string, parent: string, ancestor: string)
    requires node in graph && parent in graph[node] && Reaches(graph, parent, ancestor)
    ensures Reaches(graph, node, ancestor)
  {
    var path :| IsPath(graph, path) && path[0] == parent && path[|path| - 1] == ancestor;
    PathPrepends(graph, node, path);
    assert ([node] + path)[|path|] == ancestor;
  }

  lemma {:induction false} VisitAllAddsAncestors(graph: Graph, nodes: seq<string>, trail: seq<string>,
                                                 done: seq<string>, added: string)
    returns (from: string)
    requires Closed(graph) && forall node | node in nodes :: node in graph
    requires VisitAll(graph, nodes, trail, done).Some?
    requires added in VisitAll(graph, nodes, trail, done).value && added !in done
    ensures from in nodes && Reaches(graph, from, added)
    decreases graph.Keys - (set passed | passed in trail), |nodes| + 1
  {
    var first := Visit(graph, nodes[0], trail, done).value;
    if added in first {
      from := nodes[0];
      VisitAddsAncestors(graph, from, trail, done, added);
    } else {
      from := VisitAllAddsAncestors(graph, nodes[1..], trail, first, added);
    }
  }

  /** From nothing, a search lists exactly the node and its ancestors. */
  lemma {:induction false} VisitListsAncestors(graph: Graph, node: string, ancestor: string)
    requires Closed(graph) && node in graph
    requires Visit(graph, node, [], []).Some?
    ensures ancestor in Visit(graph, node, [], []).value <==> Reaches(graph, node, ancestor)
  {
    var order := Visit(graph, node, [], []).value;
    if ancestor in order {
      VisitAddsAncestors(graph, node, [], [], ancestor);
    }
    if Reaches(graph, node, ancestor) {
      var path :| IsPath(graph, path) && path[0] == node && path[|path| - 1] == ancestor;
      var i :| 0 <= i < |order| && order[i] == node;
      var j := PathGoesBack(graph, order, path, i);
    }
  }

  // ---- The trail does not matter ----------------------------------------------

  /** A search that succeeds gives the same order under a shorter trail. */
  lemma {:induction false} TrailIrrelevant(graph: Graph, node: string, trail: seq<string>, shorter: seq<string>,
                                           done: seq<string>)
    requires Closed(graph) && node in graph
    requires forall passed | passed in shorter :: passed in trail
    requires Visit(graph, node, trail, done).Some?
    ensures Visit(graph, node, shorter, done) == Visit(graph, node, trail, done)
    decreases graph.Keys - (set passed | passed in trail), 0
  {
    if node !in done {
      assert node in graph.Keys - (set passed | passed in trail);
      TrailIrrelevantForAll(graph, graph[node], trail + [node], shorter + [node], done);
    }
  }

  lemma {:induction false} TrailIrrelevantForAll(graph: Graph, nodes: seq<string>, trail: seq<string>,
                                                 shorter: seq<string>, done: seq<string>)
    requires Closed(graph) && forall node | node in nodes :: node in graph
    requires forall passed | passed in shorter :: passed in trail
    requires VisitAll(graph, nodes, trail, done).Some?
    ensures VisitAll(graph, nodes, shorter, done) == VisitAll(graph, nodes, trail, done)
    decreases graph.Keys - (set passed | passed in trail), |nodes| + 1
  {
    if nodes != [] {
      TrailIrrelevant(graph, nodes[0], trail, shorter, done);
      TrailIrrelevantForAll(graph, nodes[1..], trail, shorter, Visit(graph, nodes[0], trail, done).value);
    }
  }
}
