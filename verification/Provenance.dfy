/** The validated ancestry graph of produced bytes (src/reprobit/artifacts.py). */
module Provenance {
  import opened Options
  import opened Graphs

  datatype ByteOrigin = Toolchain | DeclaredExternal | CertifiedMetadata | Oracle | Unknown

  datatype Ancestry = Ancestry(id: string, operation: string, parents: seq<string>, origin: Option<ByteOrigin>)

  /** A root has an origin and no parents; a transform has parents and no origin. */
  predicate WellFormed(node: Ancestry) {
    Distinct(node.parents) && (node.parents == [] <==> node.origin.Some?)
  }

  type Node = node: Ancestry | WellFormed(node) witness Ancestry("root", "read", [], Some(Unknown))

  function Parents(nodes: map<string, Node>): Graph {
    map id | id in nodes :: nodes[id].parents
  }

  ghost predicate Sound(nodes: map<string, Node>) {
    && (forall id | id in nodes :: nodes[id].id == id)
    && Closed(Parents(nodes)) && Acyclic(Parents(nodes))
  }

  /** The origins of the roots that a node reaches by parents. */
  ghost function RootOrigins(nodes: map<string, Node>, id: string): set<ByteOrigin> {
    set origin: ByteOrigin | HasRoot(nodes, id, origin)
  }

  ghost predicate HasRoot(nodes: map<string, Node>, id: string, origin: ByteOrigin) {
    exists root :: root in nodes && nodes[root].origin == Some(origin) && Reaches(Parents(nodes), id, root)
  }

  // ---- Reachability -----------------------------------------------------------

  lemma {:induction false} ReachesStep(graph: Graph, node: string, ancestor: string)
    requires Closed(graph) && node in graph
    ensures Reaches(graph, node, ancestor) <==>
            node == ancestor || exists parent :: parent in graph[node] && Reaches(graph, parent, ancestor)
  {
    if Reaches(graph, node, ancestor) && node != ancestor {
      var path :| IsPath(graph, path) && path[0] == node && path[|path| - 1] == ancestor;
      assert IsPath(graph, path[1..]) && path[1] in graph[node];
      assert path[1..][|path| - 2] == ancestor;
      assert Reaches(graph, path[1], ancestor);
    }
    if node == ancestor {
      assert IsPath(graph, [node]);
    }
    if parent :| parent in graph[node] && Reaches(graph, parent, ancestor) {
      ReachesThrough(graph, node, parent, ancestor);
    }
  }

  lemma {:induction false} OriginsOfRoot(nodes: map<string, Node>, id: string)
    requires Closed(Parents(nodes)) && id in nodes && nodes[id].origin.Some?
    ensures RootOrigins(nodes, id) == {nodes[id].origin.value}
  {
    forall ancestor ensures Reaches(Parents(nodes), id, ancestor) <==> id == ancestor {
      ReachesStep(Parents(nodes), id, ancestor);
    }
  }

  lemma {:induction false} OriginsOfTransform(nodes: map<string, Node>, id: string, origin: ByteOrigin)
    requires Closed(Parents(nodes)) && id in nodes && nodes[id].origin.None?
    ensures origin in RootOrigins(nodes, id) <==>
            exists parent :: parent in nodes[id].parents && origin in RootOrigins(nodes, parent)
  {
    var graph := Parents(nodes);
    if HasRoot(nodes, id, origin) {
      var root :| root in nodes && nodes[root].origin == Some(origin) && Reaches(graph, id, root);
      ReachesStep(graph, id, root);
      var parent :| parent in graph[id] && Reaches(graph, parent, root);
      assert HasRoot(nodes, parent, origin);
    }
    if parent :| parent in nodes[id].parents && origin in RootOrigins(nodes, parent) {
      var root :| root in nodes && nodes[root].origin == Some(origin) && Reaches(graph, parent, root);
      ReachesThrough(graph, id, parent, root);
    }
  }

  /** Without a cycle a path never returns to a node on it. */
  lemma {:induction false} NotOnTrail(graph: Graph, trail: seq<string>, node: string)
    requires Acyclic(graph) && IsPath(graph, trail + [node])
    ensures node in graph.Keys - (set passed | passed in trail)
  {
    var path := trail + [node];
    if node in trail {
      var i :| 0 <= i < |trail| && trail[i] == node;
      assert IsCycle(graph, path[i..]);
    }
  }

  /** Every node has a root origin. */
  lemma {:induction false} SomeOrigin(nodes: map<string, Node>, id: string, trail: seq<string>)
    requires Sound(nodes) && id in nodes && IsPath(Parents(nodes), trail + [id])
    ensures RootOrigins(nodes, id) != {}
    decreases Parents(nodes).Keys - (set passed | passed in trail)
  {
    var graph := Parents(nodes);
    NotOnTrail(graph, trail, id);
    if nodes[id].origin.Some? {
      OriginsOfRoot(nodes, id);
    } else {
      var parent := nodes[id].parents[0];
      PathExtends(graph, trail + [id], parent);
      SomeOrigin(nodes, parent, trail + [id]);
      var origin :| origin in RootOrigins(nodes, parent);
      OriginsOfTransform(nodes, id, origin);
    }
  }

  // ---- Validation -------------------------------------------------------------

  /** The sets of `_validate_acyclic`, with the order in which nodes were completed. */
  class AcyclicSearch {
    const graph: Graph
    var visiting: set<string>
    var complete: set<string>
    ghost var order: seq<string>

    constructor (graph: Graph)
      ensures this.graph == graph && visiting == {} && complete == {} && order == []
    {
      this.graph := graph;
      visiting, complete, order := {}, {}, [];
    }

    /** `visit`: succeeds as the recursive search does, or reports a trail that closes a cycle. */
    method Visit(node: string, trail: seq<string>) returns (cycle: Option<seq<string>>)
      requires Closed(graph) && IsPath(graph, trail + [node])
      requires visiting == (set passed | passed in trail) && complete == (set id | id in order)
      modifies this
      ensures cycle.None? ==> Graphs.Visit(graph, node, trail, old(order)) == Some(order)
      ensures cycle.None? ==> visiting == old(visiting) && complete == (set id | id in order)
      ensures cycle.Some? ==> Graphs.Visit(graph, node, trail, old(order)).None?
      ensures cycle.Some? ==>
                IsPath(graph, cycle.value) && cycle.value[|cycle.value| - 1] in cycle.value[..|cycle.value| - 1]
      decreases graph.Keys - (set passed | passed in trail)
    {
      var here := trail + [node];
      if node in complete {
        return None;
      }
      if node in visiting {
        assert here[..|here| - 1] == trail;
        return Some(here);
      }
      assert node in graph.Keys - (set passed | passed in trail);
      visiting := visiting + {node};
      var parents := graph[node];
      for i := 0 to |parents|
        invariant visiting == (set passed | passed in here) && complete == (set id | id in order)
        invariant VisitAll(graph, parents, here, old(order)) == VisitAll(graph, parents[i..], here, order)
      {
        assert parents[i..][0] == parents[i] && parents[i..][1..] == parents[i + 1..];
        PathExtends(graph, here, parents[i]);
        var found := Visit(parents[i], here);
        if found.Some? {
          return found;
        }
      }
      visiting := visiting - {node};
      complete := complete + {node};
      order := order + [node];
      cycle := None;
    }
  }

  /** `_validate_acyclic`: visit every node; the first failure is reported. */
  method ValidateAcyclic(graph: Graph, ids: seq<string>) returns (cycle: Option<seq<string>>)
    requires Closed(graph) && forall id :: id in ids <==> id in graph
    ensures cycle.None? <==> Acyclic(graph)
    ensures cycle.Some? ==>
              IsPath(graph, cycle.value) && cycle.value[|cycle.value| - 1] in cycle.value[..|cycle.value| - 1]
  {
    hide Acyclic, IsPath, Graphs.Visit, IsOrder;
    AcyclicIffSearched(graph, ids);
    var search := new AcyclicSearch(graph);
    assert ids[0..] == ids;
    for i := 0 to |ids|
      invariant search.graph == graph && search.visiting == {} && search.complete == (set id | id in search.order)
      invariant VisitAll(graph, ids, [], []) == VisitAll(graph, ids[i..], [], search.order)
    {
      assert ids[i..][0] == ids[i] && ids[i..][1..] == ids[i + 1..];
      PathExtends(graph, [], ids[i]);
      cycle := search.Visit(ids[i], []);
      if cycle.Some? {
        return;
      }
    }
    cycle := None;
  }

  // ---- The graph ----------------------------------------------------------------

  class ProvenanceGraph {
    const nodes: map<string, Node>
    var originCache: map<string, set<ByteOrigin>>

    constructor (nodes: map<string, Node>)
      requires Sound(nodes)
      ensures this.nodes == nodes && Valid()
    {
      this.nodes := nodes;
      originCache := map[];
    }

    /** The memo table holds only reachable root origins. */
    ghost predicate Valid()
      reads this
    {
      && Sound(nodes)
      && forall id | id in originCache :: id in nodes && originCache[id] == RootOrigins(nodes, id)
    }

    /** `root_origins` of a known node. */
    method CollectOrigins(id: string, ghost trail: seq<string>) returns (origins: set<ByteOrigin>)
      requires Valid() && id in nodes && IsPath(Parents(nodes), trail + [id])
      modifies this
      ensures Valid() && origins == RootOrigins(nodes, id)
      decreases Parents(nodes).Keys - (set passed | passed in trail)
    {
      if id in originCache {
        return originCache[id];
      }
      NotOnTrail(Parents(nodes), trail, id);
      var node := nodes[id];
      if node.origin.Some? {
        OriginsOfRoot(nodes, id);
        origins := {node.origin.value};
      } else {
        origins := {};
        for i := 0 to |node.parents|
          invariant Valid()
          invariant forall origin :: origin in origins <==>
                      exists k :: 0 <= k < i && origin in RootOrigins(nodes, node.parents[k])
        {
          PathExtends(Parents(nodes), trail + [id], node.parents[i]);
          var inherited := CollectOrigins(node.parents[i], trail + [id]);
          origins := origins + inherited;
        }
        OriginsAreInherited(nodes, id, origins);
      }
      originCache := originCache[id := origins];
    }

    /** `root_origins`: fails on an unknown node; otherwise the reachable root origins, at least one. */
    method Origins(id: string) returns (origins: Option<set<ByteOrigin>>)
      requires Valid()
      modifies this
      ensures Valid()
      ensures origins.Some? <==> id in nodes
      ensures origins.Some? ==> origins.value == RootOrigins(nodes, id) && origins.value != {}
    {
      if id in originCache {
        PathExtends(Parents(nodes), [], id);
        SomeOrigin(nodes, id, []);
        return Some(originCache[id]);
      }
      if id !in nodes {
        return None;
      }
      PathExtends(Parents(nodes), [], id);
      SomeOrigin(nodes, id, []);
      var found := CollectOrigins(id, []);
      origins := Some(found);
    }

    /** `trace`: exactly the ancestors of a known node, parents first, each once. */
    method Trace(id: string) returns (ordered: Option<seq<Node>>)
      requires Valid()
      ensures ordered.Some? <==> id in nodes
      ensures ordered.Some? ==>
                forall i | 0 <= i < |ordered.value| ::
                    ordered.value[i].id in nodes && ordered.value[i] == nodes[ordered.value[i].id]
      ensures ordered.Some? ==> IsOrder(Parents(nodes), NodeIds(ordered.value))
      ensures ordered.Some? ==>
                forall ancestor :: ancestor in NodeIds(ordered.value) <==> Reaches(Parents(nodes), id, ancestor)
    {
      if id !in nodes {
        return None;
      }
      var graph := Parents(nodes);
      var explanation := new Explanation(nodes);
      PathExtends(graph, [], id);
      explanation.Add(id, []);
      forall ancestor ensures ancestor in NodeIds(explanation.ordered) <==> Reaches(graph, id, ancestor) {
        VisitListsAncestors(graph, id, ancestor);
      }
      ordered := Some(explanation.ordered);
    }
  }

  lemma {:induction false} OriginsAreInherited(nodes: map<string, Node>, id: string, origins: set<ByteOrigin>)
    requires Closed(Parents(nodes)) && id in nodes && nodes[id].origin.None?
    requires
      var parents := nodes[id].parents;
      forall origin :: origin in origins <==> exists k :: 0 <= k < |parents| && origin in RootOrigins(nodes, parents[k])
    ensures origins == RootOrigins(nodes, id)
  {
    hide RootOrigins;
    forall origin ensures origin in origins <==> origin in RootOrigins(nodes, id) {
      OriginsOfTransform(nodes, id, origin);
    }
  }

  function NodeIds(nodes: seq<Node>): seq<string> {
    seq(|nodes|, i requires 0 <= i < |nodes| => nodes[i].id)
  }

  /** The lists that `trace` builds. */
  class Explanation {
    const nodes: map<string, Node>
    var ordered: seq<Node>
    var seen: set<string>

    constructor (nodes: map<string, Node>)
      requires Sound(nodes)
      ensures this.nodes == nodes && Valid() && ordered == []
    {
      this.nodes := nodes;
      ordered, seen := [], {};
    }

    ghost predicate Valid()
      reads this
    {
      && Sound(nodes)
      && seen == (set id | id in NodeIds(ordered))
      && forall i | 0 <= i < |ordered| :: ordered[i].id in nodes && ordered[i] == nodes[ordered[i].id]
    }

    /** `add`: the recursive post-order visit, appended to what was listed. */
    method Add(current: string, ghost trail: seq<string>)
      requires Valid() && current in nodes && IsPath(Parents(nodes), trail + [current])
      modifies this
      ensures Valid()
      ensures Visit(Parents(nodes), current, trail, old(NodeIds(ordered))) == Some(NodeIds(ordered))
      decreases Parents(nodes).Keys - (set passed | passed in trail)
    {
      if current in seen {
        return;
      }
      ghost var graph, here := Parents(nodes), trail + [current];
      NotOnTrail(graph, trail, current);
      var node := nodes[current];
      for i := 0 to |node.parents|
        invariant Valid()
        invariant VisitAll(graph, node.parents, here, old(NodeIds(ordered))) ==
                  VisitAll(graph, node.parents[i..], here, NodeIds(ordered))
      {
        assert node.parents[i..][0] == node.parents[i] && node.parents[i..][1..] == node.parents[i + 1..];
        PathExtends(graph, here, node.parents[i]);
        Add(node.parents[i], here);
      }
      seen := seen + {current};
      assert NodeIds(ordered + [node]) == NodeIds(ordered) + [current];
      ordered := ordered + [node];
    }
  }

  // ---- Construction ---------------------------------------------------------------

  predicate UniqueIds(nodes: seq<Node>) {
    forall i, j | 0 <= i < j < |nodes| :: nodes[i].id != nodes[j].id
  }

  function ById(nodes: seq<Node>): map<string, Node>
    requires UniqueIds(nodes)
  {
    map i | 0 <= i < |nodes| :: nodes[i].id := nodes[i]
  }

  lemma {:induction false} IndexedIds(nodes: seq<Node>)
    requires UniqueIds(nodes)
    ensures forall id :: id in NodeIds(nodes) <==> id in Parents(ById(nodes))
  {
    var graph := Parents(ById(nodes));
    forall id ensures id in NodeIds(nodes) <==> id in graph {
      if id in graph {
        var i :| 0 <= i < |nodes| && nodes[i].id == id;
        assert NodeIds(nodes)[i] == id;
      }
    }
  }

  lemma {:induction false} IndexedParents(nodes: seq<Node>)
    requires UniqueIds(nodes)
    ensures Closed(Parents(ById(nodes))) <==> forall i | 0 <= i < |nodes| :: ParentsKnown(nodes[i], ById(nodes))
  {
    var graph := Parents(ById(nodes));
    assert forall i | 0 <= i < |nodes| :: nodes[i].id in graph && graph[nodes[i].id] == nodes[i].parents;
  }

  predicate ParentsKnown(node: Node, indexed: map<string, Node>) {
    forall parent | parent in node.parents :: parent in indexed
  }

  lemma NoneIndexed()
    ensures ById([]) == map[]
  {
  }

  lemma {:induction false} IndexesOneMore(nodes: seq<Node>, i: nat)
    requires i < |nodes| && UniqueIds(nodes[..i])
    ensures nodes[i].id in ById(nodes[..i]) ==> !UniqueIds(nodes)
    ensures nodes[i].id !in ById(nodes[..i]) ==>
              UniqueIds(nodes[..i + 1]) && ById(nodes[..i + 1]) == ById(nodes[..i])[nodes[i].id := nodes[i]]
  {
    assert nodes[..i + 1] == nodes[..i] + [nodes[i]];
  }

  /** A second node with the same id is refused. */
  method IndexNodes(nodes: seq<Node>) returns (indexed: Option<map<string, Node>>)
    ensures indexed.Some? <==> UniqueIds(nodes)
    ensures indexed.Some? ==> indexed.value == ById(nodes)
  {
    hide ById;
    var found: map<string, Node> := map[];
    assert found == ById(nodes[..0]) by { NoneIndexed(); }
    for i := 0 to |nodes|
      invariant UniqueIds(nodes[..i]) && found == ById(nodes[..i])
    {
      IndexesOneMore(nodes, i);
      if nodes[i].id in found {
        return None;
      }
      found := found[nodes[i].id := nodes[i]];
    }
    assert nodes[..|nodes|] == nodes;
    indexed := Some(found);
  }

  /** A graph is accepted exactly when its ids are distinct, its parents exist and it has no cycle. */
  method Accept(nodes: seq<Node>) returns (graph: Option<ProvenanceGraph>)
    ensures graph.Some? <==> UniqueIds(nodes) && Closed(Parents(ById(nodes))) && Acyclic(Parents(ById(nodes)))
    ensures graph.Some? ==> fresh(graph.value) && graph.value.Valid() && graph.value.nodes == ById(nodes)
  {
    hide Acyclic, Closed, UniqueIds, Parents;
    var indexed := IndexNodes(nodes);
    if indexed.None? {
      return None;
    }
    IndexedIds(nodes);
    IndexedParents(nodes);
    if exists i :: 0 <= i < |nodes| && !ParentsKnown(nodes[i], indexed.value) {
      return None;
    }
    var cycle := ValidateAcyclic(Parents(indexed.value), NodeIds(nodes));
    if cycle.Some? {
      return None;
    }
    var accepted := new ProvenanceGraph(indexed.value);
    graph := Some(accepted);
  }
}
