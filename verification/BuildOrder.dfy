/** Dependency-first ordering of a build plan with an explicit stack (src/reprobit/build.py). */
module BuildOrder {
  import opened Options
  import opened Graphs

  datatype Step<C> = Step(id: string, dependsOn: seq<string>, command: C)

  function Ids<C>(steps: seq<Step<C>>): seq<string> {
    seq(|steps|, i requires 0 <= i < |steps| => steps[i].id)
  }

  predicate UniqueIds<C>(plan: seq<Step<C>>) {
    forall i, j | 0 <= i < j < |plan| :: plan[i].id != plan[j].id
  }

  function ById<C>(plan: seq<Step<C>>): map<string, Step<C>>
    requires UniqueIds(plan)
  {
    map i | 0 <= i < |plan| :: plan[i].id := plan[i]
  }

  function Dependencies<C>(plan: seq<Step<C>>): Graph
    requires UniqueIds(plan)
  {
    map i | 0 <= i < |plan| :: plan[i].id := plan[i].dependsOn
  }

  /** What `BuildPlan` checks of its steps: unique ids, known dependencies, no cycle. */
  ghost predicate Accepted<C>(plan: seq<Step<C>>) {
    UniqueIds(plan) && Closed(Dependencies(plan)) && Acyclic(Dependencies(plan))
  }

  /** Recursive depth-first post-order over the steps in plan order. */
  function PostOrder<C>(plan: seq<Step<C>>): (order: Option<seq<string>>)
    requires UniqueIds(plan) && Closed(Dependencies(plan))
    ensures order.Some? ==> IsOrder(Dependencies(plan), order.value)
    ensures order.Some? ==> forall i | 0 <= i < |plan| :: plan[i].id in order.value
  {
    IdsAreNodes(plan);
    assert forall i | 0 <= i < |plan| :: plan[i].id == Ids(plan)[i] && plan[i].id in Ids(plan);
    VisitAll(Dependencies(plan), Ids(plan), [], [])
  }

  lemma {:induction false} IdsAreNodes<C>(plan: seq<Step<C>>)
    requires UniqueIds(plan)
    ensures forall id :: id in Ids(plan) <==> id in Dependencies(plan)
  {
    forall id ensures id in Ids(plan) <==> id in Dependencies(plan) {
      if id in Dependencies(plan) {
        var i :| 0 <= i < |plan| && plan[i].id == id;
        assert Ids(plan)[i] == id;
      }
      if id in Ids(plan) {
        var i :| 0 <= i < |Ids(plan)| && Ids(plan)[i] == id;
        assert plan[i].id == id;
      }
    }
  }

  // ---- The stack ------------------------------------------------------------

  /** A pending entry: a step to visit, or one whose dependencies were pushed above it. */
  datatype Entry = Entry(id: string, expanded: bool)

  predicate Known(graph: Graph, pending: seq<Entry>) {
    forall entry | entry in pending :: entry.id in graph
  }

  /** The recursive meaning of a stack, popped from its end. */
  function Drain(graph: Graph, pending: seq<Entry>, done: seq<string>): Option<seq<string>>
    requires Closed(graph) && Known(graph, pending)
    decreases |pending|
  {
    if pending == [] then Some(done)
    else
      var rest, top := pending[..|pending| - 1], pending[|pending| - 1];
      if top.expanded then Drain(graph, rest, if top.id in done then done else done + [top.id])
      else
        var visited := Visit(graph, top.id, [], done);
        if visited.None? then None else Drain(graph, rest, visited.value)
  }

  function Unexpanded(ids: seq<string>): (entries: seq<Entry>)
    ensures forall entry | entry in entries :: entry.id in ids
  {
    if ids == [] then [] else Unexpanded(ids[1..]) + [Entry(ids[0], false)]
  }

  /** Draining pushed dependencies is visiting them in their listed order. */
  lemma {:induction false} DrainsDependencies(graph: Graph, rest: seq<Entry>, ids: seq<string>, done: seq<string>)
    requires Closed(graph) && Known(graph, rest) && forall id | id in ids :: id in graph
    ensures
      var visited := VisitAll(graph, ids, [], done);
      Drain(graph, rest + Unexpanded(ids), done) == if visited.None? then None else Drain(graph, rest, visited.value)
  {
    if ids == [] {
      assert rest + Unexpanded(ids) == rest;
    } else {
      hide Drain, Visit;
      var below := rest + Unexpanded(ids[1..]);
      assert rest + Unexpanded(ids) == below + [Entry(ids[0], false)];
      DrainsTop(graph, below, ids[0], done);
      var visited := Visit(graph, ids[0], [], done);
      if visited.Some? {
        DrainsDependencies(graph, rest, ids[1..], visited.value);
      }
    }
  }

  lemma {:induction false} DrainsTop(graph: Graph, below: seq<Entry>, id: string, done: seq<string>)
    requires Closed(graph) && Known(graph, below) && id in graph
    ensures
      var visited := Visit(graph, id, [], done);
      Drain(graph, below + [Entry(id, false)], done) == if visited.None? then None
          else Drain(graph, below, visited.value)
  {
    hide Visit;
    assert (below + [Entry(id, false)])[..|below|] == below;
  }

  /** Replacing a step by itself and its dependencies does not change what the stack means. */
  lemma {:induction false} ExpandingKeepsMeaning(graph: Graph, rest: seq<Entry>, id: string, done: seq<string>)
    requires Closed(graph) && Known(graph, rest) && id in graph && id !in done
    requires Visit(graph, id, [], done).Some?
    ensures Drain(graph, rest + [Entry(id, true)] + Unexpanded(graph[id]), done) ==
            Drain(graph, rest + [Entry(id, false)], done)
  {
    var below, before := rest + [Entry(id, true)], rest + [Entry(id, false)];
    assert below[..|rest|] == before[..|rest|] == rest;
    var visited := VisitAll(graph, graph[id], [id], done);
    assert [] + [id] == [id];
    TrailIrrelevantForAll(graph, graph[id], [id], [], done);
    DrainsDependencies(graph, below, graph[id], done);
    assert id in [id];
  }

  // ---- Termination ------------------------------------------------------------

  ghost function Index(order: seq<string>, id: string): (i: nat)
    requires id in order
    ensures i < |order| && order[i] == id
  {
    var i :| 0 <= i < |order| && order[i] == id; i
  }

  /** An upper bound on the pops a step can cause. */
  ghost function Weight(graph: Graph, order: seq<string>, i: nat): nat
    requires IsOrder(graph, order) && i < |order|
    decreases i, |graph[order[i]]| + 1
  {
    2 + Weights(graph, order, graph[order[i]], i)
  }

  ghost function Weights(graph: Graph, order: seq<string>, ids: seq<string>, bound: nat): nat
    requires IsOrder(graph, order) && bound <= |order| && AllIn(ids, order[..bound])
    decreases bound, |ids|
  {
    if ids == [] then 0
    else
      assert ids[0] in order[..bound];
      Weight(graph, order, Index(order, ids[0])) + Weights(graph, order, ids[1..], bound)
  }

  ghost predicate Listed(order: seq<string>, pending: seq<Entry>) {
    forall entry | entry in pending :: entry.id in order
  }

  ghost function StackWeight(graph: Graph, order: seq<string>, pending: seq<Entry>): nat
    requires IsOrder(graph, order) && Listed(order, pending)
  {
    if pending == [] then 0
    else
      var top := pending[|pending| - 1];
      StackWeight(graph, order, pending[..|pending| - 1])
      + if top.expanded then 1 else Weight(graph, order, Index(order, top.id))
  }

  lemma {:induction false} PushedWeight(graph: Graph, order: seq<string>, rest: seq<Entry>, ids: seq<string>,
                                        bound: nat)
    requires IsOrder(graph, order) && Listed(order, rest) && bound <= |order| && AllIn(ids, order[..bound])
    ensures Listed(order, rest + Unexpanded(ids))
    ensures StackWeight(graph, order, rest + Unexpanded(ids)) ==
            StackWeight(graph, order, rest) + Weights(graph, order, ids, bound)
  {
    if ids == [] {
      assert rest + Unexpanded(ids) == rest;
    } else {
      hide Weight, IsOrder;
      var below := rest + Unexpanded(ids[1..]);
      var pending := below + [Entry(ids[0], false)];
      assert rest + Unexpanded(ids) == pending && pending[..|below|] == below;
      PushedWeight(graph, order, rest, ids[1..], bound);
      assert ids[0] in order[..bound];
    }
  }

  lemma {:induction false} ExpandingShrinks(graph: Graph, order: seq<string>, rest: seq<Entry>, id: string)
    requires IsOrder(graph, order) && Listed(order, rest) && id in order
    ensures
      var before, after := rest + [Entry(id, false)], rest + [Entry(id, true)] + Unexpanded(graph[id]);
      && Listed(order, before) && Listed(order, after)
      && StackWeight(graph, order, after) < StackWeight(graph, order, before)
  {
    var below, before := rest + [Entry(id, true)], rest + [Entry(id, false)];
    assert below[..|rest|] == before[..|rest|] == rest;
    PushedWeight(graph, order, below, graph[id], Index(order, id));
  }

  // ---- ordered_steps ------------------------------------------------------------

  ghost predicate Emitted<C>(byId: map<string, Step<C>>, result: seq<Step<C>>, seen: set<string>) {
    && (forall i | 0 <= i < |result| :: result[i].id in byId && byId[result[i].id] == result[i])
    && forall id :: id in seen <==> id in Ids(result)
  }

  lemma {:induction false} EmittedOneMore<C>(byId: map<string, Step<C>>, result: seq<Step<C>>, seen: set<string>,
                                             id: string)
    requires Emitted(byId, result, seen) && id in byId && byId[id].id == id
    ensures Emitted(byId, result + [byId[id]], seen + {id})
    ensures Ids(result + [byId[id]]) == Ids(result) + [id]
  {
    assert Ids(result + [byId[id]]) == Ids(result) + [id];
  }

  ghost predicate Describes<C>(graph: Graph, byId: map<string, Step<C>>) {
    && graph.Keys == byId.Keys
    && forall id | id in byId :: byId[id].id == id && byId[id].dependsOn == graph[id]
  }

  /** Pop, expand or emit until the stack is empty: one recursive visit. */
  method VisitWithStack<C>(byId: map<string, Step<C>>, ghost graph: Graph, ghost order: seq<string>, id: string,
                           prior: seq<Step<C>>, priorSeen: set<string>)
    returns (result: seq<Step<C>>, seen: set<string>)
    requires Closed(graph) && Describes(graph, byId) && IsOrder(graph, order)
    requires forall key | key in graph :: key in order
    requires id in byId && Visit(graph, id, [], Ids(prior)).Some? && Emitted(byId, prior, priorSeen)
    ensures Visit(graph, id, [], Ids(prior)) == Some(Ids(result))
    ensures Emitted(byId, result, seen)
  {
    hide Emitted, Visit, Ids, IsOrder;
    result, seen := prior, priorSeen;
    var pending := [Entry(id, false)];
    assert Drain(graph, pending, Ids(result)) == Visit(graph, id, [], Ids(prior)) by {
      assert pending[..0] == [];
    }
    while pending != []
      invariant Known(graph, pending) && Listed(order, pending)
      invariant Drain(graph, pending, Ids(result)) == Visit(graph, id, [], Ids(prior))
      invariant Emitted(byId, result, seen)
      decreases StackWeight(graph, order, pending)
    {
      var rest, top := pending[..|pending| - 1], pending[|pending| - 1];
      assert pending == rest + [top];
      SeenIsDone(byId, result, seen, top.id);
      if top.id in seen {
        PopsDone(graph, pending, Ids(result));
        pending := rest;
      } else if top.expanded {
        EmittedOneMore(byId, result, seen, top.id);
        pending := rest;
        seen := seen + {top.id};
        result := result + [byId[top.id]];
      } else {
        ExpandingKeepsMeaning(graph, rest, top.id, Ids(result));
        ExpandingShrinks(graph, order, rest, top.id);
        pending := rest + [Entry(top.id, true)] + Unexpanded(byId[top.id].dependsOn);
      }
    }
  }

  lemma SeenIsDone<C>(byId: map<string, Step<C>>, result: seq<Step<C>>, seen: set<string>, id: string)
    requires Emitted(byId, result, seen)
    ensures id in seen <==> id in Ids(result)
  {
  }

  lemma PopsDone(graph: Graph, pending: seq<Entry>, done: seq<string>)
    requires Closed(graph) && Known(graph, pending) && pending != [] && pending[|pending| - 1].id in done
    ensures Drain(graph, pending, done) == Drain(graph, pending[..|pending| - 1], done)
  {
  }

  lemma {:induction false} AcceptedIsSearched<C>(plan: seq<Step<C>>)
    requires Accepted(plan)
    ensures Describes(Dependencies(plan), ById(plan)) && PostOrder(plan).Some?
    ensures forall id | id in Dependencies(plan) :: id in PostOrder(plan).value
  {
    hide Visit, VisitAll;
    IdsAreNodes(plan);
    AcyclicIffSearched(Dependencies(plan), Ids(plan));
  }

  /** `BuildPlan.ordered_steps`: the recursive depth-first post-order of the plan. */
  method OrderedSteps<C>(plan: seq<Step<C>>) returns (result: seq<Step<C>>)
    requires Accepted(plan)
    ensures PostOrder(plan) == Some(Ids(result))
    ensures multiset(result) == multiset(plan)
    ensures forall i | 0 <= i < |result| :: AllIn(result[i].dependsOn, Ids(result[..i]))
  {
    AcceptedIsSearched(plan);
    IdsAreNodes(plan);
    result := VisitEach(ById(plan), Dependencies(plan), PostOrder(plan).value, Ids(plan));
    OrderIsTopological(plan, result);
  }

  method VisitEach<C>(byId: map<string, Step<C>>, ghost graph: Graph, ghost order: seq<string>, ids: seq<string>)
    returns (result: seq<Step<C>>)
    requires Closed(graph) && Describes(graph, byId) && IsOrder(graph, order)
    requires forall id | id in graph :: id in order
    requires forall id | id in ids :: id in graph
    requires VisitAll(graph, ids, [], []) == Some(order)
    ensures order == Ids(result)
    ensures forall i | 0 <= i < |result| :: result[i].id in byId && byId[result[i].id] == result[i]
  {
    hide Visit, IsOrder;
    result := [];
    var seen: set<string> := {};
    assert ids[0..] == ids && Ids(result) == [];
    for i := 0 to |ids|
      invariant VisitAll(graph, ids[i..], [], Ids(result)) == Some(order)
      invariant Emitted(byId, result, seen)
    {
      assert ids[i..][0] == ids[i] && ids[i..][1..] == ids[i + 1..];
      result, seen := VisitWithStack(byId, graph, order, ids[i], result, seen);
    }
  }

  // ---- What the order promises ----------------------------------------------------

  lemma {:induction false} Once<C>(steps: seq<Step<C>>, step: Step<C>)
    requires UniqueIds(steps)
    ensures multiset(steps)[step] == if step in steps then 1 else 0
  {
    if steps != [] {
      var n := |steps| - 1;
      assert steps == steps[..n] + [steps[n]];
      Once(steps[..n], step);
    }
  }

  lemma {:induction false} OrderedStepsAre<C>(plan: seq<Step<C>>, result: seq<Step<C>>)
    requires Accepted(plan) && PostOrder(plan) == Some(Ids(result))
    requires forall i | 0 <= i < |result| :: result[i] in plan
    ensures UniqueIds(result)
    ensures forall step :: step in plan <==> step in result
  {
    hide Visit, VisitAll;
    var order := Ids(result);
    assert forall i | 0 <= i < |result| :: order[i] == result[i].id;
    forall step ensures step in plan <==> step in result {
      if step in plan {
        var j :| 0 <= j < |order| && order[j] == step.id;
        assert result[j] in plan;
      }
    }
  }

  /** The order is a permutation of the plan in which every dependency comes earlier. */
  lemma {:induction false} OrderIsTopological<C>(plan: seq<Step<C>>, result: seq<Step<C>>)
    requires Accepted(plan) && PostOrder(plan) == Some(Ids(result))
    requires forall i | 0 <= i < |result| :: result[i] in plan
    ensures multiset(result) == multiset(plan)
    ensures forall i | 0 <= i < |result| :: AllIn(result[i].dependsOn, Ids(result[..i]))
  {
    hide Visit, VisitAll;
    OrderedStepsAre(plan, result);
    forall step ensures multiset(result)[step] == multiset(plan)[step] {
      Once(result, step);
      Once(plan, step);
    }
    var graph, order := Dependencies(plan), Ids(result);
    forall i | 0 <= i < |result| ensures AllIn(result[i].dependsOn, Ids(result[..i])) {
      assert AllIn(graph[order[i]], order[..i]);
      assert order[..i] == Ids(result[..i]);
      assert result[i] in plan && order[i] == result[i].id;
    }
  }

  /** A plan already in dependency order is left as it is. */
  lemma {:induction false} OrderedPlanUnchanged<C>(plan: seq<Step<C>>, result: seq<Step<C>>)
    requires Accepted(plan) && PostOrder(plan) == Some(Ids(result))
    requires forall i | 0 <= i < |result| :: result[i] in plan
    requires forall i | 0 <= i < |plan| :: AllIn(plan[i].dependsOn, Ids(plan)[..i])
    ensures result == plan
  {
    hide Visit, VisitAll, Dependencies;
    assert Ids(result) == Ids(plan) by {
      NothingMoves(plan, 0);
      assert Ids(plan)[0..] == Ids(plan) && Ids(plan)[..0] == [];
    }
    SameIdsSameSteps(plan, result);
  }

  lemma {:induction false} SameIdsSameSteps<C>(plan: seq<Step<C>>, result: seq<Step<C>>)
    requires UniqueIds(plan) && Ids(result) == Ids(plan)
    requires forall i | 0 <= i < |result| :: result[i] in plan
    ensures result == plan
  {
    assert |Ids(result)| == |result| && |Ids(plan)| == |plan|;
    forall i | 0 <= i < |plan| ensures result[i] == plan[i] {
      assert Ids(result)[i] == result[i].id && Ids(plan)[i] == plan[i].id;
      var j :| 0 <= j < |plan| && plan[j] == result[i];
    }
  }

  lemma {:induction false} NothingMoves<C>(plan: seq<Step<C>>, i: nat)
    requires Accepted(plan) && i <= |plan|
    requires forall k | 0 <= k < |plan| :: AllIn(plan[k].dependsOn, Ids(plan)[..k])
    ensures forall id | id in Ids(plan)[i..] :: id in Dependencies(plan)
    ensures VisitAll(Dependencies(plan), Ids(plan)[i..], [], Ids(plan)[..i]) == Some(Ids(plan))
    decreases |plan| - i
  {
    IdsAreNodes(plan);
    var graph, ids := Dependencies(plan), Ids(plan);
    if i < |plan| {
      NothingMoves(plan, i + 1);
      assert ids[i..][1..] == ids[i + 1..] && ids[..i] + [ids[i]] == ids[..i + 1];
      assert graph[ids[i]] == plan[i].dependsOn;
      NothingToVisit(graph, ids[i], ids[..i]);
    } else {
      assert ids[i..] == [] && ids[..i] == ids;
    }
  }

  lemma {:induction false} NothingToVisit(graph: Graph, node: string, done: seq<string>)
    requires Closed(graph) && node in graph && node !in done && AllIn(graph[node], done)
    ensures Visit(graph, node, [], done) == Some(done + [node])
  {
    AllDone(graph, graph[node], [] + [node], done);
  }

  lemma {:induction false} AllDone(graph: Graph, nodes: seq<string>, trail: seq<string>, done: seq<string>)
    requires Closed(graph) && AllIn(nodes, done) && forall node | node in nodes :: node in graph
    ensures VisitAll(graph, nodes, trail, done) == Some(done)
  {
    if nodes != [] {
      AllDone(graph, nodes[1..], trail, done);
    }
  }
}
