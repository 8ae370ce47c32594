/** The mutable entities and the services that update them in place, each proved against the function on
    values that `Models` gives for it. */
module Services {
  import opened Graphs
  import opened Models
  import opened Ordering

  datatype PlanStatus = PlanDraft | PlanReady | PlanCompleted | PlanFailed

  /** A plan: ids and dependency lists of its steps, and their status and result. */
  class TaskPlan {
    const shape: Graph
    var steps: Steps
    var status: PlanStatus

    constructor (shape: Graph, steps: Steps)
      ensures this.shape == shape && this.steps == steps && status == PlanDraft
    {
      this.shape, this.steps, status := shape, steps, PlanDraft;
    }

    ghost predicate Valid()
      reads this
    {
      WellFormed(shape) && steps.Keys == shape.deps.Keys
    }
  }

  class ExecutionGraph {
    const shape: Graph
    var nodes: Nodes
    var executionOrder: seq<Id>

    ghost predicate Valid()
      reads this
    {
      WellFormed(shape) && nodes.Keys == shape.deps.Keys
    }

    /** `build_execution_graph`: one waiting node per plan step, and the execution order. */
    constructor (plan: TaskPlan)
      requires plan.Valid()
      ensures shape == plan.shape && Valid()
      ensures forall id :: id in nodes ==> nodes[id] == Node(Waiting, None)
      ensures executionOrder == Sorted(shape)
    {
      shape, nodes := plan.shape, map[];
      executionOrder := [];
      new;
      for i := 0 to |shape.order|
        invariant forall id :: id in nodes <==> id in shape.order[..i]
        invariant forall id :: id in nodes ==> nodes[id] == Node(Waiting, None)
      {
        nodes := nodes[shape.order[i] := Node(Waiting, None)];
      }
      executionOrder := TopologicalOrder(shape);
    }
  }

  class ExecutionState {
    var control: ControlStatus
    var currentNodes: seq<Id>
    var completedNodes: seq<Id>
    var failedNodes: seq<Id>
    var waitingNodes: seq<Id>
    var progress: nat

    ghost function Recorded(): View
      reads this
    {
      View(currentNodes, completedNodes, failedNodes, waitingNodes, progress)
    }

    /** `create_state`, and the progress its caller sets right after. */
    constructor (graph: ExecutionGraph)
      requires graph.Valid() && forall id :: id in graph.nodes ==> graph.nodes[id].status == Waiting
      ensures control == RunRunning && Recorded() == Refreshed(graph.shape.order, graph.nodes)
    {
      control := RunRunning;
      currentNodes, completedNodes, failedNodes := [], [], [];
      waitingNodes := Select(graph.shape.order, graph.nodes, {Waiting, Ready});
      progress := Progress(graph.shape.order, graph.nodes);
      new;
      AllWaiting(graph.shape.order, graph.nodes);
    }
  }

  lemma {:induction false} AllWaiting(order: seq<Id>, nodes: Nodes)
    requires forall id :: id in nodes ==> nodes[id].status == Waiting
    ensures Select(order, nodes, {Waiting, Ready}) == Select(order, nodes, {Waiting, Ready, Paused})
    ensures Select(order, nodes, {Running}) == Select(order, nodes, {Completed}) == Select(order, nodes, {Failed}) == []
  {
    if order != [] {
      AllWaiting(order[..|order| - 1], nodes);
    }
  }

  // ---------- dependency resolver ----------

  /** The node map while a loop over `order` is turning `before` into `after`, node by node. */
  ghost function Blend(before: Nodes, after: Nodes, changed: seq<Id>): (r: Nodes)
    ensures r.Keys == before.Keys
  {
    map id | id in before :: if id in changed && id in after then after[id] else before[id]
  }

  lemma BlendOneMore(before: Nodes, after: Nodes, order: seq<Id>, i: nat)
    requires Distinct(order) && i < |order| && order[i] in before && order[i] in after
    ensures Blend(before, after, order[..i])[order[i]] == before[order[i]]
    ensures Blend(before, after, order[..i + 1]) == Blend(before, after, order[..i])[order[i] := after[order[i]]]
  {
    assert order[..i + 1] == order[..i] + [order[i]];
    assert order[i] !in order[..i];
  }

  lemma BlendAll(before: Nodes, after: Nodes, order: seq<Id>)
    requires before.Keys == after.Keys && forall id :: id in before ==> id in order
    ensures Blend(before, after, order[..|order|]) == after
  {
    assert order[..|order|] == order;
  }

  lemma SelectOneMore(order: seq<Id>, i: nat, nodes: Nodes, keep: set<NodeStatus>)
    requires i < |order|
    ensures Select(order[..i + 1], nodes, keep) ==
      Select(order[..i], nodes, keep) + if order[i] in nodes && nodes[order[i]].status in keep then [order[i]] else []
  {
    assert order[..i + 1][..i] == order[..i];
  }

  lemma SelectAll(order: seq<Id>, nodes: Nodes, keep: set<NodeStatus>)
    ensures Select(order[..|order|], nodes, keep) == Select(order, nodes, keep)
  {
    assert order[..|order|] == order;
  }

  /** The loop body of `resolve` for one node, against the snapshot sets. */
  method ResolveNode(graph: ExecutionGraph, id: Id, completedIds: set<Id>, failedOrCancelled: set<Id>,
                     ghost before: Nodes)
    returns (status: NodeStatus, considered: bool)
    requires graph.Valid() && id in graph.nodes && before.Keys == graph.nodes.Keys && graph.nodes[id] == before[id]
    requires forall d :: d in completedIds <==> d in before && before[d].status == Completed
    requires forall d :: d in failedOrCancelled <==> d in before && before[d].status in {Failed, Cancelled}
    modifies graph`nodes
    ensures graph.nodes == old(graph.nodes)[id := Resolved(graph.shape, before)[id]]
    ensures status == graph.nodes[id].status
    ensures considered <==> before[id].status == Waiting || before[id].status == Ready
  {
    var node := graph.nodes[id];
    considered := !(node.status in {Completed, Running, Failed, Cancelled, Paused});
    if considered {
      if exists d :: d in graph.shape.deps[id] && d in failedOrCancelled {
        assert AnyDependencyFailed(graph.shape, before, id);
        graph.nodes := graph.nodes[id := node.(status := Failed)];
      } else if forall d :: d in graph.shape.deps[id] ==> d in completedIds {
        assert !AnyDependencyFailed(graph.shape, before, id) && AllDependenciesCompleted(graph.shape, before, id);
        graph.nodes := graph.nodes[id := node.(status := Ready)];
      } else {
        assert !AnyDependencyFailed(graph.shape, before, id) && !AllDependenciesCompleted(graph.shape, before, id);
        graph.nodes := graph.nodes[id := node.(status := Waiting)];
      }
    }
    status := graph.nodes[id].status;
  }

  /** `resolve`: statuses are decided against a snapshot taken before the loop. */
  method Resolve(graph: ExecutionGraph) returns (ready: seq<Id>, waiting: seq<Id>)
    requires graph.Valid()
    modifies graph`nodes
    ensures graph.Valid() && graph.nodes == Resolved(graph.shape, old(graph.nodes))
    ensures ready == Select(graph.shape.order, graph.nodes, {Ready})
    ensures waiting == Select(graph.shape.order, graph.nodes, {Waiting})
  {
    ready, waiting := [], [];
    var order := graph.shape.order;
    ghost var before, after := graph.nodes, Resolved(graph.shape, graph.nodes);
    var completedIds := set id | id in graph.nodes && graph.nodes[id].status == Completed;
    var failedOrCancelled := set id | id in graph.nodes && graph.nodes[id].status in {Failed, Cancelled};
    for i := 0 to |order|
      invariant ResolvedUpTo(before, after, order, i, graph.nodes, ready, waiting)
    {
      ResolvedOneMore(before, after, order, i, graph.nodes, ready, waiting);
      var status, considered := ResolveNode(graph, order[i], completedIds, failedOrCancelled, before);
      if considered && status == Ready {
        ready := ready + [order[i]];
      } else if considered && status == Waiting {
        waiting := waiting + [order[i]];
      }
    }
    ResolvedAll(before, after, order, graph.nodes, ready, waiting);
  }

  /** Where the loop of `resolve` stands before its `i`th node. */
  ghost predicate ResolvedUpTo(before: Nodes, after: Nodes, order: seq<Id>, i: nat, nodes: Nodes, ready: seq<Id>,
                               waiting: seq<Id>)
    requires i <= |order|
  {
    && nodes == Blend(before, after, order[..i])
    && ready == Select(order[..i], after, {Ready})
    && waiting == Select(order[..i], after, {Waiting})
  }

  lemma ResolvedOneMore(before: Nodes, after: Nodes, order: seq<Id>, i: nat, nodes: Nodes, ready: seq<Id>,
                        waiting: seq<Id>)
    requires Distinct(order) && i < |order| && order[i] in before && order[i] in after
    requires ResolvedUpTo(before, after, order, i, nodes, ready, waiting)
    ensures var id := order[i];
      && nodes.Keys == before.Keys && nodes[id] == before[id]
      && ResolvedUpTo(before, after, order, i + 1, nodes[id := after[id]],
                      if after[id].status == Ready then ready + [id] else ready,
                      if after[id].status == Waiting then waiting + [id] else waiting)
  {
    BlendOneMore(before, after, order, i);
    SelectOneMore(order, i, after, {Ready});
    SelectOneMore(order, i, after, {Waiting});
  }

  lemma ResolvedAll(before: Nodes, after: Nodes, order: seq<Id>, nodes: Nodes, ready: seq<Id>, waiting: seq<Id>)
    requires before.Keys == after.Keys && forall id :: id in before ==> id in order
    requires ResolvedUpTo(before, after, order, |order|, nodes, ready, waiting)
    ensures nodes == after
    ensures ready == Select(order, after, {Ready}) && waiting == Select(order, after, {Waiting})
  {
    BlendAll(before, after, order);
    SelectAll(order, after, {Ready});
    SelectAll(order, after, {Waiting});
  }

  // ---------- scheduler ----------

  function AsSet(ids: seq<Id>): set<Id> {
    set id | id in ids
  }

  method MarkNodesRunning(graph: ExecutionGraph, ids: seq<Id>) returns (running: seq<Id>)
    requires graph.Valid()
    modifies graph`nodes
    ensures graph.Valid() && graph.nodes == MarkRunning(old(graph.nodes), AsSet(ids))
    ensures forall id :: id in running <==> id in ids && id in graph.nodes
    ensures forall id :: id in graph.nodes ==>
      graph.nodes[id] == if id in ids then old(graph.nodes)[id].(status := Running) else old(graph.nodes)[id]
  {
    running := [];
    for i := 0 to |ids|
      invariant graph.Valid()
      invariant graph.nodes == MarkRunning(old(graph.nodes), AsSet(ids[..i]))
      invariant forall id :: id in running <==> id in ids[..i] && id in graph.nodes
    {
      var id := ids[i];
      assert ids[..i + 1] == ids[..i] + [id];
      if id in graph.nodes {
        graph.nodes := graph.nodes[id := graph.nodes[id].(status := Running)];
        running := running + [id];
      }
    }
    assert ids[..|ids|] == ids;
  }

  ghost function WithStatus(nodes: Nodes, from: set<NodeStatus>, to: NodeStatus): Nodes {
    map id | id in nodes :: if nodes[id].status in from then nodes[id].(status := to) else nodes[id]
  }

  method ChangeStatus(graph: ExecutionGraph, id: Id, from: set<NodeStatus>, to: NodeStatus) returns (hit: bool)
    requires graph.Valid() && id in graph.nodes
    modifies graph`nodes
    ensures hit <==> old(graph.nodes)[id].status in from
    ensures graph.nodes == old(graph.nodes)[id := WithStatus(old(graph.nodes), from, to)[id]]
  {
    hit := graph.nodes[id].status in from;
    if hit {
      graph.nodes := graph.nodes[id := graph.nodes[id].(status := to)];
    } else {
      assert graph.nodes[id := graph.nodes[id]] == graph.nodes;
    }
  }

  /** The loop that mark_paused, resume_paused and mark_cancelled share: every node whose status is in
      `from` gets the status `to`. */
  method ChangeStatuses(graph: ExecutionGraph, from: set<NodeStatus>, to: NodeStatus) returns (changed: seq<Id>)
    requires graph.Valid()
    modifies graph`nodes
    ensures graph.Valid() && graph.nodes == WithStatus(old(graph.nodes), from, to)
    ensures changed == Select(graph.shape.order, old(graph.nodes), from)
  {
    changed := [];
    var order := graph.shape.order;
    ghost var before, after := graph.nodes, WithStatus(graph.nodes, from, to);
    for i := 0 to |order|
      invariant ChangedUpTo(before, after, order, i, from, graph.nodes, changed)
    {
      ChangedOneMore(before, after, order, i, from, graph.nodes, changed);
      var hit := ChangeStatus(graph, order[i], from, to);
      if hit {
        changed := changed + [order[i]];
      }
    }
    ChangedAll(before, after, order, from, graph.nodes, changed);
  }

  /** Where that loop stands before its `i`th node. */
  ghost predicate ChangedUpTo(before: Nodes, after: Nodes, order: seq<Id>, i: nat, from: set<NodeStatus>, nodes: Nodes,
                              changed: seq<Id>)
    requires i <= |order|
  {
    nodes == Blend(before, after, order[..i]) && changed == Select(order[..i], before, from)
  }

  lemma ChangedOneMore(before: Nodes, after: Nodes, order: seq<Id>, i: nat, from: set<NodeStatus>, nodes: Nodes,
                       changed: seq<Id>)
    requires Distinct(order) && i < |order| && order[i] in before && order[i] in after
    requires ChangedUpTo(before, after, order, i, from, nodes, changed)
    ensures var id := order[i];
      && nodes.Keys == before.Keys && nodes[id] == before[id]
      && ChangedUpTo(before, after, order, i + 1, from, nodes[id := after[id]],
                     if before[id].status in from then changed + [id] else changed)
  {
    BlendOneMore(before, after, order, i);
    SelectOneMore(order, i, before, from);
  }

  lemma ChangedAll(before: Nodes, after: Nodes, order: seq<Id>, from: set<NodeStatus>, nodes: Nodes, changed: seq<Id>)
    requires before.Keys == after.Keys && forall id :: id in before ==> id in order
    requires ChangedUpTo(before, after, order, |order|, from, nodes, changed)
    ensures nodes == after && changed == Select(order, before, from)
  {
    BlendAll(before, after, order);
    SelectAll(order, before, from);
  }

  method MarkNodesPaused(graph: ExecutionGraph) returns (paused: seq<Id>)
    requires graph.Valid()
    modifies graph`nodes
    ensures graph.Valid() && graph.nodes == MarkPaused(old(graph.nodes))
    ensures paused == Select(graph.shape.order, old(graph.nodes), {Waiting, Ready})
    ensures forall id :: id in graph.nodes ==>
      var before := old(graph.nodes)[id];
      graph.nodes[id] == if before.status in {Waiting, Ready} then before.(status := Paused) else before
  {
    paused := ChangeStatuses(graph, {Waiting, Ready}, Paused);
  }

  method ResumePausedNodes(graph: ExecutionGraph)
    requires graph.Valid()
    modifies graph`nodes
    ensures graph.Valid() && graph.nodes == ResumePaused(old(graph.nodes))
    ensures forall id :: id in graph.nodes ==>
      var before := old(graph.nodes)[id];
      graph.nodes[id] == if before.status == Paused then before.(status := Waiting) else before
  {
    var resumed := ChangeStatuses(graph, {Paused}, Waiting);
  }

  method MarkNodesCancelled(graph: ExecutionGraph) returns (cancelled: seq<Id>)
    requires graph.Valid()
    modifies graph`nodes
    ensures graph.Valid() && graph.nodes == MarkCancelled(old(graph.nodes))
    ensures cancelled == Select(graph.shape.order, old(graph.nodes), {Waiting, Ready, Paused})
    ensures forall id :: id in graph.nodes ==>
      var before := old(graph.nodes)[id];
      graph.nodes[id] == if before.status in {Waiting, Ready, Paused} then before.(status := Cancelled) else before
  {
    cancelled := ChangeStatuses(graph, {Waiting, Ready, Paused}, Cancelled);
  }

  // ---------- state manager and progress tracker ----------

  /** `refresh` followed by the assignment of the computed progress, as the orchestrator always does. */
  method Refresh(state: ExecutionState, graph: ExecutionGraph)
    requires graph.Valid()
    modifies state
    ensures state.control == old(state.control)
    ensures state.Recorded() == Refreshed(graph.shape.order, graph.nodes)
  {
    state.currentNodes := Select(graph.shape.order, graph.nodes, {Running});
    state.completedNodes := Select(graph.shape.order, graph.nodes, {Completed});
    state.failedNodes := Select(graph.shape.order, graph.nodes, {Failed});
    state.waitingNodes := Select(graph.shape.order, graph.nodes, {Waiting, Ready, Paused});
    state.progress := Progress(graph.shape.order, graph.nodes);
  }

  /** The progress message has one line per node, in execution order, each showing the node's status. */
  method BuildTelegramProgress(graph: ExecutionGraph, progress: nat)
    returns (percent: nat, lines: seq<(Id, NodeStatus)>)
    requires graph.Valid() && graph.executionOrder == Sorted(graph.shape)
    ensures percent == progress / 10
    ensures |lines| == |graph.executionOrder| == |graph.shape.order|
    ensures forall i :: 0 <= i < |lines| ==>
      lines[i].0 == graph.executionOrder[i] && lines[i].0 in graph.nodes && lines[i].1 == graph.nodes[lines[i].0].status
    ensures forall id :: id in graph.nodes ==> id in graph.executionOrder
  {
    percent := progress / 10;
    lines := [];
    SortedIsKnown(graph.shape);
    for i := 0 to |graph.executionOrder|
      invariant |lines| == i
      invariant forall j :: 0 <= j < i ==>
        && lines[j].0 == graph.executionOrder[j] && lines[j].0 in graph.nodes
        && lines[j].1 == graph.nodes[lines[j].0].status
    {
      var id := graph.executionOrder[i];
      lines := lines + [(id, graph.nodes[id].status)];
    }
  }
}
