/** Entities of the orchestration layer and, as functions on values, what each service
    does to them in one call. The classes in `Services` are proved against these. */
module Models {
  import opened Graphs
  import opened Dataflow

  datatype NodeStatus = Waiting | Ready | Running | Completed | Failed | Cancelled | Paused
  datatype ControlStatus = RunRunning | RunPaused | RunCancelled | RunCompleted | RunFailed
  datatype StepStatus = StepPending | StepRunning | StepCompleted | StepFailed | StepSkipped

  /** The mutable part of a graph node; its dependencies live in the graph's shape. */
  datatype Node = Node(status: NodeStatus, result: Option<Payload>)

  /** The mutable part of a plan step. */
  datatype Step = Step(status: StepStatus, result: Option<Payload>)

  /** The node lists and the progress figure (in tenths of a percent) kept in the execution state. */
  datatype View = View(current: seq<Id>, completed: seq<Id>, failed: seq<Id>, waiting: seq<Id>, progress: nat)

  type Nodes = map<Id, Node>
  type Steps = map<Id, Step>

  predicate Terminal(s: NodeStatus) {
    s == Completed || s == Failed || s == Cancelled
  }

  predicate Idle(s: NodeStatus) {
    s == Waiting || s == Ready || s == Paused
  }

  // ---------- policies ----------

  predicate HasPending(nodes: Nodes) {
    exists id :: id in nodes && !Terminal(nodes[id].status)
  }

  predicate ShouldContinue(control: ControlStatus, nodes: Nodes) {
    control == RunRunning && HasPending(nodes)
  }

  /** The source tests for an empty graph first; such a graph has no failed node either. */
  predicate ShouldFail(nodes: Nodes) {
    && !HasPending(nodes)
    && exists id :: id in nodes && nodes[id].status == Failed
  }

  predicate CanPause(control: ControlStatus) { control == RunRunning }
  predicate CanResume(control: ControlStatus) { control == RunPaused }
  predicate CanCancel(control: ControlStatus) { control == RunRunning || control == RunPaused }

  // ---------- dependency resolver ----------

  predicate AnyDependencyFailed(g: Graph, nodes: Nodes, id: Id)
    requires id in g.deps
  {
    exists d :: d in g.deps[id] && d in nodes && (nodes[d].status == Failed || nodes[d].status == Cancelled)
  }

  predicate AllDependenciesCompleted(g: Graph, nodes: Nodes, id: Id)
    requires id in g.deps
  {
    forall d :: d in g.deps[id] ==> d in nodes && nodes[d].status == Completed
  }

  /** One node's status after a resolve; `nodes` is the snapshot taken before the loop. */
  function ResolvedStatus(g: Graph, nodes: Nodes, id: Id): NodeStatus
    requires id in nodes && id in g.deps
  {
    var status := nodes[id].status;
    if status != Waiting && status != Ready then status
    else if AnyDependencyFailed(g, nodes, id) then Failed
    else if AllDependenciesCompleted(g, nodes, id) then Ready
    else Waiting
  }

  function Resolved(g: Graph, nodes: Nodes): (r: Nodes)
    requires nodes.Keys == g.deps.Keys
    ensures r.Keys == nodes.Keys
  {
    map id | id in nodes :: nodes[id].(status := ResolvedStatus(g, nodes, id))
  }

  /** A resolve in the terms of the loop: a waiting or ready node fails when a dependency is among the failed
      or cancelled, is ready when all are among the completed, and waits otherwise; no other node changes. */
  lemma ResolvedExactly(g: Graph, nodes: Nodes, id: Id)
    requires nodes.Keys == g.deps.Keys && id in nodes
    ensures var deps := set d | d in g.deps[id];
      var completed := set d | d in nodes && nodes[d].status == Completed;
      var failedOrCancelled := set d | d in nodes && nodes[d].status in {Failed, Cancelled};
      var before, after := nodes[id], Resolved(g, nodes)[id];
      && after.result == before.result
      && after.status ==
           if before.status !in {Waiting, Ready} then before.status
           else if deps * failedOrCancelled != {} then Failed
           else if deps <= completed then Ready
           else Waiting
  {
    var deps := set d | d in g.deps[id];
    var completed := set d | d in nodes && nodes[d].status == Completed;
    var failedOrCancelled := set d | d in nodes && nodes[d].status in {Failed, Cancelled};
    assert deps * failedOrCancelled != {} <==> AnyDependencyFailed(g, nodes, id) by {
      if AnyDependencyFailed(g, nodes, id) {
        var d :| d in g.deps[id] && d in nodes && (nodes[d].status == Failed || nodes[d].status == Cancelled);
        assert d in deps * failedOrCancelled;
      }
    }
    assert deps <= completed <==> AllDependenciesCompleted(g, nodes, id) by {
      if deps <= completed {
        forall d | d in g.deps[id] ensures d in nodes && nodes[d].status == Completed {
          assert d in deps && d in completed;
        }
      }
    }
  }

  function ReadySet(nodes: Nodes): set<Id> {
    set id | id in nodes && nodes[id].status == Ready
  }

  // ---------- scheduler ----------

  function MarkRunning(nodes: Nodes, ids: set<Id>): (r: Nodes)
    ensures r.Keys == nodes.Keys
  {
    map id | id in nodes :: if id in ids then nodes[id].(status := Running) else nodes[id]
  }

  function MarkPaused(nodes: Nodes): (r: Nodes)
    ensures r.Keys == nodes.Keys
  {
    map id | id in nodes ::
      if nodes[id].status == Waiting || nodes[id].status == Ready then nodes[id].(status := Paused) else nodes[id]
  }

  function ResumePaused(nodes: Nodes): (r: Nodes)
    ensures r.Keys == nodes.Keys
  {
    map id | id in nodes :: if nodes[id].status == Paused then nodes[id].(status := Waiting) else nodes[id]
  }

  function MarkCancelled(nodes: Nodes): (r: Nodes)
    ensures r.Keys == nodes.Keys
  {
    map id | id in nodes :: if Idle(nodes[id].status) then nodes[id].(status := Cancelled) else nodes[id]
  }

  // ---------- state manager and progress tracker ----------

  /** The ids of `order` whose node has a status in `keep`, in that order. */
  function Select(order: seq<Id>, nodes: Nodes, keep: set<NodeStatus>): seq<Id> {
    if order == [] then []
    else
      var last := order[|order| - 1];
      Select(order[..|order| - 1], nodes, keep) + if last in nodes && nodes[last].status in keep then [last] else []
  }

  function CompletedCount(order: seq<Id>, nodes: Nodes): nat {
    |Select(order, nodes, {Completed})|
  }

  /** `a / n` rounded to the nearest integer, ties to even. */
  function RoundedQuotient(a: nat, n: nat): nat
    requires 0 < n
  {
    if 2 * n <= a then 2 + RoundedQuotient(a - 2 * n, n)
    else if 2 * a <= n then 0
    else if 2 * a < 3 * n then 1
    else 2
  }

  /** Percentage of completed nodes in tenths of a percent; 1000 is 100.0. */
  function Progress(order: seq<Id>, nodes: Nodes): nat {
    if order == [] then 1000 else RoundedQuotient(1000 * CompletedCount(order, nodes), |order|)
  }

  function Refreshed(order: seq<Id>, nodes: Nodes): View {
    View(Select(order, nodes, {Running}),
         Select(order, nodes, {Completed}),
         Select(order, nodes, {Failed}),
         Select(order, nodes, {Waiting, Ready, Paused}),
         Progress(order, nodes))
  }
}
