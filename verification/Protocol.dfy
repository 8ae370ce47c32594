/** One execution of a plan as a transition system.

    The orchestrator coroutine gives up control only while it sleeps and while a batch of nodes is in
    flight, so everything between the loop head and the next such point is one step. The three control
    calls (pause, resume, cancel) are one step each and may come at any of those points, and after the end.
    The calls mutate the very objects the loop works on. */
module Protocol {
  import opened Graphs
  import opened Dataflow
  import opened Models

  const MAX_STEP_RETRIES: nat := 3

  datatype Outcome = Returned(result: Payload) | Raised

  /** What is fixed for one run. `skill(id, payload, attempt)` is the arbitrary outcome of one attempt;
      `base(id)` is the step's payload before enrichment; `planned` holds the ids the plan has a step for. */
  datatype Config = Config(
    graph: Graph,
    planned: set<Id>,
    capability: Id -> string,
    base: Id -> Payload,
    skill: (Id, Payload, nat) -> Outcome)

  /** A node of the batch in flight: not begun, waiting for the outcome of an attempt, or done. */
  datatype Task = Starting | Attempting(attempt: nat, payload: Payload) | Settled

  datatype Report = ReportCompleted | ReportFailed | ReportCancelled

  datatype Phase = AtHead | InBatch | Asleep | Ended(report: Report)

  /** `pass` counts resolves made by the loop and `started` records in which pass a node was started;
      both are history only, no step looks at them. */
  datatype State = State(
    control: ControlStatus,
    nodes: Nodes,
    steps: Steps,
    tasks: map<Id, Task>,
    phase: Phase,
    view: View,
    pass: nat,
    started: map<Id, nat>)

  datatype Label = Iterate | Wake | Join | Advance(id: Id) | Pause | Resume | Cancel

  predicate IsControl(l: Label) {
    l == Pause || l == Resume || l == Cancel
  }

  /** The results enrichment may draw on: those of completed plan steps. */
  function CompletedResults(steps: Steps): map<Id, Payload> {
    map id | id in steps && steps[id].status == StepCompleted && steps[id].result.Some? :: steps[id].result.value
  }

  function PayloadFor(cfg: Config, steps: Steps, id: Id): Payload
    requires id in cfg.graph.deps
  {
    Enrich(cfg.capability(id), cfg.base(id), cfg.graph.deps[id], CompletedResults(steps))
  }

  ghost predicate Shaped(cfg: Config, s: State) {
    && WellFormed(cfg.graph)
    && s.nodes.Keys == cfg.graph.deps.Keys
    && s.steps.Keys == cfg.planned
    && s.tasks.Keys <= s.nodes.Keys
  }

  /** A run starts with every node waiting and no plan step completed. */
  ghost predicate Initial(cfg: Config, s: State) {
    && Shaped(cfg, s)
    && s.control == RunRunning && s.phase == AtHead && s.tasks == map[]
    && s.pass == 0 && s.started == map[]
    && (forall id :: id in s.nodes ==> s.nodes[id] == Node(Waiting, None))
    && (forall id :: id in s.steps ==> s.steps[id].status != StepCompleted)
    && s.view == Refreshed(cfg.graph.order, s.nodes)
  }

  ghost predicate Enabled(s: State, l: Label) {
    match l
    case Iterate => s.phase == AtHead
    case Wake => s.phase == Asleep
    case Join => s.phase == InBatch && forall id :: id in s.tasks ==> s.tasks[id] == Settled
    case Advance(id) => s.phase == InBatch && id in s.tasks && s.tasks[id] != Settled
    case _ => s.phase != AtHead
  }

  // ---------- the steps ----------

  ghost function FinalReport(control: ControlStatus, nodes: Nodes): Report {
    if control == RunCancelled then ReportCancelled
    else if ShouldFail(nodes) then ReportFailed
    else ReportCompleted
  }

  function FinalControl(report: Report): ControlStatus {
    match report
    case ReportCancelled => RunCancelled
    case ReportFailed => RunFailed
    case ReportCompleted => RunCompleted
  }

  /** The statements after the loop. */
  ghost function Finalised(cfg: Config, s: State): State {
    var report := FinalReport(s.control, s.nodes);
    s.(phase := Ended(report),
       control := FinalControl(report),
       view := s.view.(current := if report == ReportCancelled then s.view.current else [],
                       progress := Progress(cfg.graph.order, s.nodes)))
  }

  /** The loop resolves once more. */
  ghost function AfterResolve(cfg: Config, s: State): (r: State)
    requires Shaped(cfg, s)
    ensures Shaped(cfg, r)
  {
    s.(nodes := Resolved(cfg.graph, s.nodes), pass := s.pass + 1)
  }

  /** A batch is started: its nodes are marked running and the state is refreshed. */
  ghost function BatchStarted(cfg: Config, s: State): State {
    var ready := ReadySet(s.nodes);
    var nodes := MarkRunning(s.nodes, ready);
    s.(nodes := nodes,
       tasks := map id | id in ready :: Starting,
       phase := InBatch,
       view := Refreshed(cfg.graph.order, nodes),
       started := s.started + map id | id in ready :: s.pass)
  }

  /** One loop iteration up to its first suspension point. */
  ghost function Iterated(cfg: Config, s: State): (r: State)
    requires Shaped(cfg, s)
    ensures Shaped(cfg, r)
  {
    if !ShouldContinue(s.control, s.nodes) then Finalised(cfg, s)
    else
      var r := AfterResolve(cfg, s);
      if ReadySet(r.nodes) != {} then BatchStarted(cfg, r)
      else if !HasPending(r.nodes) then Finalised(cfg, r)
      else r.(phase := Asleep)
  }

  /** What one stretch of a node's coroutine makes of its node, of the plan steps and of its own state. */
  datatype Stretch = Stretch(node: Node, steps: Steps, task: Task)

  /** A next attempt: the step gets `status`, the payload is built, and the skill is called. */
  ghost function AttemptFrom(cfg: Config, node: Node, steps: Steps, id: Id, attempt: nat, status: StepStatus): Stretch
    requires id in cfg.graph.deps && id in steps
  {
    var marked := steps[id := steps[id].(status := status)];
    Stretch(node, marked, Attempting(attempt, PayloadFor(cfg, marked, id)))
  }

  /** The coroutine begins, or the outcome of an attempt arrives. */
  ghost function NextStretch(cfg: Config, node: Node, steps: Steps, task: Task, id: Id): (r: Stretch)
    requires id in cfg.graph.deps
    ensures r.steps.Keys == steps.Keys
  {
    match task
    case Settled => Stretch(node, steps, Settled)
    case Starting =>
      if id in steps then AttemptFrom(cfg, node, steps, id, 1, StepRunning)
      else Stretch(node.(status := Failed), steps, Settled)
    case Attempting(attempt, payload) =>
      if id !in steps then Stretch(node, steps, task)
      else match cfg.skill(id, payload, attempt)
        case Returned(result) =>
          Stretch(Node(Completed, Some(result)), steps[id := Step(StepCompleted, Some(result))], Settled)
        case Raised =>
          if attempt < MAX_STEP_RETRIES then AttemptFrom(cfg, node, steps, id, attempt + 1, StepPending)
          else Stretch(node.(status := Failed), steps[id := steps[id].(status := StepFailed)], Settled)
  }

  ghost function Advanced(cfg: Config, s: State, id: Id): (r: State)
    requires Shaped(cfg, s) && id in s.tasks
    ensures Shaped(cfg, r)
  {
    var r := NextStretch(cfg, s.nodes[id], s.steps, s.tasks[id], id);
    s.(nodes := s.nodes[id := r.node], steps := r.steps, tasks := s.tasks[id := r.task])
  }

  ghost function Joined(cfg: Config, s: State): State {
    s.(tasks := map[], phase := AtHead, view := Refreshed(cfg.graph.order, s.nodes))
  }

  ghost function WithControl(cfg: Config, s: State, control: ControlStatus, nodes: Nodes): State {
    s.(control := control, nodes := nodes, view := Refreshed(cfg.graph.order, nodes))
  }

  ghost function Controlled(cfg: Config, s: State, l: Label): State {
    match l
    case Pause => if CanPause(s.control) then WithControl(cfg, s, RunPaused, MarkPaused(s.nodes)) else s
    case Resume => if CanResume(s.control) then WithControl(cfg, s, RunRunning, ResumePaused(s.nodes)) else s
    case Cancel => if CanCancel(s.control) then WithControl(cfg, s, RunCancelled, MarkCancelled(s.nodes)) else s
    case _ => s
  }

  ghost function Apply(cfg: Config, s: State, l: Label): (r: State)
    requires Shaped(cfg, s) && Enabled(s, l)
    ensures Shaped(cfg, r)
  {
    match l
    case Iterate => Iterated(cfg, s)
    case Wake => s.(phase := AtHead)
    case Join => Joined(cfg, s)
    case Advance(id) => Advanced(cfg, s, id)
    case _ => Controlled(cfg, s, l)
  }

  // ---------- runs ----------

  ghost predicate IsRun(cfg: Config, s: State, ls: seq<Label>)
    requires Shaped(cfg, s)
    decreases |ls|, 0
  {
    ls == [] ||
    var before := ls[..|ls| - 1];
    IsRun(cfg, s, before) && Enabled(After(cfg, s, before), ls[|ls| - 1])
  }

  /** The state a run leads to. */
  ghost function After(cfg: Config, s: State, ls: seq<Label>): (r: State)
    requires Shaped(cfg, s) && IsRun(cfg, s, ls)
    ensures Shaped(cfg, r)
    decreases |ls|, 1
  {
    if ls == [] then s else Apply(cfg, After(cfg, s, ls[..|ls| - 1]), ls[|ls| - 1])
  }

  /** Extending a run by one step. */
  lemma RunStep(cfg: Config, s: State, ls: seq<Label>, l: Label)
    requires Shaped(cfg, s) && IsRun(cfg, s, ls)
    requires Enabled(After(cfg, s, ls), l)
    ensures IsRun(cfg, s, ls + [l])
    ensures After(cfg, s, ls + [l]) == Apply(cfg, After(cfg, s, ls), l)
  {
    assert (ls + [l])[..|ls|] == ls;
  }

  /** A run can be cut anywhere: its continuation is a run of its own from the state reached. */
  lemma {:induction false} RunSplit(cfg: Config, s: State, ls: seq<Label>, ms: seq<Label>)
    requires Shaped(cfg, s) && IsRun(cfg, s, ls + ms)
    ensures IsRun(cfg, s, ls) && IsRun(cfg, After(cfg, s, ls), ms)
    ensures After(cfg, s, ls + ms) == After(cfg, After(cfg, s, ls), ms)
    decreases |ms|
  {
    if ms == [] {
      assert ls + ms == ls;
    } else {
      var init := ms[..|ms| - 1];
      assert (ls + ms)[..|ls + ms| - 1] == ls + init;
      RunSplit(cfg, s, ls, init);
    }
  }
}
