/** What every step of the protocol keeps, on any graph, cyclic or with missing dependencies. */
module Invariants {
  import opened Graphs
  import opened Models
  import opened Protocol
  import opened Evaluation

  /** Which node statuses can be seen under which control status. `Ready` is never seen: resolve and
      mark_running happen in one step. */
  predicate StatusFits(control: ControlStatus, status: NodeStatus) {
    match control
    case RunRunning => status != Ready && status != Paused && status != Cancelled
    case RunPaused => status != Ready && status != Waiting && status != Cancelled
    case RunCancelled => !Idle(status)
    case RunCompleted => status == Completed || status == Failed || status == Paused
    case RunFailed => status == Completed || status == Failed
  }

  predicate ControlFits(control: ControlStatus, phase: Phase) {
    match phase
    case Ended(ReportCompleted) => control == RunCompleted
    case Ended(ReportFailed) => control == RunFailed
    case Ended(ReportCancelled) => control == RunCancelled
    case _ => control == RunRunning || control == RunPaused || control == RunCancelled
  }

  /** Node `id` is being run right now. */
  predicate InFlight(s: State, id: Id) {
    id in s.tasks && s.tasks[id] != Settled
  }

  /** A node and its plan step agree on completion and on the result. */
  predicate StepAgrees(s: State, id: Id)
    requires id in s.nodes
  {
    if s.nodes[id].status == Completed
    then id in s.steps && s.steps[id].status == StepCompleted && s.nodes[id].result.Some?
         && s.steps[id].result == s.nodes[id].result
    else s.nodes[id].result.None? && (id in s.steps ==> s.steps[id].status != StepCompleted)
  }

  ghost predicate TaskOk(cfg: Config, s: State, id: Id)
    requires Shaped(cfg, s) && id in s.tasks
  {
    && s.phase == InBatch
    && AllDependenciesCompleted(cfg.graph, s.nodes, id)
    && (forall d :: d in cfg.graph.deps[id] ==> d !in s.tasks)
    && match s.tasks[id]
       case Starting => true
       case Attempting(attempt, _) => id in s.steps && 1 <= attempt <= MAX_STEP_RETRIES
       case Settled => s.nodes[id].status == Completed || s.nodes[id].status == Failed
  }

  /** A settled node has the outcome, and an attempt in flight is on the way to the outcome, that
      evaluation gives. */
  ghost predicate MatchesEval(cfg: Config, s: State, id: Id)
    requires id in s.nodes && Grounded(cfg.graph, id)
  {
    && (s.nodes[id].status == Completed ==> s.nodes[id].result == Eval(cfg, id))
    && (s.nodes[id].status == Failed ==> Eval(cfg, id).None?)
    && (id in s.tasks && s.tasks[id].Attempting? && 1 <= s.tasks[id].attempt <= MAX_STEP_RETRIES ==>
          && s.tasks[id].payload == EvalPayload(cfg, id)
          && Eval(cfg, id) == Attempts(cfg, id, s.tasks[id].payload, s.tasks[id].attempt))
  }

  ghost predicate Active(nodes: Nodes, id: Id)
    requires id in nodes
  {
    nodes[id].status == Running || nodes[id].status == Completed
  }

  ghost predicate NodeInv(cfg: Config, s: State, id: Id)
    requires Shaped(cfg, s) && id in s.nodes
  {
    && StatusFits(s.control, s.nodes[id].status)
    && (Active(s.nodes, id) ==> AllDependenciesCompleted(cfg.graph, s.nodes, id) && Grounded(cfg.graph, id))
    && (s.nodes[id].status == Running <==> InFlight(s, id))
    && StepAgrees(s, id)
    && (id in s.tasks ==> TaskOk(cfg, s, id))
    && (Grounded(cfg.graph, id) ==> MatchesEval(cfg, s, id))
  }

  ghost predicate Inv(cfg: Config, s: State) {
    && Shaped(cfg, s)
    && ControlFits(s.control, s.phase)
    && forall id {:trigger NodeInv(cfg, s, id)} :: id in s.nodes ==> NodeInv(cfg, s, id)
  }

  lemma InitialInv(cfg: Config, s: State)
    requires Initial(cfg, s)
    ensures Inv(cfg, s)
  {
  }

  /** Completed dependencies stay completed when no completed node changes. */
  lemma CompletedDepsSurvive(cfg: Config, s: State, t: State, id: Id)
    requires Shaped(cfg, s) && Shaped(cfg, t) && id in s.nodes && AllDependenciesCompleted(cfg.graph, s.nodes, id)
    requires forall d :: d in s.nodes && s.nodes[d].status == Completed ==> t.nodes[d].status == Completed
    ensures AllDependenciesCompleted(cfg.graph, t.nodes, id)
  {
  }

  /** A node whose outcome and attempt in flight stay the same still matches evaluation. */
  lemma MatchCarriesOver(cfg: Config, s: State, t: State, id: Id)
    requires id in s.nodes && id in t.nodes && Grounded(cfg.graph, id) && MatchesEval(cfg, s, id)
    requires t.nodes[id].result == s.nodes[id].result
    requires t.nodes[id].status == Completed || t.nodes[id].status == Failed ==>
      t.nodes[id].status == s.nodes[id].status
    requires id in t.tasks && t.tasks[id].Attempting? ==> id in s.tasks && t.tasks[id] == s.tasks[id]
    ensures MatchesEval(cfg, t, id)
  {
  }

  // ---------- loop iterations ----------

  /** A loop head where the loop goes on. */
  ghost predicate Continuing(cfg: Config, s: State) {
    Inv(cfg, s) && s.phase == AtHead && ShouldContinue(s.control, s.nodes)
  }

  /** The three ways an iteration that goes on can continue after its resolve. */
  lemma IterationIs(cfg: Config, s: State)
    requires Shaped(cfg, s) && ShouldContinue(s.control, s.nodes)
    ensures var r := AfterResolve(cfg, s);
      Iterated(cfg, s) ==
        if ReadySet(r.nodes) != {} then BatchStarted(cfg, r)
        else if HasPending(r.nodes) then r.(phase := Asleep)
        else Finalised(cfg, r)
  {
  }

  /** At a loop head no task exists and no node is running. */
  lemma HeadIsQuiet(cfg: Config, s: State)
    requires Inv(cfg, s) && s.phase != InBatch
    ensures s.tasks == map[]
    ensures forall id :: id in s.nodes ==> s.nodes[id].status != Running
  {
    forall id | id in s.nodes ensures id !in s.tasks && s.nodes[id].status != Running {
      assert NodeInv(cfg, s, id);
    }
  }

  /** What one resolve does to one node. */
  lemma ResolvePoint(cfg: Config, s: State, id: Id)
    requires Continuing(cfg, s) && id in s.nodes
    ensures var before, after := s.nodes[id], AfterResolve(cfg, s).nodes[id];
      && after.result == before.result
      && (before.status == Waiting || before.status == Completed || before.status == Failed)
      && (before.status != Waiting ==> after == before)
      && (after.status == Waiting || after.status == Ready || after.status == Completed || after.status == Failed)
      && (after.status == Completed ==> before.status == Completed)
      && (after.status == Ready ==> AllDependenciesCompleted(cfg.graph, s.nodes, id))
      && (after.status == Failed && before.status != Failed ==> AnyDependencyFailed(cfg.graph, s.nodes, id))
  {
    HeadIsQuiet(cfg, s);
    assert NodeInv(cfg, s, id);
  }

  lemma ResolveMatchesEval(cfg: Config, s: State, id: Id)
    requires Continuing(cfg, s) && id in s.nodes && Grounded(cfg.graph, id)
    ensures MatchesEval(cfg, AfterResolve(cfg, s), id)
  {
    var r := AfterResolve(cfg, s);
    ResolvePoint(cfg, s, id);
    assert NodeInv(cfg, s, id);
    if r.nodes[id].status == Failed && s.nodes[id].status != Failed {
      DepsAreShallower(cfg.graph, id);
      var d :|
        d in cfg.graph.deps[id] && d in s.nodes && (s.nodes[d].status == Failed || s.nodes[d].status == Cancelled);
      assert NodeInv(cfg, s, d);
      NoResultAfterFailedDependency(cfg, id, d);
      HeadIsQuiet(cfg, s);
    } else {
      MatchCarriesOver(cfg, s, r, id);
    }
  }

  lemma ResolveKeepsCompleted(cfg: Config, s: State)
    requires Continuing(cfg, s)
    ensures forall d :: d in s.nodes && s.nodes[d].status == Completed ==>
      AfterResolve(cfg, s).nodes[d].status == Completed
  {
  }

  lemma ResolveKeepsInv(cfg: Config, s: State, phase: Phase)
    requires Continuing(cfg, s) && ReadySet(AfterResolve(cfg, s).nodes) == {}
    requires ControlFits(s.control, phase)
    ensures Inv(cfg, AfterResolve(cfg, s).(phase := phase))
  {
    var r := AfterResolve(cfg, s);
    var t := r.(phase := phase);
    HeadIsQuiet(cfg, s);
    forall id | id in s.nodes ensures NodeInv(cfg, t, id) {
      ResolvePoint(cfg, s, id);
      assert id !in ReadySet(r.nodes);
      assert NodeInv(cfg, s, id);
      if Active(t.nodes, id) {
        ResolveKeepsCompleted(cfg, s);
        CompletedDepsSurvive(cfg, s, t, id);
      }
      if Grounded(cfg.graph, id) {
        ResolveMatchesEval(cfg, s, id);
        MatchCarriesOver(cfg, r, t, id);
      }
    }
  }

  lemma StartPoint(cfg: Config, s: State, id: Id)
    requires Continuing(cfg, s) && id in s.nodes
    ensures var r := AfterResolve(cfg, s);
      var t := BatchStarted(cfg, r);
      && id in t.nodes && t.nodes[id].result == s.nodes[id].result
      && (id in t.tasks <==> r.nodes[id].status == Ready)
      && (id in t.tasks ==> t.tasks[id] == Starting && s.nodes[id].status == Waiting && t.nodes[id].status == Running)
      && (id !in t.tasks ==> t.nodes[id] == r.nodes[id])
      && (s.nodes[id].status == Completed ==> t.nodes[id].status == Completed)
  {
    ResolvePoint(cfg, s, id);
  }

  /** A node that runs or has completed after a batch was started rests on nodes completed before. */
  lemma StartedOnCompletedDeps(cfg: Config, s: State, id: Id)
    requires Continuing(cfg, s) && id in s.nodes
    requires Active(BatchStarted(cfg, AfterResolve(cfg, s)).nodes, id)
    ensures var t := BatchStarted(cfg, AfterResolve(cfg, s));
      && AllDependenciesCompleted(cfg.graph, t.nodes, id)
      && (forall d :: d in cfg.graph.deps[id] ==> d !in t.tasks)
      && Grounded(cfg.graph, id)
  {
    var t := BatchStarted(cfg, AfterResolve(cfg, s));
    ResolvePoint(cfg, s, id);
    StartPoint(cfg, s, id);
    assert NodeInv(cfg, s, id);
    forall d | d in cfg.graph.deps[id]
      ensures d in t.nodes && t.nodes[d].status == Completed && d !in t.tasks && Grounded(cfg.graph, d)
    {
      StartPoint(cfg, s, d);
      assert NodeInv(cfg, s, d);
    }
    GroundedFromDeps(cfg.graph, id);
  }

  lemma StartKeepsNodeInv(cfg: Config, s: State, id: Id)
    requires Continuing(cfg, s) && id in s.nodes
    ensures NodeInv(cfg, BatchStarted(cfg, AfterResolve(cfg, s)), id)
  {
    var r := AfterResolve(cfg, s);
    var t := BatchStarted(cfg, r);
    ResolvePoint(cfg, s, id);
    StartPoint(cfg, s, id);
    if Active(t.nodes, id) {
      StartedOnCompletedDeps(cfg, s, id);
    }
    if Grounded(cfg.graph, id) {
      ResolveMatchesEval(cfg, s, id);
      MatchCarriesOver(cfg, r, t, id);
    }
    StartedNodeInv(cfg, s, t, id);
  }

  lemma StartedNodeInv(cfg: Config, s: State, t: State, id: Id)
    requires Inv(cfg, s) && Shaped(cfg, t) && id in s.nodes
    requires s.control == RunRunning && t.control == RunRunning && t.phase == InBatch && t.steps == s.steps
    requires t.nodes[id].result == s.nodes[id].result
    requires id in t.tasks ==>
      t.tasks[id] == Starting && s.nodes[id].status == Waiting && t.nodes[id].status == Running
    requires id !in t.tasks ==> s.nodes[id].status != Running
    requires id !in t.tasks && t.nodes[id] != s.nodes[id] ==>
      s.nodes[id].status == Waiting && (t.nodes[id].status == Waiting || t.nodes[id].status == Failed)
    requires Active(t.nodes, id) ==>
      && AllDependenciesCompleted(cfg.graph, t.nodes, id) && Grounded(cfg.graph, id)
      && forall d :: d in cfg.graph.deps[id] ==> d !in t.tasks
    requires Grounded(cfg.graph, id) ==> MatchesEval(cfg, t, id)
    ensures NodeInv(cfg, t, id)
  {
    assert NodeInv(cfg, s, id);
  }

  lemma StartKeepsInv(cfg: Config, s: State)
    requires Continuing(cfg, s)
    ensures Inv(cfg, BatchStarted(cfg, AfterResolve(cfg, s)))
  {
    forall id | id in s.nodes ensures NodeInv(cfg, BatchStarted(cfg, AfterResolve(cfg, s)), id) {
      StartKeepsNodeInv(cfg, s, id);
    }
  }

  lemma FinaliseKeepsInv(cfg: Config, s: State)
    requires Inv(cfg, s) && s.phase == AtHead
    requires s.control == RunRunning ==> !HasPending(s.nodes)
    ensures Inv(cfg, Finalised(cfg, s))
  {
    var t := Finalised(cfg, s);
    HeadIsQuiet(cfg, s);
    forall id | id in s.nodes ensures NodeInv(cfg, t, id) {
      assert NodeInv(cfg, s, id);
      if Grounded(cfg.graph, id) {
        MatchCarriesOver(cfg, s, t, id);
      }
    }
  }

  lemma IterateKeepsInv(cfg: Config, s: State)
    requires Inv(cfg, s) && s.phase == AtHead
    ensures Inv(cfg, Iterated(cfg, s))
  {
    if !ShouldContinue(s.control, s.nodes) {
      FinaliseKeepsInv(cfg, s);
    } else {
      var r := AfterResolve(cfg, s);
      if ReadySet(r.nodes) != {} {
        StartKeepsInv(cfg, s);
      } else if !HasPending(r.nodes) {
        ResolveKeepsInv(cfg, s, AtHead);
        FinaliseKeepsInv(cfg, r);
      } else {
        ResolveKeepsInv(cfg, s, Asleep);
      }
    }
  }

  // ---------- the batch in flight ----------

  /** Advancing one node leaves every other node, plan step and task alone. */
  lemma AdvanceIsLocal(cfg: Config, s: State, id: Id, other: Id)
    requires Shaped(cfg, s) && id in s.tasks && other != id
    ensures var t := Advanced(cfg, s, id);
      && (other in s.nodes ==> other in t.nodes && t.nodes[other] == s.nodes[other])
      && (other in t.nodes ==> other in s.nodes)
      && (other in s.steps <==> other in t.steps)
      && (other in s.steps ==> t.steps[other] == s.steps[other])
      && (other in s.tasks <==> other in t.tasks)
      && (other in s.tasks ==> t.tasks[other] == s.tasks[other])
  {
  }

  /** What advancing does to the node itself. */
  lemma AdvancePoint(cfg: Config, s: State, id: Id)
    requires Inv(cfg, s) && Enabled(s, Advance(id))
    ensures s.nodes[id].status == Running && s.nodes[id].result.None?
    ensures var t := Advanced(cfg, s, id);
      && t.control == s.control && t.phase == s.phase && t.nodes.Keys == s.nodes.Keys
      && t.tasks.Keys == s.tasks.Keys
      && StepAgrees(t, id)
      && match t.tasks[id]
         case Starting => false
         case Attempting(attempt, _) => t.nodes[id] == s.nodes[id] && id in t.steps && 1 <= attempt <= MAX_STEP_RETRIES
         case Settled => t.nodes[id].status == Completed || t.nodes[id].status == Failed
  {
    assert NodeInv(cfg, s, id);
  }

  /** The payload an attempt of a running node gets is the one evaluation uses, whatever the rest of
      the batch is doing at that moment. */
  lemma AttemptPayload(cfg: Config, s: State, steps: Steps, id: Id)
    requires Inv(cfg, s) && id in s.nodes && s.nodes[id].status == Running && id in cfg.planned
    requires forall d :: d in s.steps && d != id ==> d in steps && steps[d] == s.steps[d]
    ensures Grounded(cfg.graph, id) && id in cfg.graph.deps
    ensures PayloadFor(cfg, steps, id) == EvalPayload(cfg, id)
    ensures Eval(cfg, id) == Attempts(cfg, id, EvalPayload(cfg, id), 1)
  {
    assert NodeInv(cfg, s, id);
    DepsAreShallower(cfg.graph, id);
    forall d | d in cfg.graph.deps[id]
      ensures Eval(cfg, d).Some? && d in CompletedResults(steps) && CompletedResults(steps)[d] == Eval(cfg, d).value
    {
      assert NodeInv(cfg, s, d);
    }
    EvalIsAttempts(cfg, id);
    PayloadIsEvalPayload(cfg, steps, id);
  }

  /** One stretch leads to the outcome evaluation gives, or to an attempt on the way to it. */
  lemma StretchMatchesEval(cfg: Config, node: Node, steps: Steps, task: Task, id: Id)
    requires Grounded(cfg.graph, id) && id in cfg.graph.deps && id in steps && task != Settled
    requires Eval(cfg, id) == Attempts(cfg, id, EvalPayload(cfg, id), 1)
    requires PayloadFor(cfg, NextStretch(cfg, node, steps, task, id).steps, id) == EvalPayload(cfg, id)
    requires task.Attempting? ==> 1 <= task.attempt <= MAX_STEP_RETRIES && task.payload == EvalPayload(cfg, id)
    requires task.Attempting? ==> Eval(cfg, id) == Attempts(cfg, id, task.payload, task.attempt)
    ensures match NextStretch(cfg, node, steps, task, id).task
      case Starting => false
      case Attempting(attempt, payload) =>
        1 <= attempt <= MAX_STEP_RETRIES && payload == EvalPayload(cfg, id)
        && Eval(cfg, id) == Attempts(cfg, id, payload, attempt) && NextStretch(cfg, node, steps, task, id).node == node
      case Settled => match Eval(cfg, id)
        case Some(result) => NextStretch(cfg, node, steps, task, id).node == Node(Completed, Some(result))
        case None => NextStretch(cfg, node, steps, task, id).node == node.(status := Failed)
  {
  }

  lemma AdvanceMatchesEval(cfg: Config, s: State, id: Id)
    requires Inv(cfg, s) && Enabled(s, Advance(id))
    ensures Grounded(cfg.graph, id) && MatchesEval(cfg, Advanced(cfg, s, id), id)
  {
    assert NodeInv(cfg, s, id);
    if id in cfg.planned {
      AttemptPayload(cfg, s, NextStretch(cfg, s.nodes[id], s.steps, s.tasks[id], id).steps, id);
      StretchMatchesEval(cfg, s.nodes[id], s.steps, s.tasks[id], id);
    } else {
      assert Eval(cfg, id).None?;
    }
  }

  lemma AdvanceKeepsInv(cfg: Config, s: State, id: Id)
    requires Inv(cfg, s) && Enabled(s, Advance(id))
    ensures Inv(cfg, Advanced(cfg, s, id))
  {
    var t := Advanced(cfg, s, id);
    AdvancePoint(cfg, s, id);
    AdvanceKeepsCompleted(cfg, s, id);
    forall other | other in s.nodes ensures NodeInv(cfg, t, other) {
      if other == id { AdvanceKeepsOwn(cfg, s, id); } else { AdvanceKeepsOther(cfg, s, id, other); }
    }
  }

  lemma AdvanceKeepsCompleted(cfg: Config, s: State, id: Id)
    requires Inv(cfg, s) && Enabled(s, Advance(id))
    ensures forall d :: d in s.nodes && s.nodes[d].status == Completed ==>
      Advanced(cfg, s, id).nodes[d].status == Completed
  {
    AdvancePoint(cfg, s, id);
    forall d | d in s.nodes && s.nodes[d].status == Completed
      ensures Advanced(cfg, s, id).nodes[d].status == Completed
    {
      if d != id { AdvanceIsLocal(cfg, s, id, d); }
    }
  }

  lemma AdvanceKeepsOwn(cfg: Config, s: State, id: Id)
    requires Inv(cfg, s) && Enabled(s, Advance(id))
    ensures NodeInv(cfg, Advanced(cfg, s, id), id)
  {
    assert NodeInv(cfg, s, id);
    AdvancePoint(cfg, s, id);
    AdvanceKeepsCompleted(cfg, s, id);
    CompletedDepsSurvive(cfg, s, Advanced(cfg, s, id), id);
    AdvanceMatchesEval(cfg, s, id);
  }

  lemma AdvanceKeepsOther(cfg: Config, s: State, id: Id, other: Id)
    requires Inv(cfg, s) && Enabled(s, Advance(id)) && other in s.nodes && other != id
    ensures other in Advanced(cfg, s, id).nodes && NodeInv(cfg, Advanced(cfg, s, id), other)
  {
    var t := Advanced(cfg, s, id);
    assert NodeInv(cfg, s, other);
    AdvancePoint(cfg, s, id);
    AdvanceKeepsCompleted(cfg, s, id);
    AdvanceIsLocal(cfg, s, id, other);
    if AllDependenciesCompleted(cfg.graph, s.nodes, other) {
      CompletedDepsSurvive(cfg, s, t, other);
    }
    if Grounded(cfg.graph, other) {
      MatchCarriesOver(cfg, s, t, other);
    }
  }

  lemma JoinKeepsInv(cfg: Config, s: State)
    requires Inv(cfg, s) && Enabled(s, Join)
    ensures Inv(cfg, Joined(cfg, s))
  {
    var t := Joined(cfg, s);
    forall id | id in s.nodes ensures NodeInv(cfg, t, id) {
      assert NodeInv(cfg, s, id);
      if Grounded(cfg.graph, id) {
        MatchCarriesOver(cfg, s, t, id);
      }
    }
  }

  lemma WakeKeepsInv(cfg: Config, s: State)
    requires Inv(cfg, s) && Enabled(s, Wake)
    ensures Inv(cfg, s.(phase := AtHead))
  {
    var t := s.(phase := AtHead);
    HeadIsQuiet(cfg, s);
    forall id | id in s.nodes ensures NodeInv(cfg, t, id) {
      assert NodeInv(cfg, s, id);
      if Grounded(cfg.graph, id) {
        MatchCarriesOver(cfg, s, t, id);
      }
    }
  }

  // ---------- control calls ----------

  /** A control call touches idle nodes only. */
  lemma FitsHere(cfg: Config, s: State, id: Id)
    requires Inv(cfg, s) && id in s.nodes
    ensures StatusFits(s.control, s.nodes[id].status)
  {
    assert NodeInv(cfg, s, id);
  }

  /** What a control call does to one node. */
  ghost predicate ControlledNode(s: State, t: State, id: Id)
    requires id in s.nodes && id in t.nodes
  {
    && t.nodes[id].result == s.nodes[id].result
    && (!Idle(s.nodes[id].status) ==> t.nodes[id] == s.nodes[id])
    && (Idle(s.nodes[id].status) ==> Idle(t.nodes[id].status) || t.nodes[id].status == Cancelled)
    && StatusFits(t.control, t.nodes[id].status)
  }

  lemma ControlOfFittingNode(cfg: Config, s: State, l: Label, id: Id)
    requires Shaped(cfg, s) && IsControl(l) && id in s.nodes && StatusFits(s.control, s.nodes[id].status)
    ensures ControlledNode(s, Controlled(cfg, s, l), id)
  {
  }

  lemma ControlPoint(cfg: Config, s: State, l: Label, id: Id)
    requires Inv(cfg, s) && IsControl(l) && Enabled(s, l) && id in s.nodes
    ensures var t := Controlled(cfg, s, l);
      ControlledNode(s, t, id) && t.tasks == s.tasks && t.steps == s.steps && t.phase == s.phase
  {
    FitsHere(cfg, s, id);
    ControlOfFittingNode(cfg, s, l, id);
  }

  lemma ControlKeepsInv(cfg: Config, s: State, l: Label)
    requires Inv(cfg, s) && IsControl(l) && Enabled(s, l)
    ensures Inv(cfg, Controlled(cfg, s, l))
  {
    var t := Controlled(cfg, s, l);
    forall id | id in s.nodes ensures NodeInv(cfg, t, id) {
      ControlKeepsNodeInv(cfg, s, l, id);
    }
  }

  lemma ControlKeepsNodeInv(cfg: Config, s: State, l: Label, id: Id)
    requires Inv(cfg, s) && IsControl(l) && Enabled(s, l) && id in s.nodes
    requires Shaped(cfg, Controlled(cfg, s, l))
    ensures NodeInv(cfg, Controlled(cfg, s, l), id)
  {
    var t := Controlled(cfg, s, l);
    forall d | d in s.nodes && s.nodes[d].status == Completed ensures t.nodes[d].status == Completed {
      ControlPoint(cfg, s, l, d);
    }
    ControlPoint(cfg, s, l, id);
    IdleChangeKeepsNodeInv(cfg, s, t, id);
  }

  lemma IdleChangeKeepsNodeInv(cfg: Config, s: State, t: State, id: Id)
    requires Inv(cfg, s) && Shaped(cfg, t) && id in s.nodes
    requires t.tasks == s.tasks && t.steps == s.steps && t.phase == s.phase
    requires t.nodes[id].result == s.nodes[id].result && StatusFits(t.control, t.nodes[id].status)
    requires if Idle(s.nodes[id].status) then Idle(t.nodes[id].status) || t.nodes[id].status == Cancelled
             else t.nodes[id] == s.nodes[id]
    requires forall d :: d in s.nodes && s.nodes[d].status == Completed ==> t.nodes[d].status == Completed
    ensures NodeInv(cfg, t, id)
  {
    assert NodeInv(cfg, s, id);
    if AllDependenciesCompleted(cfg.graph, s.nodes, id) {
      CompletedDepsSurvive(cfg, s, t, id);
    }
    if Grounded(cfg.graph, id) {
      MatchCarriesOver(cfg, s, t, id);
    }
  }

  // ---------- every step, every run ----------

  lemma StepKeepsInv(cfg: Config, s: State, l: Label)
    requires Inv(cfg, s) && Enabled(s, l)
    ensures Inv(cfg, Apply(cfg, s, l))
  {
    match l
    case Iterate => IterateKeepsInv(cfg, s);
    case Wake => WakeKeepsInv(cfg, s);
    case Join => JoinKeepsInv(cfg, s);
    case Advance(id) => AdvanceKeepsInv(cfg, s, id);
    case _ => ControlKeepsInv(cfg, s, l);
  }

  lemma {:induction false} RunKeepsInv(cfg: Config, s: State, ls: seq<Label>)
    requires Inv(cfg, s) && IsRun(cfg, s, ls)
    ensures Inv(cfg, After(cfg, s, ls))
  {
    if ls != [] {
      var before := ls[..|ls| - 1];
      RunKeepsInv(cfg, s, before);
      StepKeepsInv(cfg, After(cfg, s, before), ls[|ls| - 1]);
    }
  }
}
