/** The orchestrator itself: the execute loop, the coroutine of a node, and the three control calls, as
    methods on the shared mutable objects. Every execution is shown to be a run of `Protocol`. */
module Engine {
  import opened Graphs
  import opened Dataflow
  import opened Models
  import opened Protocol
  import opened Evaluation
  import opened Invariants
  import opened Termination
  import opened Outcomes
  import opened Services
  import Validator
  import Recorded

  /** What the store keeps for an execution: the same graph, state and plan objects the loop works on.
      `tasks` is the state of the coroutines gathered, and the ghost fields follow the run. */
  class ExecutionRecord {
    const graph: ExecutionGraph
    const state: ExecutionState
    const plan: TaskPlan
    var tasks: map<Id, Task>
    ghost var phase: Phase
    ghost var pass: nat
    ghost var started: map<Id, nat>

    constructor (graph: ExecutionGraph, state: ExecutionState, plan: TaskPlan)
      ensures this.graph == graph && this.state == state && this.plan == plan
      ensures tasks == map[] && phase == AtHead && pass == 0 && started == map[]
    {
      this.graph, this.state, this.plan := graph, state, plan;
      tasks, phase, pass, started := map[], AtHead, 0, map[];
    }

    /** The protocol state these objects represent. */
    ghost function Abs(): State
      reads this, graph, state, plan
    {
      State(state.control, graph.nodes, plan.steps, tasks, phase, state.Recorded(), pass, started)
    }

    /** The record belongs to a run of `cfg`. */
    ghost predicate Represents(cfg: Config)
      reads this, graph, state, plan
    {
      graph.Valid() && graph.shape == cfg.graph && Inv(cfg, Abs())
    }

    // ---------- control calls ----------

    method PauseExecution(cfg: Config) returns (accepted: bool)
      requires Represents(cfg) && Enabled(Abs(), Pause)
      modifies graph`nodes, state
      ensures accepted <==> old(state.control) == RunRunning
      ensures Represents(cfg) && Abs() == Controlled(cfg, old(Abs()), Pause)
    {
      ControlKeepsInv(cfg, Abs(), Pause);
      accepted := CanPause(state.control);
      if accepted {
        state.control := RunPaused;
        var paused := MarkNodesPaused(graph);
        Refresh(state, graph);
      }
    }

    method ResumeExecution(cfg: Config) returns (accepted: bool)
      requires Represents(cfg) && Enabled(Abs(), Resume)
      modifies graph`nodes, state
      ensures accepted <==> old(state.control) == RunPaused
      ensures Represents(cfg) && Abs() == Controlled(cfg, old(Abs()), Resume)
    {
      ControlKeepsInv(cfg, Abs(), Resume);
      accepted := CanResume(state.control);
      if accepted {
        ResumePausedNodes(graph);
        state.control := RunRunning;
        Refresh(state, graph);
      }
    }

    method CancelExecution(cfg: Config) returns (accepted: bool)
      requires Represents(cfg) && Enabled(Abs(), Cancel)
      modifies graph`nodes, state
      ensures accepted <==> old(state.control) == RunRunning || old(state.control) == RunPaused
      ensures Represents(cfg) && Abs() == Controlled(cfg, old(Abs()), Cancel)
    {
      ControlKeepsInv(cfg, Abs(), Cancel);
      accepted := CanCancel(state.control);
      if accepted {
        var cancelled := MarkNodesCancelled(graph);
        state.control := RunCancelled;
        Refresh(state, graph);
      }
    }

    // ---------- the coroutine of one node ----------

    /** `_run_node` and `_run_step_with_retry` from one suspension point to the next. */
    method ResumeNode(cfg: Config, id: Id)
      requires Represents(cfg) && Enabled(Abs(), Advance(id))
      modifies this`tasks, graph`nodes, plan`steps
      ensures Represents(cfg) && Abs() == Advanced(cfg, old(Abs()), id)
    {
      AdvanceKeepsInv(cfg, Abs(), id);
      assert NodeInv(cfg, Abs(), id);
      if tasks[id].Starting? {
        BeginNode(cfg, id);
      } else {
        ReceiveOutcome(cfg, id);
      }
    }

    /** From the start of the coroutine to the first attempt. */
    method BeginNode(cfg: Config, id: Id)
      requires Shaped(cfg, Abs()) && id in tasks && tasks[id] == Starting
      modifies this`tasks, graph`nodes, plan`steps
      ensures Abs() == Advanced(cfg, old(Abs()), id)
    {
      if id !in plan.steps {
        graph.nodes := graph.nodes[id := graph.nodes[id].(status := Failed)];
        tasks := tasks[id := Settled];
      } else {
        plan.steps := plan.steps[id := plan.steps[id].(status := StepRunning)];
        BeginAttempt(cfg, id, 1);
        assert graph.nodes[id := graph.nodes[id]] == graph.nodes;
      }
    }

    /** From the outcome of an attempt to the next attempt, or to the end of the coroutine. */
    method ReceiveOutcome(cfg: Config, id: Id)
      requires Shaped(cfg, Abs()) && id in tasks && tasks[id].Attempting? && id in plan.steps
      modifies this`tasks, graph`nodes, plan`steps
      ensures Abs() == Advanced(cfg, old(Abs()), id)
    {
      var attempt, outcome := tasks[id].attempt, cfg.skill(id, tasks[id].payload, tasks[id].attempt);
      if outcome.Returned? {
        plan.steps := plan.steps[id := Step(StepCompleted, Some(outcome.result))];
        graph.nodes := graph.nodes[id := Node(Completed, Some(outcome.result))];
        tasks := tasks[id := Settled];
      } else {
        AttemptFailed(cfg, id, attempt);
      }
    }

    /** The attempt raised: the step is reset for the next one, or the node fails. */
    method AttemptFailed(cfg: Config, id: Id, attempt: nat)
      requires Shaped(cfg, Abs()) && id in plan.steps
      requires id in tasks && tasks[id].Attempting? && tasks[id].attempt == attempt
      requires cfg.skill(id, tasks[id].payload, attempt) == Raised
      modifies this`tasks, graph`nodes, plan`steps
      ensures Abs() == Advanced(cfg, old(Abs()), id)
    {
      ghost var before := plan.steps[id];
      plan.steps := plan.steps[id := plan.steps[id].(status := StepFailed)];
      if attempt < MAX_STEP_RETRIES {
        Retry(cfg, id, attempt);
        assert plan.steps == old(plan.steps)[id := before.(status := StepPending)];
        assert graph.nodes[id := graph.nodes[id]] == graph.nodes;
      } else {
        graph.nodes := graph.nodes[id := graph.nodes[id].(status := Failed)];
        tasks := tasks[id := Settled];
      }
    }

    method Retry(cfg: Config, id: Id, attempt: nat)
      requires id in cfg.graph.deps && id in plan.steps
      modifies this`tasks, plan`steps
      ensures plan.steps == old(plan.steps)[id := old(plan.steps)[id].(status := StepPending)]
      ensures tasks == old(tasks)[id := Attempting(attempt + 1, PayloadFor(cfg, plan.steps, id))]
    {
      plan.steps := plan.steps[id := plan.steps[id].(status := StepPending)];
      BeginAttempt(cfg, id, attempt + 1);
    }

    /** The payload of an attempt is built, and the skill called. */
    method BeginAttempt(cfg: Config, id: Id, attempt: nat)
      requires id in cfg.graph.deps
      modifies this`tasks
      ensures tasks == old(tasks)[id := Attempting(attempt, PayloadFor(cfg, plan.steps, id))]
    {
      var done := CompletedResults(plan.steps);
      var payload := EnrichPayload(cfg.capability(id), cfg.base(id), cfg.graph.deps[id], done);
      tasks := tasks[id := Attempting(attempt, payload)];
    }

    // ---------- suspension points ----------

    /** One control call, as it arrives from outside. */
    method HandleControl(cfg: Config, l: Label)
      requires Represents(cfg) && IsControl(l) && Enabled(Abs(), l)
      modifies graph`nodes, state
      ensures Represents(cfg) && Abs() == Controlled(cfg, old(Abs()), l)
    {
      var accepted;
      match l
      case Pause => accepted := PauseExecution(cfg);
      case Resume => accepted := ResumeExecution(cfg);
      case Cancel => accepted := CancelExecution(cfg);
    }

    /** A control call that arrives while the loop is suspended is one more step of the run. */
    method TakeControl(cfg: Config, l: Label, ghost s: State, ghost ls: seq<Label>)
      requires Represents(cfg) && phase != AtHead && AllGrounded(cfg.graph)
      requires Follows(cfg, s, ls, Abs()) && IsControl(l) && Enabled(Abs(), l)
      modifies graph`nodes, state
      ensures Represents(cfg) && Follows(cfg, s, ls + [l], Abs())
      ensures Measure(cfg, Abs()) <= old(Measure(cfg, Abs()))
    {
      ExtendByControl(cfg, s, ls, Abs(), l);
      HandleControl(cfg, l);
    }

    /** The control calls that arrive during one suspension, in order. */
    method LetControlsIn(cfg: Config, batch: seq<Label>, ghost s: State, ghost ls: seq<Label>)
      requires Represents(cfg) && phase != AtHead && AllGrounded(cfg.graph)
      requires Follows(cfg, s, ls, Abs()) && OnlyControls(batch)
      modifies graph`nodes, state
      ensures Represents(cfg) && Follows(cfg, s, ls + batch, Abs())
      ensures Measure(cfg, Abs()) <= old(Measure(cfg, Abs()))
    {
      assert ls + batch[..0] == ls;
      for i := 0 to |batch|
        invariant Represents(cfg) && phase != AtHead && Follows(cfg, s, ls + batch[..i], Abs())
        invariant Measure(cfg, Abs()) <= old(Measure(cfg, Abs()))
      {
        TakeControl(cfg, batch[i], s, ls + batch[..i]);
        assert ls + batch[..i + 1] == ls + batch[..i] + [batch[i]];
      }
      assert batch[..|batch|] == batch;
    }

    /** The same, as the next suspension of a run that takes in `arrivals` and goes on from `from`. */
    method TakeArrivals(cfg: Config, arrivals: seq<seq<Label>>, next: nat, ghost s: State, ghost from: seq<Label>,
                        ghost ls: seq<Label>)
      returns (ghost ls': seq<Label>)
      requires Represents(cfg) && phase != AtHead && AllGrounded(cfg.graph) && Follows(cfg, s, ls, Abs())
      requires AllControls(arrivals) && Continues(from, ls) && UpToDate(arrivals, ls, next)
      modifies graph`nodes, state
      ensures Represents(cfg) && Follows(cfg, s, ls', Abs())
      ensures Continues(from, ls') && Delivered(arrivals, ls', next)
      ensures Measure(cfg, Abs()) <= old(Measure(cfg, Abs()))
    {
      BatchIsDelivered(arrivals, from, ls, next);
      LetControlsIn(cfg, Batch(arrivals, next), s, ls);
      ls' := ls + Batch(arrivals, next);
    }

    /** `asyncio.gather` over the batch: until every node's coroutine is done, one of them is resumed, in
        any order; before each resumption, and before the end, control calls arrive. */
    method Gather(cfg: Config, arrivals: seq<seq<Label>>, next: nat, ghost s: State, ghost from: seq<Label>)
      returns (next': nat, ghost ls': seq<Label>)
      requires Represents(cfg) && phase == InBatch && AllGrounded(cfg.graph)
      requires Follows(cfg, s, from, Abs()) && AllControls(arrivals) && UpToDate(arrivals, from, next)
      modifies this`tasks, graph`nodes, state, plan`steps
      ensures Represents(cfg) && phase == InBatch && forall id :: id in tasks ==> tasks[id] == Settled
      ensures Follows(cfg, s, ls', Abs()) && Continues(from, ls') && Delivered(arrivals, ls', next')
      ensures Measure(cfg, Abs()) <= old(Measure(cfg, Abs()))
    {
      next', ls' := Drain(cfg, arrivals, next, s, from);
      ls' := TakeArrivals(cfg, arrivals, next', s, from, ls');
    }

    /** The resumptions of a batch, each after the control calls due before it. */
    method Drain(cfg: Config, arrivals: seq<seq<Label>>, next: nat, ghost s: State, ghost from: seq<Label>)
      returns (next': nat, ghost ls': seq<Label>)
      requires Represents(cfg) && phase == InBatch && AllGrounded(cfg.graph)
      requires Follows(cfg, s, from, Abs()) && AllControls(arrivals) && UpToDate(arrivals, from, next)
      modifies this`tasks, graph`nodes, state, plan`steps
      ensures Represents(cfg) && phase == InBatch && forall id :: id in tasks ==> tasks[id] == Settled
      ensures Follows(cfg, s, ls', Abs()) && Continues(from, ls') && UpToDate(arrivals, ls', next')
      ensures Measure(cfg, Abs()) <= old(Measure(cfg, Abs()))
    {
      next', ls' := next, from;
      while exists id :: id in tasks && tasks[id] != Settled
        invariant Represents(cfg) && phase == InBatch && Follows(cfg, s, ls', Abs())
        invariant Continues(from, ls') && UpToDate(arrivals, ls', next')
        invariant Measure(cfg, Abs()) <= old(Measure(cfg, Abs()))
        decreases Measure(cfg, Abs())
      {
        ls' := ResumeOne(cfg, arrivals, next', s, from, ls');
        next' := next' + 1;
      }
    }

    /** Control calls arrive, and then some coroutine of the batch runs up to its next suspension. */
    method ResumeOne(cfg: Config, arrivals: seq<seq<Label>>, next: nat, ghost s: State, ghost from: seq<Label>,
                     ghost ls: seq<Label>)
      returns (ghost ls': seq<Label>)
      requires Represents(cfg) && phase == InBatch && AllGrounded(cfg.graph) && Follows(cfg, s, ls, Abs())
      requires exists id :: id in tasks && tasks[id] != Settled
      requires AllControls(arrivals) && Continues(from, ls) && UpToDate(arrivals, ls, next)
      modifies this`tasks, graph`nodes, state, plan`steps
      ensures Represents(cfg) && phase == InBatch && Follows(cfg, s, ls', Abs())
      ensures Continues(from, ls') && UpToDate(arrivals, ls', next + 1)
      ensures Measure(cfg, Abs()) < old(Measure(cfg, Abs()))
    {
      ls' := TakeArrivals(cfg, arrivals, next, s, from, ls);
      var id :| id in tasks && tasks[id] != Settled;
      LeaveSuspension(arrivals, from, ls', next, Advance(id));
      ExtendByAdvance(cfg, s, ls', Abs(), id);
      ResumeNode(cfg, id);
      ls' := ls' + [Advance(id)];
    }

    // ---------- the loop ----------

    /** A ready list is marked running, the state refreshed, and the coroutines created. */
    method StartBatch(cfg: Config, ready: seq<Id>)
      requires graph.Valid() && graph.shape == cfg.graph
      requires AsSet(ready) == ReadySet(graph.nodes)
      modifies this, graph`nodes, state
      ensures graph.Valid() && Abs() == BatchStarted(cfg, old(Abs()))
    {
      ghost var before := Abs();
      var running := MarkNodesRunning(graph, ready);
      Refresh(state, graph);
      CreateTasks(ready, running);
      BatchIsStarted(cfg, before, Abs(), ready, running);
    }

    /** One coroutine per node marked running. */
    method CreateTasks(ready: seq<Id>, running: seq<Id>)
      modifies this
      ensures forall id :: id in tasks <==> id in running
      ensures forall id :: id in tasks ==> tasks[id] == Starting
      ensures forall id :: id in started <==> id in old(started) || id in ready
      ensures forall id :: id in started ==> started[id] == if id in ready then pass else old(started)[id]
      ensures phase == InBatch && pass == old(pass)
    {
      tasks := map id | id in running :: Starting;
      phase := InBatch;
      started := started + map id | id in ready :: pass;
    }

    /** The refresh after the gather. */
    method FinishBatch(cfg: Config, ghost s: State, ghost ls: seq<Label>)
      requires Represents(cfg) && Enabled(Abs(), Join) && AllGrounded(cfg.graph) && Follows(cfg, s, ls, Abs())
      modifies this`tasks, this`phase, state
      ensures Represents(cfg) && phase == AtHead && Follows(cfg, s, ls + [Join], Abs())
      ensures Measure(cfg, Abs()) < old(Measure(cfg, Abs()))
    {
      JoinKeepsInv(cfg, Abs());
      JoinLowersMeasure(cfg, Abs());
      Extend(cfg, s, ls, Abs(), Join);
      Refresh(state, graph);
      tasks, phase := map[], AtHead;
    }

    /** The sleep after a resolve that left nothing ready but something pending. */
    method Sleep(cfg: Config, arrivals: seq<seq<Label>>, next: nat, ghost s: State, ghost ls: seq<Label>,
                 ghost head: State)
      returns (ghost ls': seq<Label>)
      requires graph.Valid() && graph.shape == cfg.graph && AllGrounded(cfg.graph) && AllControls(arrivals)
      requires IterationLeadsTo(cfg, s, ls, head, Abs().(phase := Asleep)) && UpToDate(arrivals, ls, next)
      modifies this, graph`nodes, state
      ensures Represents(cfg) && phase == AtHead && Follows(cfg, s, ls', Abs())
      ensures OneIteration(ls, ls') && UpToDate(arrivals, ls', next + 1)
      ensures Measure(cfg, Abs()) < Measure(cfg, head)
    {
      phase := Asleep;
      IterateTakesNothing(arrivals, ls, next);
      ls' := TakeArrivals(cfg, arrivals, next, s, ls + [Iterate], ls + [Iterate]);
      LeaveSuspension(arrivals, ls + [Iterate], ls', next, Wake);
      WakeUp(cfg, s, ls');
      ls' := ls' + [Wake];
    }

    method WakeUp(cfg: Config, ghost s: State, ghost ls: seq<Label>)
      requires Represents(cfg) && phase == Asleep && Follows(cfg, s, ls, Abs())
      modifies this`phase
      ensures Represents(cfg) && phase == AtHead && Follows(cfg, s, ls + [Wake], Abs())
      ensures Measure(cfg, Abs()) < old(Measure(cfg, Abs()))
    {
      ExtendByWake(cfg, s, ls, Abs());
      WakeLowersMeasure(cfg, Abs());
      phase := AtHead;
    }

    /** The part of an iteration that follows a non-empty ready list. */
    method RunBatch(cfg: Config, ready: seq<Id>, arrivals: seq<seq<Label>>, next: nat, ghost s: State,
                    ghost ls: seq<Label>, ghost head: State)
      returns (next': nat, ghost ls': seq<Label>)
      requires graph.Valid() && graph.shape == cfg.graph && AllGrounded(cfg.graph) && AllControls(arrivals)
      requires AsSet(ready) == ReadySet(graph.nodes)
      requires IterationLeadsTo(cfg, s, ls, head, BatchStarted(cfg, Abs())) && UpToDate(arrivals, ls, next)
      modifies this, graph`nodes, state, plan`steps
      ensures Represents(cfg) && phase == AtHead && Follows(cfg, s, ls', Abs())
      ensures OneIteration(ls, ls') && UpToDate(arrivals, ls', next')
      ensures Measure(cfg, Abs()) < Measure(cfg, head)
    {
      StartBatch(cfg, ready);
      IterateTakesNothing(arrivals, ls, next);
      next', ls' := Gather(cfg, arrivals, next, s, ls + [Iterate]);
      LeaveSuspension(arrivals, ls + [Iterate], ls', next', Join);
      FinishBatch(cfg, s, ls');
      next', ls' := next' + 1, ls' + [Join];
    }

    /** One iteration of the loop, starting where its condition holds: the run goes on by one `Iterate` and
        all that follows up to the next loop head, the control calls due in that time included. The branches
        for a paused or cancelled state in the loop body are dead: the condition already excludes both. */
    method Pass(cfg: Config, arrivals: seq<seq<Label>>, next: nat, ghost s: State, ghost ls: seq<Label>)
      returns (done: bool, next': nat, ghost ls': seq<Label>)
      requires Represents(cfg) && phase == AtHead && ShouldContinue(state.control, graph.nodes)
      requires AllGrounded(cfg.graph) && Follows(cfg, s, ls, Abs())
      requires AllControls(arrivals) && UpToDate(arrivals, ls, next)
      modifies this, graph`nodes, state, plan`steps
      ensures UpToDate(arrivals, ls', next')
      ensures !done ==> Represents(cfg) && phase == AtHead && Follows(cfg, s, ls', Abs()) && OneIteration(ls, ls')
      ensures !done ==> Measure(cfg, Abs()) < old(Measure(cfg, Abs()))
      ensures done ==> graph.Valid() && LoopLeft(cfg, s, ls, Abs()) && ls' == ls
    {
      ghost var head := Abs();
      IterateCases(cfg, s, ls, head);
      done, next', ls' := false, next, ls;
      var ready := ResolveReady(cfg);
      if ready == [] {
        if !HasPending(graph.nodes) {
          done := true;
        } else {
          ls' := Sleep(cfg, arrivals, next, s, ls, head);
          next' := next + 1;
        }
      } else {
        next', ls' := RunBatch(cfg, ready, arrivals, next, s, ls, head);
      }
    }

    /** `get_ready_nodes`. */
    method ResolveReady(cfg: Config) returns (ready: seq<Id>)
      requires graph.Valid() && graph.shape == cfg.graph && Shaped(cfg, Abs())
      modifies graph`nodes, this`pass
      ensures graph.Valid() && Abs() == AfterResolve(cfg, old(Abs()))
      ensures AsSet(ready) == ReadySet(graph.nodes) && (ready == [] <==> ReadySet(graph.nodes) == {})
    {
      var waiting;
      ready, waiting := Resolve(graph);
      ReadyListIsReadySet(cfg.graph, graph.nodes);
      pass := pass + 1;
    }

    /** The statements after the loop. */
    method Finalise(cfg: Config) returns (report: Report)
      requires graph.Valid() && graph.shape == cfg.graph
      modifies this`phase, state, plan`status
      ensures Abs() == Finalised(cfg, old(Abs())) && phase == Ended(report)
      ensures report == ReportCompleted ==> plan.status == PlanCompleted
      ensures report == ReportFailed ==> plan.status == PlanFailed
      ensures report == ReportCancelled ==> plan.status == old(plan.status)
    {
      if state.control == RunCancelled {
        report := ReportCancelled;
      } else if ShouldFail(graph.nodes) {
        plan.status, report := PlanFailed, ReportFailed;
        state.control, state.currentNodes := RunFailed, [];
      } else {
        plan.status, report := PlanCompleted, ReportCompleted;
        state.control, state.currentNodes := RunCompleted, [];
      }
      state.progress := Progress(graph.shape.order, graph.nodes);
      phase := Ended(report);
    }

    /** `Orchestrator.execute`; the `i`th time it is suspended, the control calls `arrivals[i]` arrive. An
        invalid graph is rejected and nothing changes. Otherwise the method terminates, and what it did is a
        run of the protocol from the initial state to an ended one that takes in at every suspension exactly
        the calls due there. A run that is not cancelled and leaves no node paused leaves in every node what
        evaluation predicts; a run no call reaches is such a run. */
    method Execute(cfg: Config, arrivals: seq<seq<Label>>) returns (result: ExecuteResult, ghost ls: seq<Label>)
      requires graph.Valid() && graph.shape == cfg.graph && Initial(cfg, Abs()) && AllControls(arrivals)
      modifies this, graph`nodes, state, plan
      ensures result.Rejected? <==> !AllGrounded(cfg.graph)
      ensures result.Rejected? ==> Abs() == old(Abs()) && Validator.VerdictFits(graph.shape, result.verdict)
      ensures result.Finished? ==> Follows(cfg, old(Abs()), ls, Abs()) && phase == Ended(result.report)
      ensures result.Finished? ==> UpToDate(arrivals, ls, Suspensions(ls))
      ensures result.Finished? ==>
        var n := Suspensions(ls); ControlsOf(ls) == Flat(if n <= |arrivals| then arrivals[..n] else arrivals)
      ensures result.Finished? && Uninterrupted(result.report, graph.nodes) ==>
        plan.status == if forall id :: id in graph.nodes ==> Eval(cfg, id).Some? then PlanCompleted else PlanFailed
      ensures result.Finished? && result.report == ReportCancelled ==> plan.status == PlanReady
      ensures result.Finished? && result.report == ReportCompleted ==> plan.status == PlanCompleted
      ensures result.Finished? && result.report == ReportFailed ==> plan.status == PlanFailed
      ensures result.Finished? && Uninterrupted(result.report, graph.nodes) ==>
        && (forall id :: id in graph.nodes ==> graph.nodes[id] == EvalNode(cfg, id))
        && (result.report == ReportCompleted <==> forall id :: id in graph.nodes ==> Eval(cfg, id).Some?)
      ensures result.Finished? && ControlsOf(ls) == [] ==> Uninterrupted(result.report, graph.nodes)
    {
      ls := [];
      var verdict := Validator.ValidateGraph(graph.shape);
      if verdict != Validator.Valid {
        return Rejected(verdict), ls;
      }
      plan.status := PlanReady;
      ghost var s := Abs();
      InitialInv(cfg, s);
      var done, next := false, 0;
      while !done && ShouldContinue(state.control, graph.nodes)
        invariant graph.Valid() && plan.status == PlanReady && UpToDate(arrivals, ls, next)
        invariant if done then LoopLeft(cfg, s, ls, Abs())
                  else Represents(cfg) && phase == AtHead && Follows(cfg, s, ls, Abs())
        decreases !done, Measure(cfg, Abs())
      {
        done, next, ls := Pass(cfg, arrivals, next, s, ls);
      }
      if !done {
        LeaveLoop(cfg, s, ls, Abs());
      }
      IterateTakesNothing(arrivals, ls, next);
      ls := ls + [Iterate];
      var report := Finalise(cfg);
      result := Finished(report);
      OutcomeOf(cfg, s, ls, Abs());
      DueIsGiven(arrivals, Suspensions(ls));
    }
  }

  // ---------- which control calls a run takes in ----------

  predicate OnlyControls(ls: seq<Label>) {
    forall i :: 0 <= i < |ls| ==> IsControl(ls[i])
  }

  predicate AllControls(arrivals: seq<seq<Label>>) {
    forall i :: 0 <= i < |arrivals| ==> OnlyControls(arrivals[i])
  }

  /** The control calls of a run, in order. */
  function ControlsOf(ls: seq<Label>): seq<Label> {
    if ls == [] then []
    else
      var earlier, l := ControlsOf(ls[..|ls| - 1]), ls[|ls| - 1];
      if IsControl(l) then earlier + [l] else earlier
  }

  predicate EndsSuspension(l: Label) {
    l == Wake || l == Join || l.Advance?
  }

  /** How often the orchestrator has resumed. */
  function Suspensions(ls: seq<Label>): nat {
    if ls == [] then 0
    else Suspensions(ls[..|ls| - 1]) + if EndsSuspension(ls[|ls| - 1]) then 1 else 0
  }

  /** The calls due in suspension `i`; after the last ones given none arrive. */
  function Batch(arrivals: seq<seq<Label>>, i: nat): seq<Label> {
    if i < |arrivals| then arrivals[i] else []
  }

  /** All calls due in the first `n` suspensions. */
  function Due(arrivals: seq<seq<Label>>, n: nat): seq<Label> {
    if n == 0 then [] else Due(arrivals, n - 1) + Batch(arrivals, n - 1)
  }

  /** The calls of all these suspensions, in order. */
  function Flat(batches: seq<seq<Label>>): seq<Label> {
    if batches == [] then [] else Flat(batches[..|batches| - 1]) + batches[|batches| - 1]
  }

  /** What is due are the given calls and nothing else. */
  lemma {:induction false} DueIsGiven(arrivals: seq<seq<Label>>, n: nat)
    ensures Due(arrivals, n) == Flat(if n <= |arrivals| then arrivals[..n] else arrivals)
  {
    if 0 < n {
      DueIsGiven(arrivals, n - 1);
      if n <= |arrivals| {
        assert arrivals[..n][..n - 1] == arrivals[..n - 1];
        assert arrivals[..n] != [] && arrivals[..n][n - 1] == arrivals[n - 1];
      } else {
        assert arrivals[..|arrivals|] == arrivals;
      }
    }
  }

  /** Whenever the orchestrator resumes, it has taken in exactly the calls due by then. */
  predicate Heeds(arrivals: seq<seq<Label>>, ls: seq<Label>) {
    ls == [] ||
    var before, l := ls[..|ls| - 1], ls[|ls| - 1];
    Heeds(arrivals, before) && (EndsSuspension(l) ==> ControlsOf(before) == Due(arrivals, Suspensions(before) + 1))
  }

  /** The run resumed `next` times, heeding the arrivals, and took in nothing since. */
  predicate UpToDate(arrivals: seq<seq<Label>>, ls: seq<Label>, next: nat) {
    Heeds(arrivals, ls) && Suspensions(ls) == next && ControlsOf(ls) == Due(arrivals, next)
  }

  /** The run is in suspension `next` and has taken in the calls due there. */
  predicate Delivered(arrivals: seq<seq<Label>>, ls: seq<Label>, next: nat) {
    Heeds(arrivals, ls) && Suspensions(ls) == next && ControlsOf(ls) == Due(arrivals, next + 1)
  }

  /** `ls'` goes on from `ls` with no further iteration. */
  predicate Continues(ls: seq<Label>, ls': seq<Label>) {
    ls <= ls' && forall i :: |ls| <= i < |ls'| ==> ls'[i] != Iterate
  }

  /** `ls'` goes on from `ls` with exactly one iteration. */
  predicate OneIteration(ls: seq<Label>, ls': seq<Label>) {
    Continues(ls + [Iterate], ls')
  }

  lemma OneMoreLabel(arrivals: seq<seq<Label>>, ls: seq<Label>, l: Label)
    ensures ControlsOf(ls + [l]) == if IsControl(l) then ControlsOf(ls) + [l] else ControlsOf(ls)
    ensures Suspensions(ls + [l]) == Suspensions(ls) + if EndsSuspension(l) then 1 else 0
    ensures Heeds(arrivals, ls + [l]) <==>
      Heeds(arrivals, ls) && (EndsSuspension(l) ==> ControlsOf(ls) == Due(arrivals, Suspensions(ls) + 1))
  {
    assert (ls + [l])[..|ls|] == ls;
  }

  lemma {:induction false} ControlsAreTaken(arrivals: seq<seq<Label>>, ls: seq<Label>, batch: seq<Label>)
    requires OnlyControls(batch)
    ensures ControlsOf(ls + batch) == ControlsOf(ls) + batch
    ensures Suspensions(ls + batch) == Suspensions(ls)
    ensures Heeds(arrivals, ls + batch) <==> Heeds(arrivals, ls)
    decreases |batch|
  {
    if batch == [] {
      assert ls + batch == ls;
    } else {
      var init, l := batch[..|batch| - 1], batch[|batch| - 1];
      ControlsAreTaken(arrivals, ls, init);
      OneMoreLabel(arrivals, ls + init, l);
      assert ls + batch == ls + init + [l] && batch == init + [l];
    }
  }

  lemma BatchIsDelivered(arrivals: seq<seq<Label>>, from: seq<Label>, ls: seq<Label>, next: nat)
    requires AllControls(arrivals) && Continues(from, ls) && UpToDate(arrivals, ls, next)
    ensures OnlyControls(Batch(arrivals, next))
    ensures Continues(from, ls + Batch(arrivals, next)) && Delivered(arrivals, ls + Batch(arrivals, next), next)
  {
    var batch := Batch(arrivals, next);
    ControlsAreTaken(arrivals, ls, batch);
    forall i | |from| <= i < |ls + batch| ensures (ls + batch)[i] != Iterate {
      if i < |ls| { assert (ls + batch)[i] == ls[i]; } else { assert IsControl(batch[i - |ls|]); }
    }
  }

  lemma LeaveSuspension(arrivals: seq<seq<Label>>, from: seq<Label>, ls: seq<Label>, next: nat, l: Label)
    requires Continues(from, ls) && Delivered(arrivals, ls, next) && EndsSuspension(l)
    ensures Continues(from, ls + [l]) && UpToDate(arrivals, ls + [l], next + 1)
  {
    OneMoreLabel(arrivals, ls, l);
  }

  lemma IterateTakesNothing(arrivals: seq<seq<Label>>, ls: seq<Label>, next: nat)
    requires UpToDate(arrivals, ls, next)
    ensures UpToDate(arrivals, ls + [Iterate], next)
  {
    OneMoreLabel(arrivals, ls, Iterate);
  }

  lemma {:induction false} NoneTaken(ls: seq<Label>)
    requires ControlsOf(ls) == []
    ensures NoControl(ls)
  {
    if ls != [] { NoneTaken(ls[..|ls| - 1]); }
  }

  // ---------- steps of the run ----------

  lemma ExtendByWake(cfg: Config, s: State, ls: seq<Label>, t: State)
    requires Follows(cfg, s, ls, t) && Inv(cfg, t) && t.phase == Asleep
    ensures Inv(cfg, t.(phase := AtHead)) && Follows(cfg, s, ls + [Wake], t.(phase := AtHead))
  {
    WakeKeepsInv(cfg, t);
    Extend(cfg, s, ls, t, Wake);
  }

  /** The loop was left in `t` after the run `ls`: one more iteration step, finalisation included, is due. */
  ghost predicate LoopLeft(cfg: Config, s: State, ls: seq<Label>, t: State) {
    Follows(cfg, s, ls + [Iterate], Finalised(cfg, t))
  }

  lemma LeaveLoop(cfg: Config, s: State, ls: seq<Label>, head: State)
    requires Follows(cfg, s, ls, head) && Inv(cfg, head) && head.phase == AtHead
    requires !ShouldContinue(head.control, head.nodes)
    ensures LoopLeft(cfg, s, ls, head)
  {
    Extend(cfg, s, ls, head, Iterate);
  }

  /** Neither cancelled nor left with a paused node. */
  predicate Uninterrupted(report: Report, nodes: Nodes) {
    report != ReportCancelled && forall id :: id in nodes ==> nodes[id].status != Paused
  }

  lemma OutcomeOf(cfg: Config, s: State, ls: seq<Label>, t: State)
    requires Initial(cfg, s) && AllGrounded(cfg.graph) && Follows(cfg, s, ls, t) && t.phase.Ended?
    ensures ControlsOf(ls) == [] ==> Uninterrupted(t.phase.report, t.nodes)
    ensures Uninterrupted(t.phase.report, t.nodes) ==>
      && (forall id :: id in t.nodes ==> t.nodes[id] == EvalNode(cfg, id))
      && (t.phase.report == ReportCompleted <==> forall id :: id in t.nodes ==> Eval(cfg, id).Some?)
  {
    if ControlsOf(ls) == [] {
      NoneTaken(ls);
      UndisturbedStaysRunning(cfg, s, ls);
    }
    if Uninterrupted(t.phase.report, t.nodes) {
      FinalStatusIsEvaluation(cfg, s, ls);
    }
  }

  lemma ExtendByIterate(cfg: Config, s: State, ls: seq<Label>, head: State)
    requires Follows(cfg, s, ls, head) && Inv(cfg, head) && head.phase == AtHead && AllGrounded(cfg.graph)
    ensures Follows(cfg, s, ls + [Iterate], Iterated(cfg, head))
    ensures Inv(cfg, Iterated(cfg, head)) && Measure(cfg, Iterated(cfg, head)) < Measure(cfg, head)
  {
    IterateKeepsInv(cfg, head);
    IterateLowersMeasure(cfg, head);
    Extend(cfg, s, ls, head, Iterate);
  }

  /** The three ways an iteration can go on after its resolve. */
  lemma IterateCases(cfg: Config, s: State, ls: seq<Label>, head: State)
    requires Follows(cfg, s, ls, head) && Inv(cfg, head) && head.phase == AtHead && AllGrounded(cfg.graph)
    requires ShouldContinue(head.control, head.nodes)
    ensures var r := AfterResolve(cfg, head);
      if ReadySet(r.nodes) != {} then IterationLeadsTo(cfg, s, ls, head, BatchStarted(cfg, r))
      else if HasPending(r.nodes) then IterationLeadsTo(cfg, s, ls, head, r.(phase := Asleep))
      else LoopLeft(cfg, s, ls, r)
  {
    ExtendByIterate(cfg, s, ls, head);
    IterationIs(cfg, head);
  }

  ghost predicate IterationLeadsTo(cfg: Config, s: State, ls: seq<Label>, head: State, t: State) {
    Inv(cfg, t) && Follows(cfg, s, ls + [Iterate], t) && Measure(cfg, t) < Measure(cfg, head)
  }

  lemma BatchIsStarted(cfg: Config, b: State, t: State, ready: seq<Id>, running: seq<Id>)
    requires AsSet(ready) == ReadySet(b.nodes)
    requires forall id :: id in running <==> id in ready && id in b.nodes
    requires t.nodes == MarkRunning(b.nodes, AsSet(ready))
    requires forall id :: id in t.tasks <==> id in running
    requires forall id :: id in t.tasks ==> t.tasks[id] == Starting
    requires forall id :: id in t.started <==> id in b.started || id in ready
    requires forall id :: id in t.started ==> t.started[id] == if id in ready then b.pass else b.started[id]
    requires t.view == Refreshed(cfg.graph.order, t.nodes)
    requires t.control == b.control && t.steps == b.steps && t.phase == InBatch && t.pass == b.pass
    ensures t == BatchStarted(cfg, b)
  {
    var u := BatchStarted(cfg, b);
    assert forall id :: id in ready <==> id in AsSet(ready);
    assert t.tasks == u.tasks && t.started == u.started;
  }

  lemma ReadyListIsReadySet(g: Graph, nodes: Nodes)
    requires WellFormed(g) && nodes.Keys == g.deps.Keys
    ensures var ready := Select(g.order, nodes, {Ready});
      AsSet(ready) == ReadySet(nodes) && (ready == [] <==> ReadySet(nodes) == {})
  {
    var ready := Select(g.order, nodes, {Ready});
    Recorded.SelectSelects(g.order, nodes, {Ready});
    assert ready != [] ==> ready[0] in AsSet(ready);
    assert ready == [] ==> AsSet(ready) == {};
    assert AsSet(ready) == ReadySet(nodes);
  }

  datatype ExecuteResult = Rejected(verdict: Validator.Verdict) | Finished(report: Report)

  /** The run `ls` from `s` has led to `t`. */
  ghost predicate Follows(cfg: Config, s: State, ls: seq<Label>, t: State) {
    Shaped(cfg, s) && IsRun(cfg, s, ls) && After(cfg, s, ls) == t
  }

  lemma Extend(cfg: Config, s: State, ls: seq<Label>, t: State, l: Label)
    requires Follows(cfg, s, ls, t) && Inv(cfg, t) && Enabled(t, l)
    ensures Follows(cfg, s, ls + [l], Apply(cfg, t, l))
  {
    RunStep(cfg, s, ls, l);
  }

  lemma ExtendByControl(cfg: Config, s: State, ls: seq<Label>, t: State, l: Label)
    requires Follows(cfg, s, ls, t) && Inv(cfg, t) && AllGrounded(cfg.graph) && IsControl(l) && Enabled(t, l)
    ensures Follows(cfg, s, ls + [l], Controlled(cfg, t, l))
    ensures Measure(cfg, Controlled(cfg, t, l)) <= Measure(cfg, t)
  {
    Extend(cfg, s, ls, t, l);
    ControlDoesNotRaiseMeasure(cfg, t, l);
  }

  lemma ExtendByAdvance(cfg: Config, s: State, ls: seq<Label>, t: State, id: Id)
    requires Follows(cfg, s, ls, t) && Inv(cfg, t) && Enabled(t, Advance(id))
    ensures Follows(cfg, s, ls + [Advance(id)], Advanced(cfg, t, id))
    ensures Measure(cfg, Advanced(cfg, t, id)) < Measure(cfg, t)
    ensures Advanced(cfg, t, id).phase == t.phase
  {
    Extend(cfg, s, ls, t, Advance(id));
    AdvanceLowersMeasure(cfg, t, id);
    AdvancePoint(cfg, t, id);
  }
}
