/** What a run leaves in the plan: which steps are recorded COMPLETED or FAILED, and which are untouched. */
module PlanSteps {
  import opened Graphs
  import opened Models
  import opened Protocol
  import opened Evaluation
  import opened Invariants
  import opened Passes
  import opened Outcomes

  /** The record of a step, given the plan `before` the run: untouched until its node begins; RUNNING during
      the first attempt and PENDING during later ones; then COMPLETED with the node's result, or FAILED. */
  ghost predicate StepFits(before: Steps, t: State, id: Id)
    requires id in t.steps && id in before
  {
    if id !in t.started || id !in t.nodes || (id in t.tasks && t.tasks[id] == Starting) then
      t.steps[id] == before[id]
    else if id in t.tasks && t.tasks[id].Attempting? then
      t.steps[id] == before[id].(status := if t.tasks[id].attempt == 1 then StepRunning else StepPending)
    else if t.nodes[id].status == Completed then
      t.steps[id] == Step(StepCompleted, t.nodes[id].result)
    else
      t.nodes[id].status == Failed && t.steps[id] == before[id].(status := StepFailed)
  }

  /** A node was started on completed dependencies, and one that failed without being started has a failed
      dependency. */
  ghost predicate HasCause(cfg: Config, t: State, id: Id)
    requires Shaped(cfg, t) && id in t.nodes
  {
    && (id in t.started ==> AllDependenciesCompleted(cfg.graph, t.nodes, id))
    && (t.nodes[id].status == Failed && id !in t.started ==> AnyDependencyFailed(cfg.graph, t.nodes, id))
  }

  ghost predicate StepsInv(cfg: Config, before: Steps, t: State) {
    && PassInv(cfg, t) && before.Keys == cfg.planned
    && (forall id {:trigger StepFits(before, t, id)} :: id in t.steps ==> StepFits(before, t, id))
    && (forall id {:trigger HasCause(cfg, t, id)} :: id in t.nodes ==> HasCause(cfg, t, id))
  }

  // ---------- causes ----------

  /** Causes stay, since completed, failed and cancelled nodes do. */
  lemma CauseCarriesOver(cfg: Config, s: State, t: State, id: Id)
    requires Shaped(cfg, s) && Shaped(cfg, t) && id in s.nodes
    requires forall d :: d in s.nodes && Terminal(s.nodes[d].status) ==> t.nodes[d] == s.nodes[d]
    ensures AllDependenciesCompleted(cfg.graph, s.nodes, id) ==> AllDependenciesCompleted(cfg.graph, t.nodes, id)
    ensures AnyDependencyFailed(cfg.graph, s.nodes, id) ==> AnyDependencyFailed(cfg.graph, t.nodes, id)
  {
    if AnyDependencyFailed(cfg.graph, s.nodes, id) {
      var d :|
        d in cfg.graph.deps[id] && d in s.nodes && (s.nodes[d].status == Failed || s.nodes[d].status == Cancelled);
      assert t.nodes[d] == s.nodes[d];
    }
  }

  lemma StepKeepsTerminal(cfg: Config, s: State, l: Label)
    requires Inv(cfg, s) && Enabled(s, l)
    ensures forall d :: d in s.nodes && Terminal(s.nodes[d].status) ==> Apply(cfg, s, l).nodes[d] == s.nodes[d]
  {
    forall d | d in s.nodes && Terminal(s.nodes[d].status) ensures Apply(cfg, s, l).nodes[d] == s.nodes[d] {
      StepMovesLegally(cfg, s, l, d);
    }
  }

  lemma PassKeepsCause(cfg: Config, s: State, id: Id)
    requires Continuing(cfg, s) && id in s.nodes && HasCause(cfg, s, id)
    ensures HasCause(cfg, Iterated(cfg, s), id)
  {
    ResolvePoint(cfg, s, id);
    IteratePoint(cfg, s, id);
    StepKeepsTerminal(cfg, s, Iterate);
    CauseCarriesOver(cfg, s, Iterated(cfg, s), id);
  }

  lemma OtherStepKeepsCause(cfg: Config, s: State, l: Label, id: Id)
    requires PassInv(cfg, s) && Enabled(s, l) && l != Iterate && id in s.nodes && HasCause(cfg, s, id)
    ensures HasCause(cfg, Apply(cfg, s, l), id)
  {
    StepKeepsTerminal(cfg, s, l);
    CauseCarriesOver(cfg, s, Apply(cfg, s, l), id);
    OtherStepHistory(cfg, s, l);
    OnlyStartedNodesFail(cfg, s, l, id);
  }

  lemma OnlyStartedNodesFail(cfg: Config, s: State, l: Label, id: Id)
    requires PassInv(cfg, s) && Enabled(s, l) && l != Iterate && id in s.nodes
    ensures id in Apply(cfg, s, l).nodes
    ensures Apply(cfg, s, l).nodes[id].status == Failed ==> s.nodes[id].status == Failed || id in s.started
  {
    assert PassNode(cfg, s, id);
    match l
    case Advance(a) => if a != id { AdvanceIsLocal(cfg, s, a, id); }
    case Wake =>
    case Join =>
    case _ => ControlPoint(cfg, s, l, id);
  }

  // ---------- records ----------

  lemma PassKeepsFit(cfg: Config, before: Steps, s: State, id: Id)
    requires Continuing(cfg, s) && PassInv(cfg, s) && id in s.steps && id in before && StepFits(before, s, id)
    ensures id in Iterated(cfg, s).steps && StepFits(before, Iterated(cfg, s), id)
  {
    HeadIsQuiet(cfg, s);
    IterateKeepsSteps(cfg, s);
    if id in s.nodes {
      assert PassNode(cfg, s, id);
      ResolvePoint(cfg, s, id);
      IteratePoint(cfg, s, id);
    }
  }

  lemma IterateKeepsSteps(cfg: Config, s: State)
    requires Shaped(cfg, s)
    ensures Iterated(cfg, s).steps == s.steps
  {
    if ShouldContinue(s.control, s.nodes) {
      IterationIs(cfg, s);
      StartKeepsSteps(cfg, AfterResolve(cfg, s));
    }
  }

  lemma StartKeepsSteps(cfg: Config, r: State)
    ensures BatchStarted(cfg, r).steps == r.steps
  {
  }

  lemma AdvanceKeepsFit(cfg: Config, before: Steps, s: State, a: Id, id: Id)
    requires PassInv(cfg, s) && Enabled(s, Advance(a)) && id in s.steps && id in before && StepFits(before, s, id)
    ensures id in Advanced(cfg, s, a).steps && StepFits(before, Advanced(cfg, s, a), id)
  {
    if a == id {
      assert PassNode(cfg, s, id) && NodeInv(cfg, s, id);
    } else {
      AdvanceIsLocal(cfg, s, a, id);
    }
  }

  lemma JoinKeepsFit(cfg: Config, before: Steps, s: State, id: Id)
    requires PassInv(cfg, s) && Enabled(s, Join) && id in s.steps && id in before && StepFits(before, s, id)
    ensures StepFits(before, Joined(cfg, s), id)
  {
    if id in s.tasks { assert PassNode(cfg, s, id) && NodeInv(cfg, s, id); }
  }

  lemma ControlKeepsFit(cfg: Config, before: Steps, s: State, l: Label, id: Id)
    requires PassInv(cfg, s) && IsControl(l) && Enabled(s, l)
    requires id in s.steps && id in before && StepFits(before, s, id)
    ensures id in Controlled(cfg, s, l).steps && StepFits(before, Controlled(cfg, s, l), id)
  {
    if id in s.nodes {
      assert PassNode(cfg, s, id);
      ControlPoint(cfg, s, l, id);
      OtherStepHistory(cfg, s, l);
    } else {
      ControlKeepsSteps(cfg, s, l);
    }
  }

  lemma ControlKeepsSteps(cfg: Config, s: State, l: Label)
    ensures var t := Controlled(cfg, s, l);
      t.steps == s.steps && t.tasks == s.tasks && t.started == s.started && t.nodes.Keys == s.nodes.Keys
  {
  }

  lemma StepKeepsFit(cfg: Config, before: Steps, s: State, l: Label, id: Id)
    requires PassInv(cfg, s) && Enabled(s, l) && id in s.steps && id in before && StepFits(before, s, id)
    ensures id in Apply(cfg, s, l).steps && StepFits(before, Apply(cfg, s, l), id)
  {
    match l
    case Iterate =>
      if ShouldContinue(s.control, s.nodes) {
        PassKeepsFit(cfg, before, s, id);
      } else {
        FinaliseKeepsFit(cfg, before, s, id);
      }
    case Advance(a) => AdvanceKeepsFit(cfg, before, s, a, id);
    case Wake =>
    case Join => JoinKeepsFit(cfg, before, s, id);
    case _ => ControlKeepsFit(cfg, before, s, l, id);
  }

  lemma FinaliseKeepsFit(cfg: Config, before: Steps, s: State, id: Id)
    requires id in s.steps && id in before && StepFits(before, s, id)
    ensures StepFits(before, Finalised(cfg, s), id)
  {
  }

  lemma StepKeepsStepsInv(cfg: Config, before: Steps, s: State, l: Label)
    requires StepsInv(cfg, before, s) && Enabled(s, l)
    ensures StepsInv(cfg, before, Apply(cfg, s, l))
  {
    var t := Apply(cfg, s, l);
    StepKeepsPassInv(cfg, s, l);
    forall id | id in t.steps ensures StepFits(before, t, id) {
      assert StepFits(before, s, id);
      StepKeepsFit(cfg, before, s, l, id);
    }
    forall id | id in t.nodes ensures HasCause(cfg, t, id) {
      assert HasCause(cfg, s, id);
      StepKeepsCause(cfg, s, l, id);
    }
  }

  lemma StepKeepsCause(cfg: Config, s: State, l: Label, id: Id)
    requires PassInv(cfg, s) && Enabled(s, l) && id in s.nodes && HasCause(cfg, s, id)
    ensures id in Apply(cfg, s, l).nodes && HasCause(cfg, Apply(cfg, s, l), id)
  {
    if l != Iterate {
      OtherStepKeepsCause(cfg, s, l, id);
    } else if ShouldContinue(s.control, s.nodes) {
      PassKeepsCause(cfg, s, id);
    }
  }

  /** In every reachable state of every run, on any graph and under any control calls. */
  lemma {:induction false} RunKeepsStepsInv(cfg: Config, s: State, ls: seq<Label>)
    requires Initial(cfg, s) && IsRun(cfg, s, ls)
    ensures StepsInv(cfg, s.steps, After(cfg, s, ls))
  {
    InitialPassInv(cfg, s);
    if ls != [] {
      var before := ls[..|ls| - 1];
      RunKeepsStepsInv(cfg, s, before);
      StepKeepsStepsInv(cfg, s.steps, After(cfg, s, before), ls[|ls| - 1]);
    }
  }

  // ---------- the plan after a run ----------

  /** A run neither cancelled nor left with a paused node leaves in the plan: COMPLETED and its result where
      evaluation gives one, FAILED exactly where a step failed on its own, and every other step as it was. */
  lemma FinalPlanSteps(cfg: Config, s: State, ls: seq<Label>, id: Id)
    requires Initial(cfg, s) && AllGrounded(cfg.graph) && IsRun(cfg, s, ls)
    requires After(cfg, s, ls).phase.Ended? && After(cfg, s, ls).phase.report != ReportCancelled
    requires forall x :: x in s.nodes ==> After(cfg, s, ls).nodes[x].status != Paused
    requires id in s.steps && id in cfg.graph.deps
    ensures id in After(cfg, s, ls).steps
    ensures After(cfg, s, ls).steps[id] ==
      if Eval(cfg, id).Some? then Step(StepCompleted, Eval(cfg, id))
      else if FailsOnItsOwn(cfg, id) then s.steps[id].(status := StepFailed)
      else s.steps[id]
  {
    RunKeepsStepsInv(cfg, s, ls);
    FinalStatusIsEvaluation(cfg, s, ls);
    StepsOfEvaluatedState(cfg, s.steps, After(cfg, s, ls), id);
  }

  lemma StepsOfEvaluatedState(cfg: Config, before: Steps, t: State, id: Id)
    requires StepsInv(cfg, before, t) && t.phase.Ended? && AllGrounded(cfg.graph)
    requires forall x :: x in t.nodes ==> t.nodes[x] == EvalNode(cfg, x)
    requires id in t.nodes && id in cfg.planned
    ensures id in t.steps && id in before
    ensures t.steps[id] ==
      if Eval(cfg, id).Some? then Step(StepCompleted, Eval(cfg, id))
      else if FailsOnItsOwn(cfg, id) then before[id].(status := StepFailed)
      else before[id]
  {
    assert PassNode(cfg, t, id);
    assert HasCause(cfg, t, id);
    HeadIsQuiet(cfg, t);
    StartedUnlessSpoiled(cfg, t, id);
    assert StepFits(before, t, id);
  }

  /** Where nodes hold what evaluation gives, those started are those whose dependencies all have results. */
  lemma StartedUnlessSpoiled(cfg: Config, t: State, id: Id)
    requires Shaped(cfg, t) && AllGrounded(cfg.graph) && id in t.nodes && HasCause(cfg, t, id)
    requires forall x :: x in t.nodes ==> t.nodes[x] == EvalNode(cfg, x)
    requires t.nodes[id].status == Completed ==> id in t.started
    requires id in cfg.planned
    ensures id in t.started <==> Eval(cfg, id).Some? || FailsOnItsOwn(cfg, id)
  {
    DepsAreShallower(cfg.graph, id);
    if id in t.started {
      forall d | d in cfg.graph.deps[id] ensures Eval(cfg, d).Some? {
        assert t.nodes[d] == EvalNode(cfg, d);
      }
      EvalIsAttempts(cfg, id);
    } else {
      var d :|
        d in cfg.graph.deps[id] && d in t.nodes && (t.nodes[d].status == Failed || t.nodes[d].status == Cancelled);
      assert t.nodes[d] == EvalNode(cfg, d);
    }
  }
}
