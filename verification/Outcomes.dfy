/** What runs end with and what control calls do, over all runs. */
module Outcomes {
  import opened Graphs
  import opened Models
  import opened Protocol
  import opened Evaluation
  import opened Invariants
  import opened Passes
  import opened Termination

  // ---------- status changes ----------

  /** The validator's table of permitted status changes. */
  predicate AllowedTransition(current: NodeStatus, next: NodeStatus) {
    match current
    case Waiting => next == Ready || next == Waiting || next == Paused || next == Cancelled || next == Failed
    case Ready => next == Running || next == Paused || next == Cancelled || next == Failed
    case Running => next == Completed || next == Failed || next == Cancelled
    case Paused => next == Waiting || next == Cancelled
    case _ => false
  }

  /** The table, pair by pair. */
  lemma TransitionTable(current: NodeStatus, next: NodeStatus)
    ensures AllowedTransition(current, next) <==>
      (current, next) in {
        (Waiting, Ready), (Waiting, Waiting), (Waiting, Paused), (Waiting, Cancelled), (Waiting, Failed),
        (Ready, Running), (Ready, Paused), (Ready, Cancelled), (Ready, Failed),
        (Running, Completed), (Running, Failed), (Running, Cancelled),
        (Paused, Waiting), (Paused, Cancelled)}
  {
  }

  /** One permitted change, or the two a loop iteration makes in one go when it starts a node. */
  predicate LegalMove(current: NodeStatus, next: NodeStatus) {
    || next == current
    || AllowedTransition(current, next)
    || (next == Running && AllowedTransition(current, Ready) && AllowedTransition(Ready, Running))
  }

  /** Every step moves every node legally, and a node in a terminal status keeps it and its result. */
  lemma StepMovesLegally(cfg: Config, s: State, l: Label, id: Id)
    requires Inv(cfg, s) && Enabled(s, l) && id in s.nodes
    ensures var t := Apply(cfg, s, l);
      && id in t.nodes && LegalMove(s.nodes[id].status, t.nodes[id].status)
      && (Terminal(s.nodes[id].status) ==> t.nodes[id] == s.nodes[id])
  {
    assert NodeInv(cfg, s, id);
    match l
    case Iterate => IterateMovesLegally(cfg, s, id);
    case Advance(a) =>
      AdvancePoint(cfg, s, a);
      if a != id { AdvanceIsLocal(cfg, s, a, id); }
    case Wake =>
    case Join =>
    case _ => ControlPoint(cfg, s, l, id);
  }

  lemma IterateMovesLegally(cfg: Config, s: State, id: Id)
    requires Inv(cfg, s) && s.phase == AtHead && id in s.nodes
    ensures var t := Iterated(cfg, s);
      && id in t.nodes && LegalMove(s.nodes[id].status, t.nodes[id].status)
      && (Terminal(s.nodes[id].status) ==> t.nodes[id] == s.nodes[id])
  {
    if ShouldContinue(s.control, s.nodes) {
      PassMovesLegally(cfg, s, id);
    }
  }

  lemma PassMovesLegally(cfg: Config, s: State, id: Id)
    requires Continuing(cfg, s) && id in s.nodes
    ensures var t := Iterated(cfg, s);
      && id in t.nodes && LegalMove(s.nodes[id].status, t.nodes[id].status)
      && (Terminal(s.nodes[id].status) ==> t.nodes[id] == s.nodes[id])
  {
    PassStatus(cfg, s, id);
    PassedIsLegal(s.nodes[id], AfterResolve(cfg, s).nodes[id], Iterated(cfg, s).nodes[id]);
  }

  /** What a pass makes of the status of one node, and how that shows in its resolve. */
  predicate Passed(before: Node, resolved: Node, after: Node) {
    && (before.status == Waiting || before.status == Completed || before.status == Failed)
    && (before.status != Waiting ==> after == before)
    && (before.status == Waiting ==>
          && (after.status == Waiting || after.status == Running || after.status == Failed)
          && (after.status == Waiting <==> resolved.status == Waiting))
  }

  lemma PassedIsLegal(before: Node, resolved: Node, after: Node)
    requires Passed(before, resolved, after)
    ensures LegalMove(before.status, after.status) && (Terminal(before.status) ==> after == before)
  {
  }

  lemma PassStatus(cfg: Config, s: State, id: Id)
    requires Continuing(cfg, s) && id in s.nodes
    ensures id in Iterated(cfg, s).nodes
    ensures Passed(s.nodes[id], AfterResolve(cfg, s).nodes[id], Iterated(cfg, s).nodes[id])
  {
    ResolvePoint(cfg, s, id);
    IteratePoint(cfg, s, id);
  }

  /** Completed, failed and cancelled are never left, and a completed node's result never changes,
      however the run goes on. */
  lemma {:induction false} TerminalForGood(cfg: Config, s: State, ls: seq<Label>, id: Id)
    requires Inv(cfg, s) && IsRun(cfg, s, ls) && id in s.nodes && Terminal(s.nodes[id].status)
    ensures After(cfg, s, ls).nodes[id] == s.nodes[id]
  {
    if ls != [] {
      var before := ls[..|ls| - 1];
      TerminalForGood(cfg, s, before, id);
      RunKeepsInv(cfg, s, before);
      StepMovesLegally(cfg, After(cfg, s, before), ls[|ls| - 1], id);
    }
  }

  /** A node once started runs or has settled from then on. */
  lemma {:induction false} StartedForGood(cfg: Config, s: State, ls: seq<Label>, id: Id)
    requires Inv(cfg, s) && IsRun(cfg, s, ls)
    requires id in s.nodes && (s.nodes[id].status == Running || Terminal(s.nodes[id].status))
    ensures var t := After(cfg, s, ls).nodes; id in t && (t[id].status == Running || Terminal(t[id].status))
  {
    if ls != [] {
      var before := ls[..|ls| - 1];
      StartedForGood(cfg, s, before, id);
      RunKeepsInv(cfg, s, before);
      StepMovesLegally(cfg, After(cfg, s, before), ls[|ls| - 1], id);
    }
  }

  function PendingNodes(nodes: Nodes): set<Id> {
    set id | id in nodes && !Terminal(nodes[id].status)
  }

  /** From one loop head where the loop goes on to any later one, whatever control calls came between, the
      pending nodes are a proper part of what they were. */
  lemma PassLowersPending(cfg: Config, h: State, ls: seq<Label>)
    requires Continuing(cfg, h) && Settleable(cfg)
    requires ls != [] && IsRun(cfg, h, ls) && After(cfg, h, ls).phase == AtHead
    ensures PendingNodes(After(cfg, h, ls).nodes) < PendingNodes(h.nodes)
    ensures |PendingNodes(After(cfg, h, ls).nodes)| < |PendingNodes(h.nodes)|
  {
    var t := After(cfg, h, ls);
    RunKeepsInv(cfg, h, ls);
    forall id | id in PendingNodes(t.nodes) ensures id in PendingNodes(h.nodes) {
      if Terminal(h.nodes[id].status) { TerminalForGood(cfg, h, ls, id); }
    }
    var pending :| pending in h.nodes && !Terminal(h.nodes[pending].status);
    ResolvePoint(cfg, h, pending);
    var decided := SomeNodeIsDecided(cfg, h, pending);
    DecidedSettles(cfg, h, ls, decided);
    SmallerSet(PendingNodes(t.nodes), PendingNodes(h.nodes), decided);
  }

  lemma SmallerSet(a: set<Id>, b: set<Id>, x: Id)
    requires a <= b && x in b && x !in a
    ensures |a| < |b|
  {
    assert b == a + (b - a) && x in b - a;
  }

  /** A node taken out of WAITING at a loop head has settled by every later one. */
  lemma DecidedSettles(cfg: Config, h: State, ls: seq<Label>, id: Id)
    requires Continuing(cfg, h) && id in h.nodes && AfterResolve(cfg, h).nodes[id].status != Waiting
    requires ls != [] && IsRun(cfg, h, ls) && After(cfg, h, ls).phase == AtHead
    ensures id in After(cfg, h, ls).nodes && Terminal(After(cfg, h, ls).nodes[id].status)
  {
    var rest := FirstIsIterate(cfg, h, ls);
    PassStatus(cfg, h, id);
    IterateKeepsInv(cfg, h);
    StartedForGood(cfg, Iterated(cfg, h), rest, id);
    RunKeepsInv(cfg, Iterated(cfg, h), rest);
    HeadIsQuiet(cfg, After(cfg, h, ls));
  }

  /** From a loop head only an iteration leads on. */
  lemma FirstIsIterate(cfg: Config, h: State, ls: seq<Label>) returns (rest: seq<Label>)
    requires Shaped(cfg, h) && h.phase == AtHead && ls != [] && IsRun(cfg, h, ls)
    ensures IsRun(cfg, Iterated(cfg, h), rest) && After(cfg, Iterated(cfg, h), rest) == After(cfg, h, ls)
  {
    rest := ls[1..];
    assert ls == [ls[0]] + rest;
    RunSplit(cfg, h, [ls[0]], rest);
    FirstStepIs(cfg, h, ls[0]);
  }

  lemma FirstStepIs(cfg: Config, h: State, l: Label)
    requires Shaped(cfg, h) && h.phase == AtHead && IsRun(cfg, h, [l])
    ensures l == Iterate && After(cfg, h, [l]) == Iterated(cfg, h)
  {
    assert [l][..0] == [];
  }

  // ---------- safety in every reachable state ----------

  /** On any graph, valid or not, and under any control calls: what runs or has completed rests on
      completed dependencies only, lies outside every cycle and every missing dependency, and its plan
      step agrees with it. */
  lemma ReachableNodesAreSound(cfg: Config, s: State, ls: seq<Label>, id: Id)
    requires Initial(cfg, s) && IsRun(cfg, s, ls) && id in s.nodes
    ensures var t := After(cfg, s, ls);
      && (t.nodes[id].status == Running || t.nodes[id].status == Completed ==>
            && Grounded(cfg.graph, id)
            && forall d :: d in cfg.graph.deps[id] ==> d in t.nodes && t.nodes[d].status == Completed)
      && t.nodes[id].status != Ready
      && (t.nodes[id].status == Completed <==> id in t.steps && t.steps[id].status == StepCompleted)
      && (t.nodes[id].status == Completed ==> t.steps[id].result == t.nodes[id].result)
  {
    InitialInv(cfg, s);
    RunKeepsInv(cfg, s, ls);
    assert NodeInv(cfg, After(cfg, s, ls), id);
  }

  // ---------- results ----------

  /** Whenever a node has completed, in whatever order batches finished and whatever controls were
      called, its result is the one recursive evaluation gives; whenever a node with sound dependencies
      has failed, evaluation gives it none. */
  lemma ResultsAreDetermined(cfg: Config, s: State, ls: seq<Label>, id: Id)
    requires Initial(cfg, s) && IsRun(cfg, s, ls) && id in s.nodes && Grounded(cfg.graph, id)
    ensures var node := After(cfg, s, ls).nodes[id];
      && (node.status == Completed ==> node.result.Some? && node.result == Eval(cfg, id))
      && (node.status == Failed ==> Eval(cfg, id).None?)
  {
    InitialInv(cfg, s);
    RunKeepsInv(cfg, s, ls);
    assert NodeInv(cfg, After(cfg, s, ls), id);
  }

  /** A failed node has, at itself or up its dependencies, a node that failed on its own; and a node with
      such a node up its dependencies never completes. */
  lemma FailedIffCulprit(cfg: Config, id: Id)
    requires Grounded(cfg.graph, id)
    ensures Eval(cfg, id).None? <==> HasCulprit(cfg, id)
  {
    if Eval(cfg, id).None? {
      var chain := FailureHasCulprit(cfg, id);
      assert LeadsToCulprit(cfg, id, chain);
    }
    if chain :| LeadsToCulprit(cfg, id, chain) {
      CulpritSpoilsDependents(cfg, chain);
    }
  }

  // ---------- reports ----------

  /** How a run can have ended. A report of success is true exactly when no node was left paused. */
  lemma EndedRuns(cfg: Config, s: State)
    requires Inv(cfg, s) && s.phase.Ended?
    ensures s.tasks == map[]
    ensures s.phase.report == ReportFailed ==> !HasPending(s.nodes)
    ensures s.phase.report == ReportCancelled ==> !HasPending(s.nodes)
    ensures HasPending(s.nodes) ==>
      s.phase.report == ReportCompleted && exists id :: id in s.nodes && s.nodes[id].status == Paused
  {
    HeadIsQuiet(cfg, s);
    forall id | id in s.nodes
      ensures s.phase.report != ReportCompleted ==> Terminal(s.nodes[id].status)
      ensures !Terminal(s.nodes[id].status) ==> s.nodes[id].status == Paused
    {
      assert NodeInv(cfg, s, id);
    }
  }

  /** What the last loop iteration makes of the nodes it finds. */
  ghost predicate ReportIsEarned(s: State) {
    s.phase.Ended? ==>
      match s.phase.report
      case ReportCompleted =>
        (exists id :: id in s.nodes && s.nodes[id].status == Paused)
        || (forall id :: id in s.nodes ==> s.nodes[id].status == Completed)
      case ReportFailed => exists id :: id in s.nodes && s.nodes[id].status == Failed
      case ReportCancelled => true
  }

  lemma FinalisedReportIsEarned(cfg: Config, s: State)
    requires Inv(cfg, s) && s.phase == AtHead
    requires s.control == RunRunning ==> !HasPending(s.nodes)
    ensures ReportIsEarned(Finalised(cfg, s))
  {
    HeadIsQuiet(cfg, s);
    forall id | id in s.nodes && s.control != RunCancelled && s.nodes[id].status != Paused
      ensures s.nodes[id].status == Completed || s.nodes[id].status == Failed
    {
      assert NodeInv(cfg, s, id);
    }
  }

  lemma StepEarnsReport(cfg: Config, s: State, l: Label)
    requires Inv(cfg, s) && Enabled(s, l) && ReportIsEarned(s)
    ensures ReportIsEarned(Apply(cfg, s, l))
  {
    match l
    case Iterate =>
      if !ShouldContinue(s.control, s.nodes) {
        FinalisedReportIsEarned(cfg, s);
      } else if ReadySet(AfterResolve(cfg, s).nodes) == {} && !HasPending(AfterResolve(cfg, s).nodes) {
        ResolveKeepsInv(cfg, s, AtHead);
        FinalisedReportIsEarned(cfg, AfterResolve(cfg, s));
      }
    case Pause => EndedIgnoresControl(cfg, s, l);
    case Resume => EndedIgnoresControl(cfg, s, l);
    case Cancel => EndedIgnoresControl(cfg, s, l);
    case _ =>
  }

  /** A finished run cannot be paused, resumed or cancelled. */
  lemma EndedIgnoresControl(cfg: Config, s: State, l: Label)
    requires Inv(cfg, s) && IsControl(l) && Enabled(s, l)
    ensures s.phase.Ended? ==> Controlled(cfg, s, l) == s
    ensures Controlled(cfg, s, l).phase == s.phase
  {
  }

  lemma {:induction false} RunEarnsReport(cfg: Config, s: State, ls: seq<Label>)
    requires Initial(cfg, s) && IsRun(cfg, s, ls)
    ensures Inv(cfg, After(cfg, s, ls)) && ReportIsEarned(After(cfg, s, ls))
  {
    InitialInv(cfg, s);
    if ls != [] {
      var before := ls[..|ls| - 1];
      RunEarnsReport(cfg, s, before);
      StepKeepsInv(cfg, After(cfg, s, before), ls[|ls| - 1]);
      StepEarnsReport(cfg, After(cfg, s, before), ls[|ls| - 1]);
    }
  }

  /** The run `ls` ended in the iteration at position `k`; control calls after that change nothing. */
  ghost predicate EndedAt(cfg: Config, s: State, ls: seq<Label>, k: nat)
    requires Shaped(cfg, s) && IsRun(cfg, s, ls)
  {
    && k < |ls| && ls[k] == Iterate && IsRun(cfg, s, ls[..k])
    && After(cfg, s, ls[..k]).phase == AtHead
    && After(cfg, s, ls) == Iterated(cfg, After(cfg, s, ls[..k]))
  }

  /** Only an iteration ends a run. */
  lemma OnlyIterationsEnd(cfg: Config, s: State, l: Label)
    requires Inv(cfg, s) && Enabled(s, l) && Apply(cfg, s, l).phase.Ended?
    ensures l == Iterate || (IsControl(l) && s.phase.Ended? && Apply(cfg, s, l) == s)
  {
    match l
    case Iterate =>
    case Wake =>
    case Join =>
    case Advance(id) => AdvancePoint(cfg, s, id);
    case _ => EndedIgnoresControl(cfg, s, l);
  }

  /** Every ended run has a last loop head. */
  lemma {:induction false} EndedRunHasLastHead(cfg: Config, s: State, ls: seq<Label>) returns (k: nat)
    requires Initial(cfg, s) && IsRun(cfg, s, ls) && After(cfg, s, ls).phase.Ended?
    ensures EndedAt(cfg, s, ls, k)
  {
    var before, l := ls[..|ls| - 1], ls[|ls| - 1];
    InitialInv(cfg, s);
    RunKeepsInv(cfg, s, before);
    OnlyIterationsEnd(cfg, After(cfg, s, before), l);
    if l == Iterate {
      k := |ls| - 1;
    } else {
      k := EndedRunHasLastHead(cfg, s, before);
      assert before[..k] == ls[..k];
    }
  }

  /** A report of success although some node did not complete. */
  ghost predicate FalseSuccess(s: State) {
    s.phase == Ended(ReportCompleted) && exists id :: id in s.nodes && s.nodes[id].status != Completed
  }

  /** The exact condition, at the loop head, for a false report of success: a pause is in force and some
      node is pending. */
  lemma PauseAtHeadEndsRun(cfg: Config, h: State)
    requires Inv(cfg, h) && h.phase == AtHead
    ensures FalseSuccess(Iterated(cfg, h)) <==> h.control == RunPaused && HasPending(h.nodes)
  {
    var t := Iterated(cfg, h);
    StepEarnsReport(cfg, h, Iterate);
    if h.control == RunPaused {
      PausedHeadEnds(cfg, h);
    } else if h.control == RunRunning {
      forall id | id in h.nodes ensures t.nodes[id].status != Paused {
        assert NodeInv(cfg, h, id);
        if ShouldContinue(h.control, h.nodes) {
          ResolvePoint(cfg, h, id);
          IteratePoint(cfg, h, id);
        }
      }
    } else {
      FinalisedControl(cfg, h);
    }
  }

  lemma PausedHeadEnds(cfg: Config, h: State)
    requires Inv(cfg, h) && h.phase == AtHead && h.control == RunPaused
    ensures var t := Iterated(cfg, h);
      t.nodes == h.nodes && t.phase == Ended(if ShouldFail(h.nodes) then ReportFailed else ReportCompleted)
    ensures !HasPending(h.nodes) && !ShouldFail(h.nodes) ==>
      forall id :: id in h.nodes ==> h.nodes[id].status == Completed
  {
    forall id | id in h.nodes ensures h.nodes[id].status != Cancelled {
      assert NodeInv(cfg, h, id);
    }
  }

  /** Every report of every run, whatever the graph and the control calls, by the state at the last loop
      head: COMPLETED is false if and only if a pause was in force there with a node pending; FAILED and
      CANCELLED leave nothing pending, and FAILED has a failed node. */
  lemma ReportsAreTrueUnlessPaused(cfg: Config, s: State, ls: seq<Label>, k: nat)
    requires Initial(cfg, s) && IsRun(cfg, s, ls) && After(cfg, s, ls).phase.Ended? && EndedAt(cfg, s, ls, k)
    ensures var h, t := After(cfg, s, ls[..k]), After(cfg, s, ls);
      && (FalseSuccess(t) <==> h.control == RunPaused && HasPending(h.nodes))
      && (t.phase.report == ReportFailed ==>
            !HasPending(t.nodes) && exists id :: id in t.nodes && t.nodes[id].status == Failed)
      && (t.phase.report == ReportCancelled ==> !HasPending(t.nodes) && t.control == RunCancelled)
  {
    InitialInv(cfg, s);
    RunKeepsInv(cfg, s, ls[..k]);
    PauseAtHeadEndsRun(cfg, After(cfg, s, ls[..k]));
    RunEarnsReport(cfg, s, ls);
    EndedRuns(cfg, After(cfg, s, ls));
  }

  /** The node evaluation predicts. */
  ghost function EvalNode(cfg: Config, id: Id): Node
    requires Grounded(cfg.graph, id)
  {
    match Eval(cfg, id)
    case Some(result) => Node(Completed, Some(result))
    case None => Node(Failed, None)
  }

  /** The outcome of a run that was neither cancelled nor ended by a pause: exactly the recursively
      defined status of every node, its result, and the report that goes with it. */
  lemma FinalStatusIsEvaluation(cfg: Config, s: State, ls: seq<Label>)
    requires Initial(cfg, s) && AllGrounded(cfg.graph) && IsRun(cfg, s, ls)
    requires After(cfg, s, ls).phase.Ended? && After(cfg, s, ls).phase.report != ReportCancelled
    requires forall id :: id in s.nodes ==> After(cfg, s, ls).nodes[id].status != Paused
    ensures var t := After(cfg, s, ls);
      && (forall id :: id in s.nodes ==> t.nodes[id] == EvalNode(cfg, id))
      && (t.phase.report == ReportCompleted <==> forall id :: id in s.nodes ==> Eval(cfg, id).Some?)
  {
    var t := After(cfg, s, ls);
    RunEarnsReport(cfg, s, ls);
    EndedStateIsEvaluation(cfg, t);
  }

  lemma EndedStateIsEvaluation(cfg: Config, t: State)
    requires Inv(cfg, t) && ReportIsEarned(t) && AllGrounded(cfg.graph)
    requires t.phase.Ended? && t.phase.report != ReportCancelled
    requires forall id :: id in t.nodes ==> t.nodes[id].status != Paused
    ensures forall id :: id in t.nodes ==> t.nodes[id] == EvalNode(cfg, id)
    ensures t.phase.report == ReportCompleted <==> forall id :: id in t.nodes ==> Eval(cfg, id).Some?
  {
    forall id | id in t.nodes ensures t.nodes[id] == EvalNode(cfg, id) {
      EndedNodeIsSettled(cfg, t, id);
      SettledNodeIsEvalNode(cfg, t, id);
    }
    if t.phase.report == ReportFailed {
      var failed :| failed in t.nodes && t.nodes[failed].status == Failed;
      assert Eval(cfg, failed).None?;
    }
  }

  lemma SettledNodeIsEvalNode(cfg: Config, t: State, id: Id)
    requires Inv(cfg, t) && id in t.nodes && Grounded(cfg.graph, id)
    requires t.nodes[id].status == Completed || t.nodes[id].status == Failed
    ensures t.nodes[id] == EvalNode(cfg, id)
  {
    assert NodeInv(cfg, t, id);
  }

  /** How a run that was neither cancelled nor left paused leaves each node. */
  lemma EndedNodeIsSettled(cfg: Config, t: State, id: Id)
    requires Inv(cfg, t) && t.phase.Ended? && t.phase.report != ReportCancelled && id in t.nodes
    requires t.nodes[id].status != Paused
    ensures t.nodes[id].status == Completed || t.nodes[id].status == Failed
  {
    HeadIsQuiet(cfg, t);
    assert NodeInv(cfg, t, id);
  }

  // ---------- what the control calls do ----------

  /** Nodes whose status is in `from` have the status `to` now, and nothing else has changed but the control
      status and the recorded lists. */
  ghost predicate OnlyMoved(s: State, t: State, from: set<NodeStatus>, to: NodeStatus) {
    && t == s.(control := t.control, nodes := t.nodes, view := t.view) && t.nodes.Keys == s.nodes.Keys
    && forall id :: id in s.nodes ==>
         t.nodes[id] == if s.nodes[id].status in from then s.nodes[id].(status := to) else s.nodes[id]
  }

  /** A cancel of a running or paused execution takes effect at once; any other changes nothing. */
  lemma CancelTakesEffect(cfg: Config, s: State)
    requires Shaped(cfg, s) && Enabled(s, Cancel)
    ensures var t := Apply(cfg, s, Cancel);
      if s.control == RunRunning || s.control == RunPaused
      then t.control == RunCancelled && OnlyMoved(s, t, {Waiting, Ready, Paused}, Cancelled)
      else t == s
  {
  }

  /** So does a pause of a running execution. */
  lemma PauseTakesEffect(cfg: Config, s: State)
    requires Shaped(cfg, s) && Enabled(s, Pause)
    ensures var t := Apply(cfg, s, Pause);
      if s.control == RunRunning then t.control == RunPaused && OnlyMoved(s, t, {Waiting, Ready}, Paused)
      else t == s
  {
  }

  /** And a resume of a paused one. */
  lemma ResumeTakesEffect(cfg: Config, s: State)
    requires Shaped(cfg, s) && Enabled(s, Resume)
    ensures var t := Apply(cfg, s, Resume);
      if s.control == RunPaused then t.control == RunRunning && OnlyMoved(s, t, {Paused}, Waiting)
      else t == s
  {
  }

  // ---------- cancel ----------

  lemma StepAfterCancel(cfg: Config, s: State, l: Label)
    requires Inv(cfg, s) && s.control == RunCancelled && Enabled(s, l)
    ensures Apply(cfg, s, l).control == RunCancelled
    ensures forall id :: id in s.nodes && s.nodes[id].status != Running ==> Apply(cfg, s, l).nodes[id].status != Running
  {
    var t := Apply(cfg, s, l);
    forall id | id in s.nodes && s.nodes[id].status != Running ensures t.nodes[id].status != Running {
      assert NodeInv(cfg, s, id);
      StepMovesLegally(cfg, s, l, id);
    }
    if l.Advance? { AdvancePoint(cfg, s, l.id); }
  }

  /** A cancelled state with nothing in flight has nothing left to do. */
  lemma CancelledAndDrained(cfg: Config, t: State)
    requires Inv(cfg, t) && t.control == RunCancelled
    ensures (forall id :: id in t.tasks ==> t.tasks[id] == Settled) ==> !HasPending(t.nodes)
    ensures t.phase.Ended? ==> t.phase.report == ReportCancelled
  {
    forall id | id in t.nodes ensures Terminal(t.nodes[id].status) || InFlight(t, id) {
      assert NodeInv(cfg, t, id);
    }
  }

  /** After a cancel took effect: the control status stays CANCELLED, no node is ever started, once
      nothing is in flight every node is terminal, and the only report is CANCELLED. */
  lemma {:induction false} CancelIsFinal(cfg: Config, s: State, ls: seq<Label>)
    requires Inv(cfg, s) && s.control == RunCancelled && IsRun(cfg, s, ls)
    ensures var t := After(cfg, s, ls);
      && t.control == RunCancelled
      && (forall id :: id in s.nodes && t.nodes[id].status == Running ==> s.nodes[id].status == Running)
      && ((forall id :: id in t.tasks ==> t.tasks[id] == Settled) ==> !HasPending(t.nodes))
      && (t.phase.Ended? ==> t.phase.report == ReportCancelled)
  {
    RunKeepsInv(cfg, s, ls);
    if ls != [] {
      var before := ls[..|ls| - 1];
      CancelIsFinal(cfg, s, before);
      RunKeepsInv(cfg, s, before);
      StepAfterCancel(cfg, After(cfg, s, before), ls[|ls| - 1]);
    }
    CancelledAndDrained(cfg, After(cfg, s, ls));
  }

  /** From a cancel of a running or paused execution on: cancelled, with nothing started any more, and
      nothing pending once what was in flight is done. */
  lemma CancelEndsIt(cfg: Config, s: State, ls: seq<Label>)
    requires Inv(cfg, s) && Enabled(s, Cancel) && (s.control == RunRunning || s.control == RunPaused)
    requires IsRun(cfg, Apply(cfg, s, Cancel), ls)
    ensures var t := After(cfg, Apply(cfg, s, Cancel), ls);
      && t.control == RunCancelled
      && (forall id :: id in s.nodes && t.nodes[id].status == Running ==> s.nodes[id].status == Running)
      && (forall id :: id in s.nodes && s.nodes[id].status in {Waiting, Ready, Paused} ==>
            t.nodes[id] == s.nodes[id].(status := Cancelled))
      && ((forall id :: id in t.tasks ==> t.tasks[id] == Settled) ==> !HasPending(t.nodes))
      && (t.phase.Ended? ==> t.phase.report == ReportCancelled)
  {
    var c := Apply(cfg, s, Cancel);
    CancelTakesEffect(cfg, s);
    StepKeepsInv(cfg, s, Cancel);
    CancelIsFinal(cfg, c, ls);
    forall id | id in s.nodes && s.nodes[id].status in {Waiting, Ready, Paused}
      ensures After(cfg, c, ls).nodes[id] == s.nodes[id].(status := Cancelled)
    {
      TerminalForGood(cfg, c, ls, id);
    }
  }

  // ---------- undisturbed runs ----------

  lemma {:induction false} UndisturbedStaysRunning(cfg: Config, s: State, ls: seq<Label>)
    requires Initial(cfg, s) && IsRun(cfg, s, ls) && NoControl(ls)
    ensures var t := After(cfg, s, ls);
      && Inv(cfg, t)
      && (!t.phase.Ended? ==> t.control == RunRunning)
      && (forall id :: id in t.nodes ==> t.nodes[id].status != Paused && t.nodes[id].status != Cancelled)
      && (t.phase.Ended? ==> t.phase.report != ReportCancelled)
  {
    InitialInv(cfg, s);
    if ls != [] {
      var before := ls[..|ls| - 1];
      UndisturbedStaysRunning(cfg, s, before);
      var b, l := After(cfg, s, before), ls[|ls| - 1];
      StepKeepsInv(cfg, b, l);
      var t := Apply(cfg, b, l);
      forall id | id in b.nodes ensures t.nodes[id].status != Paused && t.nodes[id].status != Cancelled {
        UncontrolledStepPoint(cfg, b, l, id);
      }
      UncontrolledStepControl(cfg, b, l);
    }
  }

  lemma UncontrolledStepPoint(cfg: Config, s: State, l: Label, id: Id)
    requires Inv(cfg, s) && Enabled(s, l) && !IsControl(l) && id in s.nodes
    requires s.nodes[id].status != Paused && s.nodes[id].status != Cancelled
    ensures var t := Apply(cfg, s, l); t.nodes[id].status != Paused && t.nodes[id].status != Cancelled
  {
    match l
    case Iterate =>
      if ShouldContinue(s.control, s.nodes) {
        ResolvePoint(cfg, s, id);
        IteratePoint(cfg, s, id);
      }
    case Advance(a) =>
      AdvancePoint(cfg, s, a);
      if a != id { AdvanceIsLocal(cfg, s, a, id); }
    case _ =>
  }

  lemma UncontrolledStepControl(cfg: Config, s: State, l: Label)
    requires Inv(cfg, s) && Enabled(s, l) && !IsControl(l) && s.control == RunRunning
    ensures var t := Apply(cfg, s, l);
      && (!t.phase.Ended? ==> t.control == RunRunning)
      && (t.phase.Ended? ==> t.phase.report != ReportCancelled)
  {
    match l
    case Iterate => IterateControl(cfg, s);
    case Advance(id) => AdvancePoint(cfg, s, id);
    case _ =>
  }

  lemma IterateControl(cfg: Config, s: State)
    requires Shaped(cfg, s) && s.control == RunRunning && s.phase == AtHead
    ensures var t := Iterated(cfg, s);
      && (!t.phase.Ended? ==> t.control == RunRunning)
      && (t.phase.Ended? ==> t.phase.report != ReportCancelled)
  {
    var r := AfterResolve(cfg, s);
    FinalisedControl(cfg, s);
    FinalisedControl(cfg, r);
    assert BatchStarted(cfg, r).control == RunRunning && BatchStarted(cfg, r).phase == InBatch;
  }

  lemma FinalisedControl(cfg: Config, s: State)
    ensures var t := Finalised(cfg, s);
      && t.phase.Ended? && t.control == FinalControl(t.phase.report)
      && (t.phase.report == ReportCancelled <==> s.control == RunCancelled)
  {
  }

  /** An uninterrupted run of a valid graph that can make no further step has ended, with exactly the
      recursively defined status map. */
  lemma UndisturbedRunComputesEval(cfg: Config, s: State, ls: seq<Label>)
    requires Initial(cfg, s) && AllGrounded(cfg.graph) && IsRun(cfg, s, ls) && NoControl(ls)
    requires forall l :: !IsControl(l) ==> !Enabled(After(cfg, s, ls), l)
    ensures var t := After(cfg, s, ls);
      && t.phase.Ended?
      && (forall id :: id in s.nodes ==> t.nodes[id] == EvalNode(cfg, id))
      && (t.phase.report == ReportCompleted <==> forall id :: id in s.nodes ==> Eval(cfg, id).Some?)
  {
    UndisturbedStaysRunning(cfg, s, ls);
    if !After(cfg, s, ls).phase.Ended? {
      var l := RunCanGoOn(cfg, After(cfg, s, ls));
    }
    FinalStatusIsEvaluation(cfg, s, ls);
  }
}
