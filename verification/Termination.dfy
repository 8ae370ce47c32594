/** Why every run ends: a measure that no step raises and every orchestrator step lowers. */
module Termination {
  import opened Graphs
  import opened Models
  import opened Protocol
  import opened Evaluation
  import opened Invariants
  import opened Passes

  /** Steps a node still owes: at most seven while idle, one per attempt left while running. */
  ghost function Owed(s: State, id: Id): nat {
    if id !in s.nodes then 0
    else if Idle(s.nodes[id].status) then 7
    else if s.nodes[id].status != Running || id !in s.tasks then 0
    else match s.tasks[id]
      case Starting => 5
      case Attempting(attempt, _) => if attempt <= 4 then 5 - attempt else 1
      case Settled => 0
  }

  ghost function TotalOwed(s: State, ids: seq<Id>): nat {
    if ids == [] then 0 else Owed(s, ids[0]) + TotalOwed(s, ids[1..])
  }

  ghost function PhaseOwed(phase: Phase): nat {
    match phase
    case Ended(_) => 0
    case AtHead => 1
    case _ => 2
  }

  ghost function Measure(cfg: Config, s: State): nat {
    TotalOwed(s, cfg.graph.order) + PhaseOwed(s.phase)
  }

  lemma {:induction false} OwedDoesNotGrow(s: State, t: State, ids: seq<Id>)
    requires forall id :: id in ids ==> Owed(t, id) <= Owed(s, id)
    ensures TotalOwed(t, ids) <= TotalOwed(s, ids)
  {
    if ids != [] {
      assert ids[0] in ids;
      OwedDoesNotGrow(s, t, ids[1..]);
    }
  }

  lemma {:induction false} OwedShrinks(s: State, t: State, ids: seq<Id>, less: Id, by_: nat)
    requires forall id :: id in ids ==> Owed(t, id) <= Owed(s, id)
    requires less in ids && Owed(t, less) + by_ <= Owed(s, less)
    ensures TotalOwed(t, ids) + by_ <= TotalOwed(s, ids)
  {
    assert ids[0] in ids;
    if ids[0] == less {
      OwedDoesNotGrow(s, t, ids[1..]);
    } else {
      OwedShrinks(s, t, ids[1..], less, by_);
    }
  }

  /** Every resolve decides some waiting node, when one is grounded: follow waiting dependencies upwards. */
  lemma {:induction false} GroundedNodeIsDecided(cfg: Config, s: State, id: Id) returns (decided: Id)
    requires Continuing(cfg, s) && Grounded(cfg.graph, id)
    requires id in s.nodes && s.nodes[id].status == Waiting
    ensures decided in s.nodes && s.nodes[decided].status == Waiting
    ensures AfterResolve(cfg, s).nodes[decided].status != Waiting
    decreases Depth(cfg.graph, id)
  {
    if d :| d in cfg.graph.deps[id] && d in s.nodes && s.nodes[d].status == Waiting {
      DependencyIsShallower(cfg.graph, id, d);
      decided := GroundedNodeIsDecided(cfg, s, d);
    } else {
      decided := id;
      if !AnyDependencyFailed(cfg.graph, s.nodes, id) {
        forall d | d in cfg.graph.deps[id] ensures d in s.nodes && s.nodes[d].status == Completed {
          DependencyIsShallower(cfg.graph, id, d);
          GroundedIsNode(cfg.graph, d);
          ResolvePoint(cfg, s, d);
        }
      }
    }
  }

  /** The same for a waiting node that has a culprit: somewhere on the way to it a failure stops. */
  lemma {:induction false} FailureReachesSomeNode(cfg: Config, s: State, chain: seq<Id>) returns (decided: Id)
    requires Continuing(cfg, s) && chain != [] && LeadsToCulprit(cfg, chain[0], chain)
    requires chain[0] in s.nodes && s.nodes[chain[0]].status == Waiting
    ensures decided in s.nodes && s.nodes[decided].status == Waiting
    ensures AfterResolve(cfg, s).nodes[decided].status != Waiting
    decreases |chain|
  {
    if Grounded(cfg.graph, chain[0]) {
      decided := GroundedNodeIsDecided(cfg, s, chain[0]);
    } else {
      ChainTail(cfg.graph, chain);
      NextOnChain(cfg, s, chain);
      if s.nodes[chain[1]].status == Waiting {
        decided := FailureReachesSomeNode(cfg, s, chain[1..]);
      } else {
        decided := chain[0];
        assert AnyDependencyFailed(cfg.graph, s.nodes, decided);
      }
    }
  }

  /** What a node with a culprit depends on along the way has not completed. */
  lemma NextOnChain(cfg: Config, s: State, chain: seq<Id>)
    requires Continuing(cfg, s) && 1 < |chain| && LeadsToCulprit(cfg, chain[0], chain)
    ensures LeadsToCulprit(cfg, chain[1], chain[1..])
    ensures chain[1] in s.nodes && (s.nodes[chain[1]].status == Waiting || s.nodes[chain[1]].status == Failed)
  {
    var rest := chain[1..];
    ChainTail(cfg.graph, chain);
    assert rest[|rest| - 1] == chain[|chain| - 1];
    if |rest| == 1 { GroundedIsNode(cfg.graph, rest[0]); } else { ChainTail(cfg.graph, rest); }
    ResolvePoint(cfg, s, chain[1]);
    assert LeadsToCulprit(cfg, chain[1], rest);
    CulpritNeverCompletes(cfg, s, chain[1]);
  }

  lemma CulpritNeverCompletes(cfg: Config, s: State, id: Id)
    requires Inv(cfg, s) && id in s.nodes && HasCulprit(cfg, id)
    ensures s.nodes[id].status != Completed
  {
    assert NodeInv(cfg, s, id);
    var chain :| LeadsToCulprit(cfg, id, chain);
    if Grounded(cfg.graph, id) {
      CulpritSpoilsDependents(cfg, chain);
    }
  }

  /** When every node has a fate, every resolve decides some waiting node. */
  lemma SomeNodeIsDecided(cfg: Config, s: State, id: Id) returns (decided: Id)
    requires Continuing(cfg, s) && Settleable(cfg)
    requires id in s.nodes && s.nodes[id].status == Waiting
    ensures decided in s.nodes && s.nodes[decided].status == Waiting
    ensures AfterResolve(cfg, s).nodes[decided].status != Waiting
  {
    if Grounded(cfg.graph, id) {
      decided := GroundedNodeIsDecided(cfg, s, id);
    } else {
      var chain :| LeadsToCulprit(cfg, id, chain);
      decided := FailureReachesSomeNode(cfg, s, chain);
    }
  }

  /** A waiting node that is decided owes at least two steps fewer. */
  lemma IterateOwes(cfg: Config, s: State, id: Id)
    requires Continuing(cfg, s) && id in s.nodes
    ensures Owed(Iterated(cfg, s), id) <= Owed(s, id)
    ensures s.nodes[id].status == Waiting && AfterResolve(cfg, s).nodes[id].status != Waiting
      ==> Owed(Iterated(cfg, s), id) + 2 <= Owed(s, id)
  {
    ResolvePoint(cfg, s, id);
    IteratePoint(cfg, s, id);
    PointOwes(s, AfterResolve(cfg, s), Iterated(cfg, s), id);
  }

  lemma PointOwes(s: State, r: State, t: State, id: Id)
    requires id in s.nodes && id in r.nodes && IteratedPoint(s, r, t, id)
    requires s.nodes[id].status == Waiting || s.nodes[id].status == Completed || s.nodes[id].status == Failed
    requires s.nodes[id].status != Waiting ==> r.nodes[id] == s.nodes[id]
    requires r.nodes[id].status == Completed ==> s.nodes[id].status == Completed
    requires !Active(r.nodes, id) || r.nodes[id].status == Completed
    requires r.nodes[id].status != Paused
    ensures Owed(t, id) <= Owed(s, id)
    ensures s.nodes[id].status == Waiting && r.nodes[id].status != Waiting ==> Owed(t, id) + 2 <= Owed(s, id)
  {
  }

  lemma PassPaysOff(cfg: Config, s: State)
    requires Continuing(cfg, s) && Settleable(cfg)
    ensures TotalOwed(Iterated(cfg, s), cfg.graph.order) + 2 <= TotalOwed(s, cfg.graph.order)
  {
    var pending :| pending in s.nodes && !Terminal(s.nodes[pending].status);
    ResolvePoint(cfg, s, pending);
    var decided := SomeNodeIsDecided(cfg, s, pending);
    forall id | id in cfg.graph.order ensures Owed(Iterated(cfg, s), id) <= Owed(s, id) {
      IterateOwes(cfg, s, id);
    }
    IterateOwes(cfg, s, decided);
    OwedShrinks(s, Iterated(cfg, s), cfg.graph.order, decided, 2);
  }

  lemma FinaliseLowersMeasure(cfg: Config, s: State)
    requires Shaped(cfg, s) && s.phase == AtHead
    ensures Measure(cfg, Finalised(cfg, s)) < Measure(cfg, s)
  {
    var t := Finalised(cfg, s);
    assert t.nodes == s.nodes && t.tasks == s.tasks;
    OwedDoesNotGrow(s, t, cfg.graph.order);
  }

  lemma IterateLeavesHead(cfg: Config, s: State)
    requires Shaped(cfg, s) && ShouldContinue(s.control, s.nodes)
    ensures Iterated(cfg, s).phase != AtHead
  {
    IterationIs(cfg, s);
    var r := AfterResolve(cfg, s);
    if ReadySet(r.nodes) != {} {
      StartedIsInBatch(cfg, r);
    }
  }

  lemma StartedIsInBatch(cfg: Config, r: State)
    ensures BatchStarted(cfg, r).phase == InBatch
  {
  }

  lemma IterateLowersMeasure(cfg: Config, s: State)
    requires Inv(cfg, s) && s.phase == AtHead && Settleable(cfg)
    ensures Measure(cfg, Iterated(cfg, s)) < Measure(cfg, s)
  {
    if ShouldContinue(s.control, s.nodes) {
      PassPaysOff(cfg, s);
      IterateLeavesHead(cfg, s);
    } else {
      FinaliseLowersMeasure(cfg, s);
    }
  }

  lemma AdvanceLowersMeasure(cfg: Config, s: State, id: Id)
    requires Inv(cfg, s) && Enabled(s, Advance(id))
    ensures Measure(cfg, Advanced(cfg, s, id)) < Measure(cfg, s)
  {
    var t := Advanced(cfg, s, id);
    AdvanceOwes(cfg, s, id);
    forall other | other in cfg.graph.order ensures Owed(t, other) <= Owed(s, other) {
      if other != id { AdvanceIsLocal(cfg, s, id, other); }
    }
    OwedShrinks(s, t, cfg.graph.order, id, 1);
  }

  lemma AdvanceOwes(cfg: Config, s: State, id: Id)
    requires Inv(cfg, s) && Enabled(s, Advance(id))
    ensures Owed(Advanced(cfg, s, id), id) < Owed(s, id)
  {
    assert NodeInv(cfg, s, id);
    AdvancePoint(cfg, s, id);
  }

  lemma JoinLowersMeasure(cfg: Config, s: State)
    requires Inv(cfg, s) && Enabled(s, Join)
    ensures Measure(cfg, Joined(cfg, s)) < Measure(cfg, s)
  {
    forall id | id in cfg.graph.order ensures Owed(Joined(cfg, s), id) <= Owed(s, id) {
      assert NodeInv(cfg, s, id);
    }
    OwedDoesNotGrow(s, Joined(cfg, s), cfg.graph.order);
  }

  lemma ControlDoesNotRaiseMeasure(cfg: Config, s: State, l: Label)
    requires Inv(cfg, s) && IsControl(l) && Enabled(s, l)
    ensures Measure(cfg, Controlled(cfg, s, l)) <= Measure(cfg, s)
  {
    forall id | id in cfg.graph.order ensures Owed(Controlled(cfg, s, l), id) <= Owed(s, id) {
      ControlPoint(cfg, s, l, id);
      ControlledOwes(s, Controlled(cfg, s, l), id);
    }
    OwedDoesNotGrow(s, Controlled(cfg, s, l), cfg.graph.order);
    ControlKeepsPhase(cfg, s, l);
  }

  lemma ControlledOwes(s: State, t: State, id: Id)
    requires id in s.nodes && id in t.nodes && ControlledNode(s, t, id) && t.tasks == s.tasks
    ensures Owed(t, id) <= Owed(s, id)
  {
  }

  lemma ControlKeepsPhase(cfg: Config, s: State, l: Label)
    ensures Controlled(cfg, s, l).phase == s.phase
  {
  }

  lemma WakeLowersMeasure(cfg: Config, s: State)
    requires s.phase == Asleep
    ensures Measure(cfg, s.(phase := AtHead)) < Measure(cfg, s)
  {
    OwedDoesNotGrow(s, s.(phase := AtHead), cfg.graph.order);
  }

  lemma StepLowersMeasure(cfg: Config, s: State, l: Label)
    requires Inv(cfg, s) && Enabled(s, l) && Settleable(cfg)
    ensures Measure(cfg, Apply(cfg, s, l)) + (if IsControl(l) then 0 else 1) <= Measure(cfg, s)
  {
    match l
    case Iterate => IterateLowersMeasure(cfg, s);
    case Advance(id) => AdvanceLowersMeasure(cfg, s, id);
    case Wake => WakeLowersMeasure(cfg, s);
    case Join => JoinLowersMeasure(cfg, s);
    case _ => ControlDoesNotRaiseMeasure(cfg, s, l);
  }

  /** Number of orchestrator steps, that is, steps other than control calls, in a run. */
  function OrchestratorSteps(ls: seq<Label>): nat {
    if ls == [] then 0
    else OrchestratorSteps(ls[..|ls| - 1]) + if IsControl(ls[|ls| - 1]) then 0 else 1
  }

  lemma {:induction false} RunLowersMeasure(cfg: Config, s: State, ls: seq<Label>)
    requires Inv(cfg, s) && Settleable(cfg) && IsRun(cfg, s, ls)
    ensures Measure(cfg, After(cfg, s, ls)) + OrchestratorSteps(ls) <= Measure(cfg, s)
  {
    if ls != [] {
      var before := ls[..|ls| - 1];
      RunLowersMeasure(cfg, s, before);
      RunKeepsInv(cfg, s, before);
      StepLowersMeasure(cfg, After(cfg, s, before), ls[|ls| - 1]);
    }
  }

  lemma {:induction false} IdleNodesOweSeven(s: State, ids: seq<Id>)
    requires forall id :: id in s.nodes ==> Idle(s.nodes[id].status)
    ensures TotalOwed(s, ids) <= 7 * |ids|
  {
    if ids != [] { IdleNodesOweSeven(s, ids[1..]); }
  }

  /** Where every node has a fate, on valid graphs in particular, no run, whatever control calls are mixed
      in, makes more than 7n + 1 orchestrator steps. */
  lemma EveryRunIsShort(cfg: Config, s: State, ls: seq<Label>)
    requires Initial(cfg, s) && Settleable(cfg) && IsRun(cfg, s, ls)
    ensures OrchestratorSteps(ls) <= 7 * |cfg.graph.order| + 1
  {
    InitialInv(cfg, s);
    RunLowersMeasure(cfg, s, ls);
    IdleNodesOweSeven(s, cfg.graph.order);
  }

  /** And a run never gets stuck before its end: some orchestrator step is possible. */
  lemma RunCanGoOn(cfg: Config, s: State) returns (l: Label)
    requires Inv(cfg, s) && !s.phase.Ended?
    ensures !IsControl(l) && Enabled(s, l)
  {
    match s.phase
    case AtHead => l := Iterate;
    case Asleep => l := Wake;
    case InBatch =>
      if id :| id in s.tasks && s.tasks[id] != Settled {
        l := Advance(id);
      } else {
        l := Join;
      }
  }

  predicate NoControl(ls: seq<Label>) {
    forall i :: 0 <= i < |ls| ==> !IsControl(ls[i])
  }

  lemma {:induction false} UncontrolledStepsCount(ls: seq<Label>)
    requires NoControl(ls)
    ensures OrchestratorSteps(ls) == |ls|
  {
    if ls != [] { UncontrolledStepsCount(ls[..|ls| - 1]); }
  }

  // ---------- why validation is needed ----------

  /** A node fails only on its own or because of a failure up its dependencies, on any graph. */
  ghost predicate FailuresHaveCulprits(cfg: Config, s: State) {
    && Inv(cfg, s)
    && forall id {:trigger s.nodes[id]} :: id in s.nodes && s.nodes[id].status == Failed ==> HasCulprit(cfg, id)
  }

  lemma ResolvedFailureHasCulprit(cfg: Config, s: State, id: Id)
    requires FailuresHaveCulprits(cfg, s) && Continuing(cfg, s) && id in s.nodes
    requires AfterResolve(cfg, s).nodes[id].status == Failed
    ensures HasCulprit(cfg, id)
  {
    ResolvePoint(cfg, s, id);
    if s.nodes[id].status != Failed {
      var d :|
        d in cfg.graph.deps[id] && d in s.nodes && (s.nodes[d].status == Failed || s.nodes[d].status == Cancelled);
      ResolvePoint(cfg, s, d);
      CulpritIsInherited(cfg, id, d);
    }
  }

  lemma AdvancedFailureHasCulprit(cfg: Config, s: State, id: Id)
    requires Inv(cfg, s) && Enabled(s, Advance(id))
    requires Advanced(cfg, s, id).nodes[id].status == Failed
    ensures HasCulprit(cfg, id)
  {
    AdvanceKeepsInv(cfg, s, id);
    assert NodeInv(cfg, s, id) && NodeInv(cfg, Advanced(cfg, s, id), id);
    var chain := FailureHasCulprit(cfg, id);
    assert LeadsToCulprit(cfg, id, chain);
  }

  lemma StepFailureHasCulprit(cfg: Config, s: State, l: Label, id: Id)
    requires FailuresHaveCulprits(cfg, s) && Enabled(s, l) && id in s.nodes
    requires Apply(cfg, s, l).nodes[id].status == Failed
    ensures HasCulprit(cfg, id)
  {
    match l
    case Iterate =>
      if ShouldContinue(s.control, s.nodes) {
        IteratePoint(cfg, s, id);
        ResolvedFailureHasCulprit(cfg, s, id);
      }
    case Advance(a) => if a == id { AdvancedFailureHasCulprit(cfg, s, id); } else { AdvanceIsLocal(cfg, s, a, id); }
    case Wake =>
    case Join =>
    case _ => ControlPoint(cfg, s, l, id);
  }

  /** In every reachable state of every run, whatever the graph and the control calls. */
  lemma {:induction false} EveryFailureHasCulprit(cfg: Config, s: State, ls: seq<Label>)
    requires Initial(cfg, s) && IsRun(cfg, s, ls)
    ensures FailuresHaveCulprits(cfg, After(cfg, s, ls))
  {
    InitialInv(cfg, s);
    if ls != [] {
      var before, l := ls[..|ls| - 1], ls[|ls| - 1];
      EveryFailureHasCulprit(cfg, s, before);
      var b := After(cfg, s, before);
      StepKeepsInv(cfg, b, l);
      forall id | id in b.nodes && Apply(cfg, b, l).nodes[id].status == Failed ensures HasCulprit(cfg, id) {
        StepFailureHasCulprit(cfg, b, l, id);
      }
    }
  }

  /** A node that neither evaluation nor a failure reaches. */
  ghost predicate Stuck(cfg: Config, id: Id) {
    id in cfg.graph.deps && !Grounded(cfg.graph, id) && !HasCulprit(cfg, id)
  }

  lemma StuckNodeWaits(cfg: Config, s: State, stuck: Id)
    requires FailuresHaveCulprits(cfg, s) && s.control == RunRunning && Stuck(cfg, stuck)
    ensures stuck in s.nodes && s.nodes[stuck].status == Waiting
  {
    assert NodeInv(cfg, s, stuck);
  }

  lemma IterationWithStuckNode(cfg: Config, s: State, stuck: Id)
    requires FailuresHaveCulprits(cfg, s) && s.phase == AtHead && s.control == RunRunning && Stuck(cfg, stuck)
    ensures Iterated(cfg, s).control == RunRunning && !Iterated(cfg, s).phase.Ended?
  {
    StuckNodeWaits(cfg, s, stuck);
    assert Continuing(cfg, s);
    var r := AfterResolve(cfg, s);
    ResolvePoint(cfg, s, stuck);
    if r.nodes[stuck].status == Failed { ResolvedFailureHasCulprit(cfg, s, stuck); }
    assert HasPending(r.nodes);
    IterationIs(cfg, s);
    StartedIsInBatch(cfg, r);
  }

  lemma StepWithStuckNode(cfg: Config, s: State, l: Label, stuck: Id)
    requires FailuresHaveCulprits(cfg, s) && Enabled(s, l) && !IsControl(l) && Stuck(cfg, stuck)
    requires s.control == RunRunning && !s.phase.Ended?
    ensures Apply(cfg, s, l).control == RunRunning && !Apply(cfg, s, l).phase.Ended?
  {
    match l
    case Iterate => IterationWithStuckNode(cfg, s, stuck);
    case Advance(id) => AdvancePoint(cfg, s, id);
    case _ =>
  }

  /** With a stuck node an uncontrolled run never ends. */
  lemma {:induction false} StuckRunNeverEnds(cfg: Config, s: State, ls: seq<Label>, stuck: Id)
    requires Initial(cfg, s) && IsRun(cfg, s, ls) && NoControl(ls) && Stuck(cfg, stuck)
    ensures After(cfg, s, ls).control == RunRunning && !After(cfg, s, ls).phase.Ended?
  {
    if ls != [] {
      var before := ls[..|ls| - 1];
      StuckRunNeverEnds(cfg, s, before, stuck);
      EveryFailureHasCulprit(cfg, s, before);
      StepWithStuckNode(cfg, After(cfg, s, before), ls[|ls| - 1], stuck);
    }
  }

  lemma {:induction false} SpinningRun(cfg: Config, s: State, stuck: Id, n: nat) returns (ls: seq<Label>)
    requires Initial(cfg, s) && Stuck(cfg, stuck)
    ensures IsRun(cfg, s, ls) && NoControl(ls) && |ls| == n
  {
    if n == 0 {
      ls := [];
    } else {
      var before := SpinningRun(cfg, s, stuck, n - 1);
      ls := OneMoreSpin(cfg, s, stuck, before);
    }
  }

  lemma OneMoreSpin(cfg: Config, s: State, stuck: Id, ls: seq<Label>) returns (ls': seq<Label>)
    requires Initial(cfg, s) && Stuck(cfg, stuck) && IsRun(cfg, s, ls) && NoControl(ls)
    ensures IsRun(cfg, s, ls') && NoControl(ls') && |ls'| == |ls| + 1
  {
    StuckRunNeverEnds(cfg, s, ls, stuck);
    EveryFailureHasCulprit(cfg, s, ls);
    var l := RunCanGoOn(cfg, After(cfg, s, ls));
    RunStep(cfg, s, ls, l);
    ls' := ls + [l];
  }

  /** The exact condition for the loop to terminate without help, on any graph: every node is grounded or
      has, up its dependencies, a step that fails on its own. Then no run is longer than 7n + 1 steps;
      otherwise there are runs of every length, and none of them ends. */
  lemma RunsEndIff(cfg: Config, s: State)
    requires Initial(cfg, s)
    ensures Settleable(cfg) <==>
      forall ls :: IsRun(cfg, s, ls) && NoControl(ls) ==> |ls| <= 7 * |cfg.graph.order| + 1
  {
    if Settleable(cfg) {
      forall ls | IsRun(cfg, s, ls) && NoControl(ls) ensures |ls| <= 7 * |cfg.graph.order| + 1 {
        EveryRunIsShort(cfg, s, ls);
        UncontrolledStepsCount(ls);
      }
    } else {
      var stuck :| stuck in cfg.graph.deps && !Grounded(cfg.graph, stuck) && !HasCulprit(cfg, stuck);
      var ls := SpinningRun(cfg, s, stuck, 7 * |cfg.graph.order| + 2);
      assert IsRun(cfg, s, ls) && NoControl(ls) && 7 * |cfg.graph.order| + 1 < |ls|;
    }
  }
}
