/** The sequential, fail-fast executor of a plan, and how it compares with the orchestrator. */
module Executor {
  import opened Graphs
  import opened Dataflow
  import opened Models
  import opened Protocol
  import opened Evaluation
  import opened Ordering
  import opened Services
  import opened Outcomes

  /** The skill as this executor calls it: the payload depends on the step alone. */
  type StepSkill = (Id, nat) -> Outcome

  /** The first attempt from `attempt` on that returns, within the retry bound. */
  function FirstSuccess(skill: StepSkill, id: Id, attempt: nat): Option<Payload>
    requires 1 <= attempt <= MAX_STEP_RETRIES
    decreases MAX_STEP_RETRIES - attempt
  {
    match skill(id, attempt)
    case Returned(result) => Some(result)
    case Raised => if attempt < MAX_STEP_RETRIES then FirstSuccess(skill, id, attempt + 1) else None
  }

  predicate Succeeds(skill: StepSkill, id: Id) {
    FirstSuccess(skill, id, 1).Some?
  }

  /** Attempt `k` is the first from `attempt` on that returns. */
  predicate ReturnsFirst(skill: StepSkill, id: Id, attempt: nat, k: nat) {
    attempt <= k && skill(id, k).Returned? && forall j :: attempt <= j < k ==> skill(id, j) == Raised
  }

  /** A step succeeds if and only if one of its first three attempts returns, and the first that does gives
      the result. */
  lemma SucceedsWithinThree(skill: StepSkill, id: Id)
    ensures Succeeds(skill, id) <==> exists k: nat :: k <= 3 && ReturnsFirst(skill, id, 1, k)
    ensures forall k: nat :: k <= 3 && ReturnsFirst(skill, id, 1, k) ==>
      FirstSuccess(skill, id, 1) == Some(skill(id, k).result)
  {
    FirstSuccessFrom(skill, id, 1);
  }

  lemma {:induction false} FirstSuccessFrom(skill: StepSkill, id: Id, attempt: nat)
    requires 1 <= attempt <= MAX_STEP_RETRIES
    ensures FirstSuccess(skill, id, attempt).Some? <==>
      exists k: nat :: k <= MAX_STEP_RETRIES && ReturnsFirst(skill, id, attempt, k)
    ensures forall k: nat :: k <= MAX_STEP_RETRIES && ReturnsFirst(skill, id, attempt, k) ==>
      FirstSuccess(skill, id, attempt) == Some(skill(id, k).result)
    decreases MAX_STEP_RETRIES - attempt
  {
    if skill(id, attempt).Returned? {
      assert ReturnsFirst(skill, id, attempt, attempt);
    } else if attempt < MAX_STEP_RETRIES {
      var next := attempt + 1;
      FirstSuccessFrom(skill, id, next);
      forall k: nat | k <= MAX_STEP_RETRIES
        ensures ReturnsFirst(skill, id, attempt, k) <==> ReturnsFirst(skill, id, next, k)
      {
      }
      if k: nat :| k <= MAX_STEP_RETRIES && ReturnsFirst(skill, id, next, k) {
        assert ReturnsFirst(skill, id, attempt, k);
      }
    }
  }

  // ---------- the executor ----------

  /** `_order_steps`, on steps given by their ids and dependency lists: like `_topological_order`, but the
      membership test rebuilds the set of taken ids from the list every time. */
  method OrderSteps(g: Graph) returns (ordered: seq<Id>)
    requires WellFormed(g)
    ensures ordered == Sorted(g)
  {
    ordered := [];
    var remaining := g.order;
    while remaining != []
      invariant Distinct(remaining) && Known(g.deps, remaining)
      invariant SortFrom(g.deps, remaining, ordered) == Sorted(g)
      decreases |remaining|
    {
      var progress;
      SweepSplits(g.deps, remaining, |remaining|, ordered);
      SweepKeepsDistinct(g.deps, remaining, |remaining|, ordered);
      ordered, remaining, progress := OrderSweep(g, remaining, ordered);
      if !progress {
        ordered := ordered + remaining;
        break;
      }
    }
  }

  method OrderSweep(g: Graph, snapshot: seq<Id>, taken: seq<Id>)
    returns (ordered: seq<Id>, remaining: seq<Id>, progress: bool)
    requires Distinct(snapshot) && Known(g.deps, snapshot)
    ensures (ordered, remaining) == Sweep(g.deps, snapshot, |snapshot|, taken)
    ensures progress <==> |ordered| != |taken|
  {
    ordered, remaining, progress := taken, snapshot, false;
    for i := 0 to |snapshot|
      invariant Sweep(g.deps, snapshot, i, taken).0 == ordered
      invariant remaining == Sweep(g.deps, snapshot, i, taken).1 + snapshot[i..]
      invariant progress <==> |ordered| != |taken|
      invariant |ordered| >= |taken|
    {
      var id := snapshot[i];
      ghost var left := Sweep(g.deps, snapshot, i, taken).1;
      RestOfSweep(left, snapshot, i);
      var ids := set x | x in ordered;
      if AllCompleted(g.deps[id], ids) {
        assert AllIn(g.deps[id], ordered);
        SweepLeavesPrefix(g.deps, snapshot, i, taken);
        remaining := Remove(remaining, id, |left|);
        ordered := ordered + [id];
        progress := true;
      } else {
        assert !AllIn(g.deps[id], ordered);
      }
    }
    assert snapshot[|snapshot|..] == [];
    assert remaining == Sweep(g.deps, snapshot, |snapshot|, taken).1;
  }

  /** The retry loop: the step ends COMPLETED with the first result returned, or FAILED when every
      attempt raised; no other step is touched. */
  method RunStepWithRetry(plan: TaskPlan, skill: StepSkill, id: Id) returns (success: bool)
    requires id in plan.steps
    modifies plan`steps
    ensures success == Succeeds(skill, id)
    ensures success <==> exists k: nat :: k <= 3 && ReturnsFirst(skill, id, 1, k)
    ensures forall k: nat :: k <= 3 && ReturnsFirst(skill, id, 1, k) ==>
      plan.steps == old(plan.steps)[id := Step(StepCompleted, Some(skill(id, k).result))]
    ensures !success ==> plan.steps == old(plan.steps)[id := old(plan.steps)[id].(status := StepFailed)]
    ensures plan.steps == old(plan.steps)[id :=
      match FirstSuccess(skill, id, 1)
      case Some(result) => Step(StepCompleted, Some(result))
      case None => old(plan.steps)[id].(status := StepFailed)]
  {
    SucceedsWithinThree(skill, id);
    for attempt := 1 to MAX_STEP_RETRIES + 1
      invariant attempt <= MAX_STEP_RETRIES ==> FirstSuccess(skill, id, attempt) == FirstSuccess(skill, id, 1)
      invariant attempt <= MAX_STEP_RETRIES
      invariant id in plan.steps && plan.steps.Keys == old(plan.steps).Keys
      invariant plan.steps == old(plan.steps)[id := old(plan.steps)[id].(status := plan.steps[id].status)]
    {
      match skill(id, attempt)
      case Returned(result) =>
        plan.steps := plan.steps[id := Step(StepCompleted, Some(result))];
        return true;
      case Raised =>
        plan.steps := plan.steps[id := plan.steps[id].(status := StepFailed)];
        if !(attempt < MAX_STEP_RETRIES) {
          return false;
        }
        plan.steps := plan.steps[id := plan.steps[id].(status := StepPending)];
    }
    success := false;
  }

  /** The state of a run after the first `i` steps of `order`. */
  datatype PlanRun = PlanRun(completed: seq<Id>, steps: Steps, failed: Option<Id>)

  /** One round of the loop. */
  function RunOne(g: Graph, skill: StepSkill, p: PlanRun, id: Id): (r: PlanRun)
    requires id in g.deps && p.steps.Keys == g.deps.Keys
    ensures r.steps.Keys == g.deps.Keys
  {
    if p.failed.Some? then p
    else if !AllIn(g.deps[id], p.completed) then p.(steps := p.steps[id := p.steps[id].(status := StepSkipped)])
    else match FirstSuccess(skill, id, 1)
      case Some(result) => PlanRun(p.completed + [id], p.steps[id := Step(StepCompleted, Some(result))], None)
      case None => PlanRun(p.completed, p.steps[id := p.steps[id].(status := StepFailed)], Some(id))
  }

  function RunUpTo(g: Graph, skill: StepSkill, order: seq<Id>, i: nat, steps: Steps): (p: PlanRun)
    requires i <= |order| && Known(g.deps, order) && steps.Keys == g.deps.Keys
    ensures p.steps.Keys == g.deps.Keys
  {
    if i == 0 then PlanRun([], steps, None)
    else RunOne(g, skill, RunUpTo(g, skill, order, i - 1, steps), order[i - 1])
  }

  /** The whole run, over the sorted steps. */
  function SequentialRun(g: Graph, skill: StepSkill, steps: Steps): PlanRun
    requires WellFormed(g) && steps.Keys == g.deps.Keys
  {
    SortedIsKnown(g);
    RunUpTo(g, skill, Sorted(g), |g.order|, steps)
  }

  /** The loop body of `TaskExecutor.execute` for one step. */
  method ExecuteStep(plan: TaskPlan, skill: StepSkill, id: Id, completed: set<Id>, ghost p: PlanRun)
    returns (success: bool, completed': set<Id>)
    requires plan.Valid() && id in plan.shape.deps && plan.steps == p.steps && p.failed.None?
    requires forall x :: x in completed <==> x in p.completed
    modifies plan`steps
    ensures var r := RunOne(plan.shape, skill, p, id);
      && plan.steps == r.steps && success == r.failed.None?
      && forall x :: x in completed' <==> x in r.completed
  {
    completed' := completed;
    if !AllCompleted(plan.shape.deps[id], completed) {
      assert !AllIn(plan.shape.deps[id], p.completed);
      plan.steps := plan.steps[id := plan.steps[id].(status := StepSkipped)];
      return true, completed';
    }
    assert AllIn(plan.shape.deps[id], p.completed);
    plan.steps := plan.steps[id := plan.steps[id].(status := StepRunning)];
    success := RunStepWithRetry(plan, skill, id);
    if success {
      completed' := completed + {id};
    }
  }

  /** The loop of `TaskExecutor.execute`: it stops at the first step that fails. */
  method ExecuteInOrder(plan: TaskPlan, skill: StepSkill, ordered: seq<Id>) returns (success: bool, completed: set<Id>)
    requires plan.Valid() && Known(plan.shape.deps, ordered)
    modifies plan`steps
    ensures var run := RunUpTo(plan.shape, skill, ordered, |ordered|, old(plan.steps));
      && plan.steps == run.steps && success == run.failed.None?
      && forall id :: id in completed <==> id in run.completed
  {
    completed := {};
    ghost var before, p := plan.steps, PlanRun([], plan.steps, None);
    for i := 0 to |ordered|
      invariant plan.Valid() && plan.steps == p.steps && p.failed.None?
      invariant p == RunUpTo(plan.shape, skill, ordered, i, before)
      invariant forall id :: id in completed <==> id in p.completed
    {
      success, completed := ExecuteStep(plan, skill, ordered[i], completed, p);
      p := RunOne(plan.shape, skill, p, ordered[i]);
      if !success {
        StoppedRun(plan.shape, skill, ordered, i + 1, |ordered|, before);
        return;
      }
    }
    success := true;
  }

  /** `TaskExecutor.execute`. */
  method Execute(plan: TaskPlan, skill: StepSkill) returns (report: Report, completed: set<Id>)
    requires plan.Valid()
    modifies plan
    ensures plan.Valid()
    ensures var run := SequentialRun(plan.shape, skill, old(plan.steps));
      && plan.steps == run.steps
      && (forall id :: id in completed <==> id in run.completed)
      && report == (if run.failed.Some? then ReportFailed else ReportCompleted)
      && plan.status == (if run.failed.Some? then PlanFailed else PlanCompleted)
  {
    var ordered := OrderSteps(plan.shape);
    SortedIsKnown(plan.shape);
    plan.status := PlanReady;
    var success;
    success, completed := ExecuteInOrder(plan, skill, ordered);
    if success {
      plan.status, report := PlanCompleted, ReportCompleted;
    } else {
      plan.status, report := PlanFailed, ReportFailed;
    }
  }

  /** Once a step has failed, the rest of the list is not looked at. */
  lemma {:induction false} StoppedRun(g: Graph, skill: StepSkill, order: seq<Id>, i: nat, j: nat, steps: Steps)
    requires i <= j <= |order| && Known(g.deps, order) && steps.Keys == g.deps.Keys
    requires RunUpTo(g, skill, order, i, steps).failed.Some?
    ensures RunUpTo(g, skill, order, j, steps) == RunUpTo(g, skill, order, i, steps)
  {
    if i < j {
      StoppedRun(g, skill, order, i, j - 1, steps);
    }
  }

  // ---------- what a run does ----------

  lemma DependenciesPrecede(g: Graph, order: seq<Id>, k: nat, i: nat)
    requires SplitsAt(g, order, k) && i < k
    ensures order[i] in g.deps && AllIn(g.deps[order[i]], order[..i])
  {
    assert order[..k][i] == order[i] && order[..k][..i] == order[..i];
  }

  /** The run completed exactly the first `j` steps of the list, and the next one failed. */
  ghost predicate StopsAt(skill: StepSkill, order: seq<Id>, completed: seq<Id>, j: nat) {
    && j < |order| && completed == order[..j]
    && (forall m :: 0 <= m < j ==> Succeeds(skill, order[m]))
    && !Succeeds(skill, order[j])
  }

  /** Of the first `i` steps all were completed, or all before the first that does not succeed. */
  ghost predicate RanUpTo(skill: StepSkill, order: seq<Id>, p: PlanRun, i: nat)
    requires i <= |order|
  {
    match p.failed
    case None => p.completed == order[..i] && forall j :: 0 <= j < i ==> Succeeds(skill, order[j])
    case Some(id) => exists j :: 0 <= j < i && id == order[j] && StopsAt(skill, order, p.completed, j)
  }

  lemma RanOneMore(g: Graph, skill: StepSkill, order: seq<Id>, p: PlanRun, i: nat)
    requires i < |order| && order[i] in g.deps && p.steps.Keys == g.deps.Keys
    requires RanUpTo(skill, order, p, i) && AllIn(g.deps[order[i]], order[..i])
    ensures RanUpTo(skill, order, RunOne(g, skill, p, order[i]), i + 1)
  {
    assert order[..i + 1] == order[..i] + [order[i]];
    if p.failed.None? && !Succeeds(skill, order[i]) {
      assert StopsAt(skill, order, p.completed, i);
    }
  }

  /** The grounded steps of the sorted list run one after the other until one fails. */
  lemma {:induction false} GroundedPartRuns(g: Graph, skill: StepSkill, order: seq<Id>, k: nat, i: nat, steps: Steps)
    requires SplitsAt(g, order, k) && Known(g.deps, order) && i <= k && steps.Keys == g.deps.Keys
    ensures RanUpTo(skill, order, RunUpTo(g, skill, order, i, steps), i)
  {
    if 0 < i {
      GroundedPartRuns(g, skill, order, k, i - 1, steps);
      DependenciesPrecede(g, order, k, i - 1);
      RanOneMore(g, skill, order, RunUpTo(g, skill, order, i - 1, steps), i - 1);
    }
  }

  /** Everything up to `k` was completed, and everything from there to `i` skipped. */
  ghost predicate SkippedFrom(order: seq<Id>, p: PlanRun, k: nat, i: nat)
    requires k <= i <= |order|
  {
    && p.failed.None? && p.completed == order[..k]
    && forall j :: k <= j < i ==> order[j] in p.steps && p.steps[order[j]].status == StepSkipped
  }

  lemma SkippedOneMore(g: Graph, skill: StepSkill, order: seq<Id>, p: PlanRun, k: nat, i: nat)
    requires k <= i < |order| && order[i] in g.deps && p.steps.Keys == g.deps.Keys
    requires SkippedFrom(order, p, k, i) && !AllIn(g.deps[order[i]], order[..k])
    ensures SkippedFrom(order, RunOne(g, skill, p, order[i]), k, i + 1)
  {
    assert RunOne(g, skill, p, order[i]) == p.(steps := p.steps[order[i] := p.steps[order[i]].(status := StepSkipped)]);
  }

  lemma NothingSkippedYet(skill: StepSkill, order: seq<Id>, p: PlanRun, k: nat)
    requires k <= |order| && RanUpTo(skill, order, p, k)
    requires forall j :: 0 <= j < k ==> Succeeds(skill, order[j])
    ensures SkippedFrom(order, p, k, k)
  {
  }

  /** Steps that wait for something not completed are skipped one after the other. */
  lemma {:induction false} SkipsAll(g: Graph, skill: StepSkill, order: seq<Id>, k: nat, i: nat, steps: Steps)
    requires Known(g.deps, order) && steps.Keys == g.deps.Keys && k <= i <= |order|
    requires forall j :: k <= j < i ==> order[j] in g.deps && !AllIn(g.deps[order[j]], order[..k])
    requires SkippedFrom(order, RunUpTo(g, skill, order, k, steps), k, k)
    ensures SkippedFrom(order, RunUpTo(g, skill, order, i, steps), k, i)
  {
    if k < i {
      SkipsAll(g, skill, order, k, i - 1, steps);
      SkippedOneMore(g, skill, order, RunUpTo(g, skill, order, i - 1, steps), k, i - 1);
    }
  }

  /** When every grounded step succeeds, the ungrounded ones are all skipped. */
  lemma UngroundedPartIsSkipped(g: Graph, skill: StepSkill, order: seq<Id>, k: nat, i: nat, steps: Steps)
    requires WellFormed(g) && SplitsAt(g, order, k) && Known(g.deps, order) && steps.Keys == g.deps.Keys
    requires k <= i <= |order| && forall j :: 0 <= j < k ==> Succeeds(skill, order[j])
    ensures SkippedFrom(order, RunUpTo(g, skill, order, i, steps), k, i)
  {
    GroundedPartRuns(g, skill, order, k, k, steps);
    NothingSkippedYet(skill, order, RunUpTo(g, skill, order, k, steps), k);
    forall j | k <= j < i ensures order[j] in g.deps && !AllIn(g.deps[order[j]], order[..k]) {
      UngroundedHasUnmetDependency(g, order, k, j);
    }
    SkipsAll(g, skill, order, k, i, steps);
  }

  lemma UngroundedHasUnmetDependency(g: Graph, order: seq<Id>, k: nat, i: nat)
    requires WellFormed(g) && SplitsAt(g, order, k) && Known(g.deps, order) && k <= i < |order|
    ensures order[i] in g.deps && !AllIn(g.deps[order[i]], order[..k])
  {
    RestMembers(g.order, order[..k]);
    assert order[i] == order[k..][i - k];
    assert order[i] in order[k..] && order[i] !in order[..k];
    if AllIn(g.deps[order[i]], order[..k]) {
      GroundedFromDeps(g, order[i]);
    }
  }

  /** Statuses and the completed list tell the same story about step `x` after the first `i` steps. */
  predicate SameStory(skill: StepSkill, order: seq<Id>, i: nat, steps: Steps, p: PlanRun, x: Id)
    requires i <= |order| && x in p.steps && x in steps
  {
    && (x in p.completed <==> p.steps[x].status == StepCompleted)
    && (x in p.completed ==> x in order[..i] && p.steps[x].result == FirstSuccess(skill, x, 1))
    && (x !in order[..i] ==> p.steps[x] == steps[x])
  }

  lemma StoryGoesOn(g: Graph, skill: StepSkill, order: seq<Id>, i: nat, steps: Steps, p: PlanRun, x: Id)
    requires i < |order| && Distinct(order) && order[i] in g.deps && x in g.deps
    requires p.steps.Keys == g.deps.Keys == steps.Keys && steps[x].status != StepCompleted
    requires SameStory(skill, order, i, steps, p, x) && SameStory(skill, order, i, steps, p, order[i])
    requires steps[order[i]].status != StepCompleted
    ensures SameStory(skill, order, i + 1, steps, RunOne(g, skill, p, order[i]), x)
  {
    assert order[..i + 1] == order[..i] + [order[i]];
    assert order[i] !in order[..i];
  }

  lemma {:induction false} StatusesMatch(g: Graph, skill: StepSkill, order: seq<Id>, i: nat, steps: Steps, x: Id)
    requires i <= |order| && Known(g.deps, order) && steps.Keys == g.deps.Keys && Distinct(order) && x in g.deps
    requires forall id :: id in steps ==> steps[id].status != StepCompleted
    ensures SameStory(skill, order, i, steps, RunUpTo(g, skill, order, i, steps), x)
  {
    if 0 < i {
      StatusesMatch(g, skill, order, i - 1, steps, x);
      StatusesMatch(g, skill, order, i - 1, steps, order[i - 1]);
      StoryGoesOn(g, skill, order, i - 1, steps, RunUpTo(g, skill, order, i - 1, steps), x);
    }
  }

  /** Every run: the completed steps, in the order they completed, come each after all their
      dependencies, and each of them succeeded. */
  lemma CompletedStepsAreClosed(g: Graph, skill: StepSkill, steps: Steps)
    requires WellFormed(g) && steps.Keys == g.deps.Keys
    ensures var run := SequentialRun(g, skill, steps);
      && InOrder(g.deps, run.completed)
      && forall id :: id in run.completed ==> Succeeds(skill, id) && Grounded(g, id)
  {
    SortedIsKnown(g);
    RunIsInOrder(g, skill, Sorted(g), |g.order|, steps);
    var run := SequentialRun(g, skill, steps);
    forall id | id in run.completed ensures Grounded(g, id) {
      var i :| 0 <= i < |run.completed| && run.completed[i] == id;
      ListedIsGrounded(g, run.completed, i);
    }
  }

  lemma {:induction false} RunIsInOrder(g: Graph, skill: StepSkill, order: seq<Id>, i: nat, steps: Steps)
    requires i <= |order| && Known(g.deps, order) && steps.Keys == g.deps.Keys
    ensures var run := RunUpTo(g, skill, order, i, steps);
      InOrder(g.deps, run.completed) && forall id :: id in run.completed ==> Succeeds(skill, id)
  {
    if 0 < i {
      RunIsInOrder(g, skill, order, i - 1, steps);
      var run := RunUpTo(g, skill, order, i - 1, steps);
      if AllIn(g.deps[order[i - 1]], run.completed) {
        OneMoreInOrder(g.deps, run.completed, order[i - 1]);
      }
    }
  }

  /** The run reports success exactly when every grounded step succeeds; then a step is COMPLETED if it is
      grounded and SKIPPED if it depends, directly or not, on a cycle or a missing step. */
  lemma SuccessfulRuns(g: Graph, skill: StepSkill, steps: Steps)
    requires WellFormed(g) && steps.Keys == g.deps.Keys
    requires forall id :: id in steps ==> steps[id].status == StepPending
    ensures var run := SequentialRun(g, skill, steps);
      && (run.failed.None? <==> forall id :: Grounded(g, id) ==> Succeeds(skill, id))
      && (run.failed.None? ==> forall id :: id in g.deps ==>
            run.steps[id].status == if Grounded(g, id) then StepCompleted else StepSkipped)
  {
    if bad :| Grounded(g, bad) && !Succeeds(skill, bad) {
      RunWithAFailure(g, skill, steps, bad);
    } else {
      RunWithoutFailure(g, skill, steps);
    }
  }

  /** A run that stops at `bad`: the steps before it in the sorted list are COMPLETED with their results, it is
      FAILED, and those after it are as they were. */
  ghost predicate StoppedAt(g: Graph, skill: StepSkill, steps: Steps, run: PlanRun, j: nat)
    requires WellFormed(g) && j < |Sorted(g)|
  {
    var order := Sorted(g);
    && run.failed == Some(order[j]) && run.completed == order[..j] && run.steps.Keys == steps.Keys
    && (forall m :: 0 <= m < j ==>
          order[m] in steps && run.steps[order[m]] == Step(StepCompleted, FirstSuccess(skill, order[m], 1)))
    && order[j] in steps && run.steps[order[j]] == steps[order[j]].(status := StepFailed)
    && forall m :: j < m < |order| ==> order[m] in steps && run.steps[order[m]] == steps[order[m]]
  }

  lemma FailedRuns(g: Graph, skill: StepSkill, steps: Steps) returns (j: nat)
    requires WellFormed(g) && steps.Keys == g.deps.Keys && SequentialRun(g, skill, steps).failed.Some?
    requires forall id :: id in steps ==> steps[id].status != StepCompleted
    ensures j < |Sorted(g)| && !Succeeds(skill, Sorted(g)[j])
    ensures StoppedAt(g, skill, steps, SequentialRun(g, skill, steps), j)
  {
    SortedIsKnown(g);
    SortedIsDistinct(g);
    j := WhereItStops(g, skill, steps);
    StepsWhereItStops(g, skill, Sorted(g), j, steps);
    NothingAfterFailure(g, skill, steps, j);
  }

  lemma NothingAfterFailure(g: Graph, skill: StepSkill, steps: Steps, j: nat)
    requires WellFormed(g) && steps.Keys == g.deps.Keys
    requires Known(g.deps, Sorted(g)) && j < |Sorted(g)| == |g.order|
    requires RunUpTo(g, skill, Sorted(g), j + 1, steps).failed.Some?
    ensures SequentialRun(g, skill, steps) == RunUpTo(g, skill, Sorted(g), j + 1, steps)
  {
    StoppedRun(g, skill, Sorted(g), j + 1, |Sorted(g)|, steps);
  }

  lemma WhereItStops(g: Graph, skill: StepSkill, steps: Steps) returns (j: nat)
    requires WellFormed(g) && steps.Keys == g.deps.Keys && SequentialRun(g, skill, steps).failed.Some?
    ensures j < |Sorted(g)| && Known(g.deps, Sorted(g)) && |Sorted(g)| == |g.order|
    ensures var p := RunUpTo(g, skill, Sorted(g), j, steps);
      && p.failed.None? && p.completed == Sorted(g)[..j]
      && AllIn(g.deps[Sorted(g)[j]], p.completed) && !Succeeds(skill, Sorted(g)[j])
  {
    SortedIsKnown(g);
    var order := Sorted(g);
    var k := SortedIsTopological(g);
    if forall m :: 0 <= m < k ==> Succeeds(skill, order[m]) {
      UngroundedPartIsSkipped(g, skill, order, k, |order|, steps);
    }
    j := FirstWithoutSuccess(skill, order, k);
    GroundedPartRuns(g, skill, order, k, j, steps);
    DependenciesPrecede(g, order, k, j);
  }

  lemma {:induction false} FirstWithoutSuccess(skill: StepSkill, order: seq<Id>, k: nat) returns (j: nat)
    requires k <= |order| && exists m :: 0 <= m < k && !Succeeds(skill, order[m])
    ensures j < k && !Succeeds(skill, order[j]) && forall m :: 0 <= m < j ==> Succeeds(skill, order[m])
  {
    if m :| 0 <= m < k - 1 && !Succeeds(skill, order[m]) {
      j := FirstWithoutSuccess(skill, order, k - 1);
    } else {
      j := k - 1;
    }
  }

  lemma StepsWhereItStops(g: Graph, skill: StepSkill, order: seq<Id>, j: nat, steps: Steps)
    requires WellFormed(g) && order == Sorted(g) && Known(g.deps, order) && Distinct(order)
    requires steps.Keys == g.deps.Keys && j < |order|
    requires forall id :: id in steps ==> steps[id].status != StepCompleted
    requires var p := RunUpTo(g, skill, order, j, steps);
      && p.failed.None? && p.completed == order[..j]
      && AllIn(g.deps[order[j]], p.completed) && !Succeeds(skill, order[j])
    ensures StoppedAt(g, skill, steps, RunUpTo(g, skill, order, j + 1, steps), j)
  {
    forall m | 0 <= m < |order| && m != j
      ensures order[m] in steps
      ensures RunUpTo(g, skill, order, j + 1, steps).steps[order[m]] ==
        if m < j then Step(StepCompleted, FirstSuccess(skill, order[m], 1)) else steps[order[m]]
    {
      StatusesMatch(g, skill, order, j, steps, order[m]);
      InPrefix(order, j, m);
      assert order[m] in order[..j] <==> m < j;
    }
    StatusesMatch(g, skill, order, j, steps, order[j]);
    assert order[j] !in order[..j];
  }

  lemma RunWithAFailure(g: Graph, skill: StepSkill, steps: Steps, bad: Id)
    requires WellFormed(g) && steps.Keys == g.deps.Keys && Grounded(g, bad) && !Succeeds(skill, bad)
    ensures SequentialRun(g, skill, steps).failed.Some?
  {
    var order := Sorted(g);
    SortedIsKnown(g);
    var k := SortedIsTopological(g);
    GroundedPartRuns(g, skill, order, k, k, steps);
    assert bad in order[..k];
    var j :| 0 <= j < k && order[..k][j] == bad;
    assert !Succeeds(skill, order[j]);
    StoppedRun(g, skill, order, k, |order|, steps);
  }

  lemma RunWithoutFailure(g: Graph, skill: StepSkill, steps: Steps)
    requires WellFormed(g) && steps.Keys == g.deps.Keys
    requires forall id :: id in steps ==> steps[id].status == StepPending
    requires forall id :: Grounded(g, id) ==> Succeeds(skill, id)
    ensures var run := SequentialRun(g, skill, steps);
      && run.failed.None?
      && forall id :: id in g.deps ==> run.steps[id].status == if Grounded(g, id) then StepCompleted else StepSkipped
  {
    var order := Sorted(g);
    SortedIsKnown(g);
    SortedIsDistinct(g);
    var k := SortedIsTopological(g);
    forall j | 0 <= j < k ensures Succeeds(skill, order[j]) {
      assert order[j] in order[..k];
    }
    UngroundedPartIsSkipped(g, skill, order, k, |order|, steps);
    var run := SequentialRun(g, skill, steps);
    forall id | id in g.deps ensures run.steps[id].status == if Grounded(g, id) then StepCompleted else StepSkipped {
      StatusesMatch(g, skill, order, |order|, steps, id);
      if Grounded(g, id) {
        assert id in order[..k];
      } else {
        assert id !in order[..k] && id in order;
        var j :| 0 <= j < |order| && order[j] == id;
        InPrefix(order, k, j);
      }
    }
  }

  lemma InPrefix(order: seq<Id>, k: nat, j: nat)
    requires j < |order| && k <= |order|
    ensures j < k ==> order[j] in order[..k]
  {
    if j < k { assert order[..k][j] == order[j]; }
  }

  // ---------- against the orchestrator ----------

  /** The orchestrator attempts the step: every dependency has a result. */
  ghost predicate IsAttempted(cfg: Config, id: Id) {
    && Grounded(cfg.graph, id) && id in cfg.graph.deps
    && forall d :: d in cfg.graph.deps[id] ==> Grounded(cfg.graph, d) && Eval(cfg, d).Some?
  }

  /** What succeeds on the sequential payload also succeeds, if attempted at all, on the one the
      orchestrator builds, which adds results of dependencies. */
  ghost predicate SucceedsAtLeast(cfg: Config, skill: StepSkill) {
    && cfg.planned == cfg.graph.deps.Keys
    && forall id :: IsAttempted(cfg, id) && Succeeds(skill, id) ==> Attempts(cfg, id, EvalPayload(cfg, id), 1).Some?
  }

  /** The same in both directions. */
  ghost predicate SameOutcomes(cfg: Config, skill: StepSkill) {
    && cfg.planned == cfg.graph.deps.Keys
    && forall id :: IsAttempted(cfg, id) ==>
         (Attempts(cfg, id, EvalPayload(cfg, id), 1).Some? <==> Succeeds(skill, id))
  }

  /** Evaluation gives a result to every step completed in dependency order. */
  lemma {:induction false} CompletedHere(cfg: Config, skill: StepSkill, completed: seq<Id>, i: nat)
    requires SucceedsAtLeast(cfg, skill) && InOrder(cfg.graph.deps, completed) && i < |completed|
    requires forall id :: id in completed ==> Succeeds(skill, id) && Grounded(cfg.graph, id)
    ensures Eval(cfg, completed[i]).Some?
  {
    var id := completed[i];
    assert id in completed;
    forall d | d in cfg.graph.deps[id] ensures Grounded(cfg.graph, d) && Eval(cfg, d).Some? {
      DependencyIsShallower(cfg.graph, id, d);
      assert AllIn(cfg.graph.deps[id], completed[..i]);
      var j :| 0 <= j < i && completed[..i][j] == d;
      CompletedHere(cfg, skill, completed, j);
    }
    EvalIsAttempts(cfg, id);
  }

  /** When the orchestrator's payloads serve every step at least as well, whatever the fail-fast executor
      completes the orchestrator completes too (its completed nodes being those evaluation gives a result). */
  lemma SequentialCompletesSubset(cfg: Config, skill: StepSkill, steps: Steps, id: Id)
    requires WellFormed(cfg.graph) && steps.Keys == cfg.graph.deps.Keys && SucceedsAtLeast(cfg, skill)
    requires id in SequentialRun(cfg.graph, skill, steps).completed
    ensures Grounded(cfg.graph, id) && Eval(cfg, id).Some?
  {
    var completed := SequentialRun(cfg.graph, skill, steps).completed;
    CompletedStepsAreClosed(cfg.graph, skill, steps);
    var i :| 0 <= i < |completed| && completed[i] == id;
    CompletedHere(cfg, skill, completed, i);
  }

  /** The same over runs: every step the fail-fast executor completes is a completed node at the end of
      every orchestrated run of the same valid plan that was neither cancelled nor left with a paused node. */
  lemma OrchestratorCompletesMore(cfg: Config, skill: StepSkill, steps: Steps, s: State, ls: seq<Label>, id: Id)
    requires Initial(cfg, s) && AllGrounded(cfg.graph) && IsRun(cfg, s, ls)
    requires After(cfg, s, ls).phase.Ended? && After(cfg, s, ls).phase.report != ReportCancelled
    requires forall x :: x in s.nodes ==> After(cfg, s, ls).nodes[x].status != Paused
    requires steps.Keys == cfg.graph.deps.Keys && SucceedsAtLeast(cfg, skill)
    requires id in SequentialRun(cfg.graph, skill, steps).completed
    ensures id in s.nodes && After(cfg, s, ls).nodes[id].status == Completed
  {
    SequentialCompletesSubset(cfg, skill, steps, id);
    EvaluatedIsCompleted(cfg, s, ls, id);
  }

  /** A step evaluation gives a result is completed at the end of such a run. */
  lemma EvaluatedIsCompleted(cfg: Config, s: State, ls: seq<Label>, id: Id)
    requires Initial(cfg, s) && AllGrounded(cfg.graph) && IsRun(cfg, s, ls)
    requires After(cfg, s, ls).phase.Ended? && After(cfg, s, ls).phase.report != ReportCancelled
    requires forall x :: x in s.nodes ==> After(cfg, s, ls).nodes[x].status != Paused
    requires Grounded(cfg.graph, id) && Eval(cfg, id).Some?
    ensures id in s.nodes && After(cfg, s, ls).nodes[id].status == Completed
  {
    GroundedIsNode(cfg.graph, id);
    FinalStatusIsEvaluation(cfg, s, ls);
  }

  /** On a valid plan the two agree about total success: the sequential executor reports success exactly
      when evaluation gives every step a result. */
  lemma ExecutorsAgreeOnSuccess(cfg: Config, skill: StepSkill, steps: Steps)
    requires WellFormed(cfg.graph) && steps.Keys == cfg.graph.deps.Keys && SameOutcomes(cfg, skill)
    requires AllGrounded(cfg.graph) && forall id :: id in steps ==> steps[id].status == StepPending
    ensures SequentialRun(cfg.graph, skill, steps).failed.None?
      <==> forall id :: id in cfg.graph.deps ==> Eval(cfg, id).Some?
  {
    SuccessfulRuns(cfg.graph, skill, steps);
    forall id | Grounded(cfg.graph, id) ensures id in cfg.graph.deps {
      GroundedIsNode(cfg.graph, id);
    }
    EvaluationSucceedsIff(cfg, skill);
  }

  lemma EvaluationSucceedsIff(cfg: Config, skill: StepSkill)
    requires AllGrounded(cfg.graph) && SameOutcomes(cfg, skill)
    ensures (forall id :: id in cfg.graph.deps ==> Eval(cfg, id).Some?)
      <==> forall id :: id in cfg.graph.deps ==> Succeeds(skill, id)
  {
    if forall id :: id in cfg.graph.deps ==> Succeeds(skill, id) {
      forall id | id in cfg.graph.deps ensures Eval(cfg, id).Some? {
        AllSucceed(cfg, skill, id);
      }
    } else {
      var bad :| bad in cfg.graph.deps && !Succeeds(skill, bad);
      StepWithoutSuccess(cfg, skill, bad);
    }
  }

  lemma StepWithoutSuccess(cfg: Config, skill: StepSkill, id: Id)
    requires SameOutcomes(cfg, skill) && Grounded(cfg.graph, id) && !Succeeds(skill, id)
    ensures Eval(cfg, id).None?
  {
    DepsAreShallower(cfg.graph, id);
    if Eval(cfg, id).Some? {
      assert IsAttempted(cfg, id);
      EvalIsAttempts(cfg, id);
    }
  }

  lemma {:induction false} AllSucceed(cfg: Config, skill: StepSkill, id: Id)
    requires SameOutcomes(cfg, skill) && Grounded(cfg.graph, id)
    requires forall x :: x in cfg.graph.deps ==> Succeeds(skill, x)
    ensures Eval(cfg, id).Some?
    decreases Depth(cfg.graph, id)
  {
    DepsAreShallower(cfg.graph, id);
    forall d | d in cfg.graph.deps[id] ensures Eval(cfg, d).Some? {
      AllSucceed(cfg, skill, d);
    }
    EvalIsAttempts(cfg, id);
  }
}
