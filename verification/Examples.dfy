/** Concrete runs that show where the obvious claims about reports and lists fail. */
module Examples {
  import opened Graphs
  import opened Dataflow
  import opened Models
  import opened Protocol
  import opened Invariants
  import opened Outcomes
  import Interruption

  ghost predicate AlwaysRaises(cfg: Config, id: Id) {
    forall payload, attempt :: cfg.skill(id, payload, attempt) == Raised
  }

  // ---------- one failing node ----------

  /** `t` is `s` with node `id`, running since `s`, waiting for the outcome of attempt `n`. */
  ghost predicate InAttempt(cfg: Config, s: State, t: State, id: Id, n: nat) {
    && Shaped(cfg, t) && t.phase == InBatch && id in t.tasks && id in t.steps && id in s.nodes
    && t == s.(steps := t.steps, tasks := s.tasks[id := t.tasks[id]])
    && t.tasks[id].Attempting? && t.tasks[id].attempt == n
  }

  lemma BeginAttempts(cfg: Config, s: State, id: Id)
    requires Shaped(cfg, s) && s.phase == InBatch && id in s.tasks && s.tasks[id] == Starting && id in s.steps
    ensures InAttempt(cfg, s, Advanced(cfg, s, id), id, 1)
  {
    assert s.nodes[id := s.nodes[id]] == s.nodes;
  }

  lemma AttemptRaises(cfg: Config, s: State, t: State, id: Id, n: nat)
    requires AlwaysRaises(cfg, id) && InAttempt(cfg, s, t, id, n) && n < MAX_STEP_RETRIES
    ensures InAttempt(cfg, s, Advanced(cfg, t, id), id, n + 1)
  {
    assert cfg.skill(id, t.tasks[id].payload, n) == Raised;
    assert t.nodes[id := t.nodes[id]] == t.nodes;
  }

  lemma LastAttemptRaises(cfg: Config, s: State, t: State, id: Id)
    requires AlwaysRaises(cfg, id) && InAttempt(cfg, s, t, id, MAX_STEP_RETRIES)
    ensures HasFailed(s, Advanced(cfg, t, id), id)
  {
    assert cfg.skill(id, t.tasks[id].payload, MAX_STEP_RETRIES) == Raised;
  }

  /** `t` is `s` with node `id` failed and its coroutine done. */
  ghost predicate HasFailed(s: State, t: State, id: Id)
    requires id in s.nodes
  {
    t == s.(nodes := s.nodes[id := s.nodes[id].(status := Failed)], steps := t.steps, tasks := s.tasks[id := Settled])
  }

  function AllAttempts(id: Id): seq<Label> {
    [Advance(id)] + [Advance(id)] + [Advance(id)] + [Advance(id)]
  }

  /** A node whose every attempt raises has failed after its begin and exactly three attempts. */
  lemma NodeFailsAfterThreeAttempts(cfg: Config, s: State, id: Id)
    requires Shaped(cfg, s) && s.phase == InBatch && id in s.tasks && s.tasks[id] == Starting && id in s.steps
    requires AlwaysRaises(cfg, id)
    ensures IsRun(cfg, s, AllAttempts(id)) && HasFailed(s, After(cfg, s, AllAttempts(id)), id)
  {
    BeginAttempts(cfg, s, id);
    var a1 := Advanced(cfg, s, id);
    AttemptRaises(cfg, s, a1, id, 1);
    var a2 := Advanced(cfg, a1, id);
    AttemptRaises(cfg, s, a2, id, 2);
    var a3 := Advanced(cfg, a2, id);
    LastAttemptRaises(cfg, s, a3, id);
    FourAdvances(cfg, s, id, a1, a2, a3);
  }

  lemma FourAdvances(cfg: Config, s: State, id: Id, a1: State, a2: State, a3: State)
    requires Shaped(cfg, s) && Enabled(s, Advance(id)) && a1 == Advanced(cfg, s, id)
    requires Enabled(a1, Advance(id)) && a2 == Advanced(cfg, a1, id)
    requires Enabled(a2, Advance(id)) && a3 == Advanced(cfg, a2, id)
    requires Enabled(a3, Advance(id))
    ensures IsRun(cfg, s, AllAttempts(id)) && After(cfg, s, AllAttempts(id)) == Advanced(cfg, a3, id)
  {
    var l := Advance(id);
    var one := [l];
    RunStep(cfg, s, [], l);
    assert [] + [l] == one;
    RunStep(cfg, s, one, l);
    RunStep(cfg, s, one + [l], l);
    RunStep(cfg, s, one + [l] + [l], l);
  }

  // ---------- a chain of two steps ----------

  /** Node 1 depends on node 0, and node 0 always fails. */
  ghost predicate FailingChain(cfg: Config) {
    && cfg.graph == Graph([0, 1], map[0 := [], 1 := [0]])
    && cfg.planned == {0, 1}
    && AlwaysRaises(cfg, 0)
  }

  ghost predicate TwoNodes(s: State, first: NodeStatus, second: NodeStatus) {
    s.nodes == map[0 := Node(first, None), 1 := Node(second, None)]
  }

  lemma ResolveTwo(cfg: Config, s: State, first: NodeStatus)
    requires FailingChain(cfg) && Shaped(cfg, s) && TwoNodes(s, first, Waiting) && (first == Waiting || first == Failed)
    ensures var r := AfterResolve(cfg, s);
      if first == Waiting then TwoNodes(r, Ready, Waiting) && ReadySet(r.nodes) == {0}
      else TwoNodes(r, Failed, Failed) && ReadySet(r.nodes) == {}
  {
    ResolveFirst(cfg, s, first);
    ResolveSecond(cfg, s, first);
    var r := AfterResolve(cfg, s);
    if first == Waiting { OnlyFirstReady(r); } else { NoneReady(r); }
  }

  lemma ResolveFirst(cfg: Config, s: State, first: NodeStatus)
    requires FailingChain(cfg) && Shaped(cfg, s) && TwoNodes(s, first, Waiting) && (first == Waiting || first == Failed)
    ensures AfterResolve(cfg, s).nodes[0] == Node(if first == Waiting then Ready else Failed, None)
  {
    assert cfg.graph.deps[0] == [];
  }

  lemma ResolveSecond(cfg: Config, s: State, first: NodeStatus)
    requires FailingChain(cfg) && Shaped(cfg, s) && TwoNodes(s, first, Waiting) && (first == Waiting || first == Failed)
    ensures AfterResolve(cfg, s).nodes[1] == Node(if first == Waiting then Waiting else Failed, None)
  {
    assert cfg.graph.deps[1] == [0] && 0 in cfg.graph.deps[1];
    assert s.nodes[0].status == first && s.nodes[1].status == Waiting;
  }

  lemma OnlyFirstReady(r: State)
    requires r.nodes.Keys == {0, 1} && r.nodes[0] == Node(Ready, None) && r.nodes[1] == Node(Waiting, None)
    ensures TwoNodes(r, Ready, Waiting) && ReadySet(r.nodes) == {0}
  {
  }

  lemma NoneReady(r: State)
    requires r.nodes.Keys == {0, 1} && r.nodes[0] == Node(Failed, None) && r.nodes[1] == Node(Failed, None)
    ensures TwoNodes(r, Failed, Failed) && ReadySet(r.nodes) == {}
  {
  }

  lemma BatchOfZero(cfg: Config, r: State)
    requires TwoNodes(r, Ready, Waiting) && ReadySet(r.nodes) == {0}
    ensures var t := BatchStarted(cfg, r);
      && TwoNodes(t, Running, Waiting) && t.tasks == map[0 := Starting] && t.phase == InBatch
      && t.control == r.control && t.steps == r.steps
  {
    var nodes := MarkRunning(r.nodes, {0});
    assert nodes[0] == Node(Running, None) && nodes[1] == Node(Waiting, None);
  }

  lemma FirstBatch(cfg: Config, s: State)
    requires FailingChain(cfg) && Initial(cfg, s)
    ensures var t := Iterated(cfg, s);
      && t.phase == InBatch && t.control == RunRunning && t.tasks == map[0 := Starting] && t.steps == s.steps
      && TwoNodes(t, Running, Waiting)
  {
    assert s.nodes[0] == Node(Waiting, None) && s.nodes[1] == Node(Waiting, None);
    ResolveTwo(cfg, s, Waiting);
    BatchOfZero(cfg, AfterResolve(cfg, s));
    assert HasPending(s.nodes);
    assert Iterated(cfg, s) == BatchStarted(cfg, AfterResolve(cfg, s));
  }

  /** From the first batch in flight to the next loop head, all attempts of node 0 failing. */
  lemma DrainBatch(cfg: Config, s: State, second: NodeStatus) returns (ms: seq<Label>)
    requires FailingChain(cfg) && Shaped(cfg, s)
    requires s.phase == InBatch && s.tasks == map[0 := Starting] && TwoNodes(s, Running, second)
    ensures IsRun(cfg, s, ms)
    ensures Drained(cfg, s, After(cfg, s, ms), second)
  {
    NodeFailsAfterThreeAttempts(cfg, s, 0);
    var q := After(cfg, s, AllAttempts(0));
    JoinAfterFailure(cfg, s, q, second);
    RunStep(cfg, s, AllAttempts(0), Join);
    ms := AllAttempts(0) + [Join];
  }

  ghost predicate Drained(cfg: Config, s: State, h: State, second: NodeStatus) {
    && h.phase == AtHead && h.control == s.control && TwoNodes(h, Failed, second)
    && h.view == Refreshed(cfg.graph.order, h.nodes)
  }

  lemma JoinAfterFailure(cfg: Config, s: State, q: State, second: NodeStatus)
    requires Shaped(cfg, s) && TwoNodes(s, Running, second) && s.tasks == map[0 := Starting] && s.phase == InBatch
    requires q == s.(nodes := s.nodes[0 := s.nodes[0].(status := Failed)], steps := q.steps, tasks := q.tasks)
    requires q.tasks == s.tasks[0 := Settled]
    ensures Enabled(q, Join) && Drained(cfg, s, Joined(cfg, q), second)
  {
    OneFailed(s, q, second);
    var h := Joined(cfg, q);
    assert h.nodes == q.nodes && h.control == s.control && h.phase == AtHead;
  }

  lemma OneFailed(s: State, q: State, second: NodeStatus)
    requires TwoNodes(s, Running, second)
    requires q.nodes == s.nodes[0 := s.nodes[0].(status := Failed)]
    ensures TwoNodes(q, Failed, second)
  {
    assert q.nodes == map[0 := Node(Failed, None), 1 := Node(second, None)];
  }

  lemma StartRun(cfg: Config, s: State) returns (ls: seq<Label>)
    requires FailingChain(cfg) && Initial(cfg, s)
    ensures IsRun(cfg, s, ls) && After(cfg, s, ls) == Iterated(cfg, s)
  {
    ls := [];
    RunStep(cfg, s, ls, Iterate);
    ls := ls + [Iterate];
  }

  lemma PauseTwo(cfg: Config, s: State)
    requires Shaped(cfg, s) && s.control == RunRunning && TwoNodes(s, Running, Waiting)
    ensures var p := Controlled(cfg, s, Pause);
      && p.control == RunPaused && p.phase == s.phase && p.tasks == s.tasks && p.steps == s.steps
      && TwoNodes(p, Running, Paused)
  {
    assert s.nodes[0] == Node(Running, None) && s.nodes[1] == Node(Waiting, None);
    assert MarkPaused(s.nodes) == map[0 := Node(Running, None), 1 := Node(Paused, None)];
  }

  /** A pause that is still set when the batch has drained: the run is reported COMPLETED although one
      node failed and the other was never run. */
  lemma PausedRunReportsSuccess(cfg: Config, s: State) returns (ls: seq<Label>)
    requires FailingChain(cfg) && Initial(cfg, s)
    ensures IsRun(cfg, s, ls)
    ensures After(cfg, s, ls).phase == Ended(ReportCompleted) && TwoNodes(After(cfg, s, ls), Failed, Paused)
  {
    ls := StartRun(cfg, s);
    FirstBatch(cfg, s);
    PauseTwo(cfg, After(cfg, s, ls));
    RunStep(cfg, s, ls, Pause);
    ls := ls + [Pause];
    ls := PausedEnding(cfg, s, ls);
  }

  lemma PausedEnding(cfg: Config, s: State, ls: seq<Label>) returns (ms: seq<Label>)
    requires FailingChain(cfg) && Initial(cfg, s) && IsRun(cfg, s, ls)
    requires var t := After(cfg, s, ls);
      t.phase == InBatch && t.tasks == map[0 := Starting] && TwoNodes(t, Running, Paused) && t.control == RunPaused
    ensures IsRun(cfg, s, ms)
    ensures After(cfg, s, ms).phase == Ended(ReportCompleted) && TwoNodes(After(cfg, s, ms), Failed, Paused)
  {
    var t := After(cfg, s, ls);
    var drain := DrainBatch(cfg, t, Paused);
    Interruption.RunJoin(cfg, s, ls, drain);
    ms := ls + drain;
    var h := After(cfg, s, ms);
    InitialInv(cfg, s);
    RunKeepsInv(cfg, s, ms);
    assert h.nodes[1].status == Paused;
    PauseAtHeadEndsRun(cfg, h);
    PausedHeadEnds(cfg, h);
    RunStep(cfg, s, ms, Iterate);
    ms := ms + [Iterate];
  }

  /** Without any control call: the second node fails by propagation, yet stays listed as waiting. */
  lemma FailureLeavesStaleLists(cfg: Config, s: State) returns (ls: seq<Label>)
    requires FailingChain(cfg) && Initial(cfg, s)
    ensures IsRun(cfg, s, ls)
    ensures var t := After(cfg, s, ls);
      t.phase == Ended(ReportFailed) && TwoNodes(t, Failed, Failed) && t.view.failed == [0] && t.view.waiting == [1]
  {
    ls := StartRun(cfg, s);
    FirstBatch(cfg, s);
    var drain := DrainBatch(cfg, After(cfg, s, ls), Waiting);
    Interruption.RunJoin(cfg, s, ls, drain);
    ls := ls + drain;
    LastPassSpreadsFailure(cfg, After(cfg, s, ls));
    RunStep(cfg, s, ls, Iterate);
    ls := ls + [Iterate];
  }

  lemma LastPassSpreadsFailure(cfg: Config, s: State)
    requires FailingChain(cfg) && Shaped(cfg, s) && s.control == RunRunning
    requires TwoNodes(s, Failed, Waiting) && s.view == Refreshed(cfg.graph.order, s.nodes)
    ensures var t := Iterated(cfg, s);
      t.phase == Ended(ReportFailed) && TwoNodes(t, Failed, Failed) && t.view.failed == [0] && t.view.waiting == [1]
  {
    ResolveTwo(cfg, s, Failed);
    StillPending(s);
    var r := AfterResolve(cfg, s);
    BothFailed(cfg, r);
    IterationIs(cfg, s);
    RecordedLists(cfg, s);
  }

  lemma StillPending(s: State)
    requires TwoNodes(s, Failed, Waiting)
    ensures HasPending(s.nodes)
  {
    assert s.nodes[1].status == Waiting;
  }

  lemma RecordedLists(cfg: Config, s: State)
    requires FailingChain(cfg) && TwoNodes(s, Failed, Waiting) && s.view == Refreshed(cfg.graph.order, s.nodes)
    ensures s.view.failed == [0] && s.view.waiting == [1]
  {
    assert s.nodes[0].status == Failed && s.nodes[1].status == Waiting;
    ListsOfTwo(s.nodes, {Failed});
    ListsOfTwo(s.nodes, {Waiting, Ready, Paused});
  }

  lemma BothFailed(cfg: Config, r: State)
    requires TwoNodes(r, Failed, Failed) && r.control == RunRunning
    ensures !HasPending(r.nodes)
    ensures var t := Finalised(cfg, r);
      && t.phase == Ended(ReportFailed) && t.nodes == r.nodes
      && t.view.failed == r.view.failed && t.view.waiting == r.view.waiting
  {
    assert r.nodes[0].status == Failed && r.nodes[1].status == Failed;
    assert FinalReport(r.control, r.nodes) == ReportFailed;
  }

  lemma ListsOfTwo(nodes: Nodes, keep: set<NodeStatus>)
    requires 0 in nodes && 1 in nodes
    ensures Select([0, 1], nodes, keep)
      == (if nodes[0].status in keep then [0] else []) + (if nodes[1].status in keep then [1] else [])
  {
    assert [0, 1][..1] == [0] && [0][..0] == [];
    assert Select([0], nodes, keep) == if nodes[0].status in keep then [0] else [];
  }

  /** Such a plan exists, so neither statement is empty. */
  lemma FailingChainExists() returns (cfg: Config, s: State)
    ensures FailingChain(cfg) && Initial(cfg, s)
  {
    cfg := Config(Graph([0, 1], map[0 := [], 1 := [0]]), {0, 1},
                  (id: Id) => "", (id: Id) => map[], (id: Id, p: Payload, n: nat) => Raised);
    var nodes := map[0 := Node(Waiting, None), 1 := Node(Waiting, None)];
    var steps := map[0 := Step(StepPending, None), 1 := Step(StepPending, None)];
    s := State(RunRunning, nodes, steps, map[], AtHead, Refreshed(cfg.graph.order, nodes), 0, map[]);
  }
}
