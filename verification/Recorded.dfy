/** The node lists and the progress figure recorded in the execution state. */
module Recorded {
  import opened Graphs
  import opened Models
  import opened Protocol
  import opened Invariants
  import opened Termination
  import opened Outcomes

  // ---------- lists ----------

  lemma {:induction false} SelectSelects(order: seq<Id>, nodes: Nodes, keep: set<NodeStatus>)
    ensures forall id :: id in Select(order, nodes, keep) <==> id in order && id in nodes && nodes[id].status in keep
    ensures Distinct(order) ==> Distinct(Select(order, nodes, keep))
  {
    if order != [] {
      var init := order[..|order| - 1];
      SelectSelects(init, nodes, keep);
      assert order == init + [order[|order| - 1]];
    }
  }

  /** A list keeps the order of the graph. */
  lemma {:induction false} SelectKeepsOrder(order: seq<Id>, nodes: Nodes, keep: set<NodeStatus>, a: nat, b: nat)
    returns (i: nat, j: nat)
    requires a < b < |order| && order[a] in nodes && order[b] in nodes
    requires nodes[order[a]].status in keep && nodes[order[b]].status in keep
    ensures i < j < |Select(order, nodes, keep)|
    ensures Select(order, nodes, keep)[i] == order[a] && Select(order, nodes, keep)[j] == order[b]
  {
    var init := order[..|order| - 1];
    if b < |order| - 1 {
      i, j := SelectKeepsOrder(init, nodes, keep, a, b);
    } else {
      i := SelectHas(init, nodes, keep, a);
      j := |Select(init, nodes, keep)|;
    }
  }

  lemma {:induction false} SelectHas(order: seq<Id>, nodes: Nodes, keep: set<NodeStatus>, a: nat) returns (i: nat)
    requires a < |order| && order[a] in nodes && nodes[order[a]].status in keep
    ensures i < |Select(order, nodes, keep)| && Select(order, nodes, keep)[i] == order[a]
  {
    var init := order[..|order| - 1];
    if a < |order| - 1 {
      i := SelectHas(init, nodes, keep, a);
    } else {
      i := |Select(init, nodes, keep)|;
    }
  }

  lemma {:induction false} NothingToSelect(order: seq<Id>, nodes: Nodes, keep: set<NodeStatus>)
    requires forall id :: id in nodes ==> nodes[id].status !in keep
    ensures Select(order, nodes, keep) == []
  {
    if order != [] {
      NothingToSelect(order[..|order| - 1], nodes, keep);
    }
  }

  /** After every refresh each list has no duplicates and holds exactly the nodes of its statuses, so no
      id is in two lists, and together they hold exactly the nodes that are not cancelled. */
  lemma RefreshPartitions(g: Graph, nodes: Nodes, id: Id)
    requires WellFormed(g) && nodes.Keys == g.deps.Keys
    ensures var v := Refreshed(g.order, nodes);
      && Distinct(v.current) && Distinct(v.completed) && Distinct(v.failed) && Distinct(v.waiting)
      && (id in v.current <==> id in nodes && nodes[id].status == Running)
      && (id in v.completed <==> id in nodes && nodes[id].status == Completed)
      && (id in v.failed <==> id in nodes && nodes[id].status == Failed)
      && (id in v.waiting <==> id in nodes && Idle(nodes[id].status))
      && multiset{id in v.current, id in v.completed, id in v.failed, id in v.waiting}[true]
         == if id in nodes && nodes[id].status != Cancelled then 1 else 0
  {
    SelectSelects(g.order, nodes, {Running});
    SelectSelects(g.order, nodes, {Completed});
    SelectSelects(g.order, nodes, {Failed});
    SelectSelects(g.order, nodes, {Waiting, Ready, Paused});
  }

  // ---------- rounding ----------

  /** The rounded quotient is a nearest integer. */
  lemma {:induction false} RoundedIsNearest(a: nat, n: nat)
    requires 0 < n
    ensures var q := RoundedQuotient(a, n); 2 * q * n <= 2 * a + n && 2 * a <= 2 * q * n + n
    decreases a
  {
    if 2 * n <= a {
      RoundedIsNearest(a - 2 * n, n);
      TwoMore(RoundedQuotient(a - 2 * n, n), n);
    }
  }

  lemma TwoMore(p: nat, n: nat)
    ensures 2 * (p + 2) * n == 2 * p * n + 4 * n
  {
  }

  lemma {:induction false} RoundedIsMonotone(a: nat, b: nat, n: nat)
    requires 0 < n && a <= b
    ensures RoundedQuotient(a, n) <= RoundedQuotient(b, n)
    decreases a
  {
    if 2 * n <= a {
      RoundedIsMonotone(a - 2 * n, b - 2 * n, n);
    } else if 4 * n <= b {
    } else if 2 * n <= b {
    }
  }

  /** `k * n` for even `k`, in steps of two. */
  ghost function EvenTimes(k: nat, n: nat): nat
    requires k % 2 == 0
  {
    if k == 0 then 0 else EvenTimes(k - 2, n) + 2 * n
  }

  lemma {:induction false} EvenTimesIsProduct(k: nat, n: nat)
    requires k % 2 == 0
    ensures EvenTimes(k, n) == k * n
  {
    if 0 < k { EvenTimesIsProduct(k - 2, n); }
  }

  /** The rounded quotient compared with an even number: half a step short still reaches it. */
  lemma {:induction false} RoundedAgainstEven(a: nat, n: nat, k: nat)
    requires 0 < n && k % 2 == 0
    ensures k <= RoundedQuotient(a, n) <==> 2 * EvenTimes(k, n) <= 2 * a + n
    ensures RoundedQuotient(a, n) <= k <==> 2 * a <= 2 * EvenTimes(k, n) + n
    decreases a
  {
    if 2 <= k && 2 * n <= a {
      RoundedAgainstEven(a - 2 * n, n, k - 2);
    }
  }

  /** Up to 1999 nodes the recorded figure is 100.0 only when every node counts. */
  lemma HundredMeansAll(count: nat, n: nat)
    requires 0 < n && count <= n
    ensures RoundedQuotient(1000 * count, n) <= 1000
    ensures count == n ==> RoundedQuotient(1000 * count, n) == 1000
    ensures n < 2000 && RoundedQuotient(1000 * count, n) == 1000 ==> count == n
  {
    var a := 1000 * count;
    EvenTimesIsProduct(1000, n);
    RoundedAgainstEven(a, n, 1000);
  }

  // ---------- progress ----------

  lemma {:induction false} MoreCompletedMoreCount(order: seq<Id>, nodes: Nodes, nodes': Nodes)
    requires forall id :: id in order && id in nodes && nodes[id].status == Completed ==>
      id in nodes' && nodes'[id].status == Completed
    ensures CompletedCount(order, nodes) <= CompletedCount(order, nodes') <= |order|
    ensures CompletedCount(order, nodes) == |order| <==>
      forall id :: id in order ==> id in nodes && nodes[id].status == Completed
  {
    if order != [] {
      var init, last := order[..|order| - 1], order[|order| - 1];
      MoreCompletedMoreCount(init, nodes, nodes');
      assert order == init + [last];
      assert last in order;
    }
  }

  function CompletedIds(nodes: Nodes): set<Id> {
    set id | id in nodes && nodes[id].status == Completed
  }

  /** The count is the number of completed nodes. */
  lemma CountIsNumber(g: Graph, nodes: Nodes)
    requires WellFormed(g) && nodes.Keys == g.deps.Keys
    ensures CompletedCount(g.order, nodes) == |CompletedIds(nodes)|
  {
    var ids := Select(g.order, nodes, {Completed});
    SelectSelects(g.order, nodes, {Completed});
    DistinctNumber(ids);
    assert Members(ids) == CompletedIds(nodes);
  }

  function Members(ids: seq<Id>): set<Id> {
    set id | id in ids
  }

  lemma {:induction false} DistinctNumber(ids: seq<Id>)
    requires Distinct(ids)
    ensures |Members(ids)| == |ids|
  {
    if ids != [] {
      var init, last := ids[..|ids| - 1], ids[|ids| - 1];
      DistinctNumber(init);
      MembersSnoc(init, last);
      assert ids == init + [last];
    }
  }

  lemma MembersSnoc(ids: seq<Id>, id: Id)
    ensures Members(ids + [id]) == Members(ids) + {id}
  {
    assert forall x :: x in ids + [id] <==> x in ids || x == id;
  }

  /** The figure is a nearest tenth of a percent to the share of completed nodes, and 100.0 without nodes. */
  lemma ProgressIsNearest(g: Graph, nodes: Nodes)
    requires WellFormed(g) && nodes.Keys == g.deps.Keys
    ensures var n, p, done := |g.order|, Progress(g.order, nodes), |CompletedIds(nodes)|;
      if n == 0 then p == 1000
      else 2 * p * n <= 2 * (1000 * done) + n && 2 * (1000 * done) <= 2 * p * n + n
  {
    CountIsNumber(g, nodes);
    if g.order != [] {
      RoundedIsNearest(1000 * CompletedCount(g.order, nodes), |g.order|);
    }
  }

  /** Recorded progress is between 0 and 100 percent, is 100.0 when all nodes have completed, and on
      graphs of fewer than 2000 nodes only then. */
  lemma ProgressRange(order: seq<Id>, nodes: Nodes)
    ensures 0 <= Progress(order, nodes) <= 1000
    ensures (forall id :: id in order ==> id in nodes && nodes[id].status == Completed) ==>
      Progress(order, nodes) == 1000
    ensures |order| < 2000 && Progress(order, nodes) == 1000 ==>
      forall id :: id in order ==> id in nodes && nodes[id].status == Completed
  {
    if order != [] {
      MoreCompletedMoreCount(order, nodes, nodes);
      HundredMeansAll(CompletedCount(order, nodes), |order|);
    }
  }

  /** Exactly when progress shows 100.0: at most one node in two thousand is missing. */
  lemma HundredExactly(order: seq<Id>, nodes: Nodes)
    requires order != []
    ensures Progress(order, nodes) == 1000 <==> 2000 * (|order| - CompletedCount(order, nodes)) <= |order|
  {
    var n := |order|;
    MoreCompletedMoreCount(order, nodes, nodes);
    HundredMeansAll(CompletedCount(order, nodes), n);
    EvenTimesIsProduct(1000, n);
    RoundedAgainstEven(1000 * CompletedCount(order, nodes), n, 1000);
  }

  lemma ProgressIsMonotone(order: seq<Id>, nodes: Nodes, nodes': Nodes)
    requires forall id :: id in order && id in nodes && nodes[id].status == Completed ==>
      id in nodes' && nodes'[id].status == Completed
    ensures Progress(order, nodes) <= Progress(order, nodes')
  {
    if order != [] {
      MoreCompletedMoreCount(order, nodes, nodes');
      RoundedIsMonotone(1000 * CompletedCount(order, nodes), 1000 * CompletedCount(order, nodes'), |order|);
    }
  }

  /** What is recorded never runs ahead of the graph, and is exact outside a batch. */
  ghost predicate RecordedInv(cfg: Config, s: State) {
    && Inv(cfg, s)
    && s.view.progress <= Progress(cfg.graph.order, s.nodes)
    && (s.phase != InBatch ==> s.view.progress == Progress(cfg.graph.order, s.nodes))
  }

  /** Every step leaves the figure exact, or leaves it alone without completing a node outside a batch. */
  lemma StepRecords(cfg: Config, s: State, l: Label)
    requires Inv(cfg, s) && Enabled(s, l)
    ensures var t := Apply(cfg, s, l);
      || t.view.progress == Progress(cfg.graph.order, t.nodes)
      || (t.view.progress == s.view.progress && (t.phase != InBatch ==> s.phase != InBatch && SameCompleted(s, t)))
  {
    match l
    case Iterate => IterateRecords(cfg, s);
    case Advance(id) => AdvancePoint(cfg, s, id);
    case Wake =>
    case Join =>
    case _ => ControlRecords(cfg, s, l);
  }

  lemma ControlRecords(cfg: Config, s: State, l: Label)
    requires IsControl(l)
    ensures Controlled(cfg, s, l) == s
      || Controlled(cfg, s, l).view.progress == Progress(cfg.graph.order, Controlled(cfg, s, l).nodes)
  {
  }

  /** The same nodes have completed. */
  ghost predicate SameCompleted(s: State, t: State) {
    && t.nodes.Keys == s.nodes.Keys
    && forall id :: id in s.nodes ==> (t.nodes[id].status == Completed <==> s.nodes[id].status == Completed)
  }

  lemma IterateRecords(cfg: Config, s: State)
    requires Inv(cfg, s) && s.phase == AtHead
    ensures var t := Iterated(cfg, s);
      || t.view.progress == Progress(cfg.graph.order, t.nodes)
      || (t.view.progress == s.view.progress && SameCompleted(s, t))
  {
    var r := AfterResolve(cfg, s);
    if !ShouldContinue(s.control, s.nodes) {
      FinalisedRecords(cfg, s);
    } else {
      IterationIs(cfg, s);
      FinalisedRecords(cfg, r);
      StartRecords(cfg, r);
      forall id | id in s.nodes ensures r.nodes[id].status == Completed <==> s.nodes[id].status == Completed {
        ResolvePoint(cfg, s, id);
      }
    }
  }

  lemma FinalisedRecords(cfg: Config, s: State)
    ensures Finalised(cfg, s).view.progress == Progress(cfg.graph.order, Finalised(cfg, s).nodes)
  {
  }

  lemma StartRecords(cfg: Config, s: State)
    ensures BatchStarted(cfg, s).view.progress == Progress(cfg.graph.order, BatchStarted(cfg, s).nodes)
    ensures BatchStarted(cfg, s).phase == InBatch
  {
  }

  lemma StepKeepsRecorded(cfg: Config, s: State, l: Label)
    requires RecordedInv(cfg, s) && Enabled(s, l)
    ensures RecordedInv(cfg, Apply(cfg, s, l))
    ensures s.view.progress <= Apply(cfg, s, l).view.progress
  {
    var t := Apply(cfg, s, l);
    StepKeepsInv(cfg, s, l);
    StepRecords(cfg, s, l);
    forall id | id in s.nodes && s.nodes[id].status == Completed ensures t.nodes[id].status == Completed {
      StepMovesLegally(cfg, s, l, id);
    }
    ProgressIsMonotone(cfg.graph.order, s.nodes, t.nodes);
    if SameCompleted(s, t) {
      ProgressIsMonotone(cfg.graph.order, t.nodes, s.nodes);
    }
  }

  /** Over any run the recorded progress never decreases and stays within 0 and 100 percent, and outside a
      batch it is exact. */
  lemma {:induction false} RecordedProgressGrows(cfg: Config, s: State, ls: seq<Label>)
    requires RecordedInv(cfg, s) && IsRun(cfg, s, ls)
    ensures RecordedInv(cfg, After(cfg, s, ls))
    ensures s.view.progress <= After(cfg, s, ls).view.progress <= 1000
  {
    if ls == [] {
      ProgressRange(cfg.graph.order, s.nodes);
    } else {
      var before := ls[..|ls| - 1];
      RecordedProgressGrows(cfg, s, before);
      StepKeepsRecorded(cfg, After(cfg, s, before), ls[|ls| - 1]);
      ProgressRange(cfg.graph.order, After(cfg, s, ls).nodes);
    }
  }

  lemma InitialRecorded(cfg: Config, s: State)
    requires Initial(cfg, s)
    ensures RecordedInv(cfg, s)
  {
    InitialInv(cfg, s);
  }

  // ---------- stale lists ----------

  /** The recorded lists are the ones a refresh would produce now. */
  ghost predicate ListsAreCurrent(cfg: Config, s: State) {
    s.view.(progress := 0) == Refreshed(cfg.graph.order, s.nodes).(progress := 0)
  }

  /** A node that has failed is still recorded as waiting. */
  ghost predicate ListsAreStale(s: State) {
    exists id :: id in s.view.waiting && id in s.nodes && s.nodes[id].status == Failed
  }

  lemma StaleIsNotCurrent(cfg: Config, s: State)
    requires Shaped(cfg, s) && ListsAreStale(s)
    ensures !ListsAreCurrent(cfg, s)
  {
    SelectSelects(cfg.graph.order, s.nodes, {Waiting, Ready, Paused});
  }

  /** Outside a batch and before the end the lists are current, or stale in a loop that will go on. */
  ghost predicate ListsInv(cfg: Config, s: State) {
    && Inv(cfg, s)
    && (s.phase == AtHead || s.phase == Asleep ==>
          ListsAreCurrent(cfg, s) || (ListsAreStale(s) && ShouldContinue(s.control, s.nodes)))
  }

  /** A resolve that makes nothing ready either changes no node or leaves the lists stale. */
  lemma IdleResolve(cfg: Config, s: State)
    requires ListsInv(cfg, s) && Continuing(cfg, s) && ReadySet(AfterResolve(cfg, s).nodes) == {}
    ensures ListsAreStale(AfterResolve(cfg, s)) || (ListsAreCurrent(cfg, s) && AfterResolve(cfg, s).nodes == s.nodes)
  {
    var r := AfterResolve(cfg, s);
    if ListsAreStale(s) {
      var id :| id in s.view.waiting && id in s.nodes && s.nodes[id].status == Failed;
      ResolvePoint(cfg, s, id);
    } else if id :| id in s.nodes && r.nodes[id] != s.nodes[id] {
      SelectSelects(cfg.graph.order, s.nodes, {Waiting, Ready, Paused});
      ResolvePoint(cfg, s, id);
      assert id !in ReadySet(r.nodes);
      assert id in s.view.waiting && r.nodes[id].status == Failed;
    } else {
      assert r.nodes == s.nodes;
    }
  }

  /** Finalising touches neither the nodes nor the list of waiting ones, and keeps current lists current. */
  lemma FinalisedKeepsLists(cfg: Config, s: State)
    requires Shaped(cfg, s) && forall id :: id in s.nodes ==> s.nodes[id].status != Running
    ensures ListsAreCurrent(cfg, s) ==> ListsAreCurrent(cfg, Finalised(cfg, s))
    ensures ListsAreStale(s) ==> ListsAreStale(Finalised(cfg, s))
  {
    var t := Finalised(cfg, s);
    assert t.nodes == s.nodes && t.view.waiting == s.view.waiting;
    NothingToSelect(cfg.graph.order, s.nodes, {Running});
  }

  /** What the lists say after a pass that starts no batch. */
  lemma IdlePass(cfg: Config, s: State)
    requires ListsInv(cfg, s) && Continuing(cfg, s) && ReadySet(AfterResolve(cfg, s).nodes) == {}
    ensures var t := Iterated(cfg, s);
      if t.phase.Ended? then ListsAreStale(t)
      else (ListsAreCurrent(cfg, t) || ListsAreStale(t)) && ShouldContinue(t.control, t.nodes)
  {
    var r := AfterResolve(cfg, s);
    IdleResolve(cfg, s);
    IterationIs(cfg, s);
    if HasPending(r.nodes) {
      SleepKeepsLists(cfg, s, r);
    } else {
      HeadIsQuiet(cfg, s);
      forall id | id in r.nodes ensures r.nodes[id].status != Running {
        ResolvePoint(cfg, s, id);
      }
      FinalisedKeepsLists(cfg, r);
      FinalisedPhase(cfg, r);
    }
  }

  lemma FinalisedPhase(cfg: Config, s: State)
    ensures Finalised(cfg, s).phase.Ended?
  {
  }

  lemma SleepKeepsLists(cfg: Config, s: State, r: State)
    requires r.view == s.view && (ListsAreStale(r) || (ListsAreCurrent(cfg, s) && r.nodes == s.nodes))
    ensures ListsAreStale(r.(phase := Asleep)) || ListsAreCurrent(cfg, r.(phase := Asleep))
  {
  }

  /** The lists an iteration ends with, by the loop head it starts from. */
  lemma FinalLists(cfg: Config, h: State)
    requires ListsInv(cfg, h) && h.phase == AtHead && Iterated(cfg, h).phase.Ended?
    ensures ListsAreCurrent(cfg, Iterated(cfg, h)) <==> !ShouldContinue(h.control, h.nodes)
    ensures ShouldContinue(h.control, h.nodes) ==> ListsAreStale(Iterated(cfg, h))
  {
    if ShouldContinue(h.control, h.nodes) {
      StartedIsInBatch(cfg, AfterResolve(cfg, h));
      IterationIs(cfg, h);
      IdlePass(cfg, h);
      StaleIsNotCurrent(cfg, Iterated(cfg, h));
    } else {
      HeadIsQuiet(cfg, h);
      FinalisedKeepsLists(cfg, h);
    }
  }

  /** When a batch starts, the lists and the progress figure are those of the graph with the batch running. */
  lemma StartedBatchIsRecorded(cfg: Config, h: State)
    requires Shaped(cfg, h) && h.phase == AtHead && Iterated(cfg, h).phase == InBatch
    ensures ListsAreCurrent(cfg, Iterated(cfg, h))
    ensures Iterated(cfg, h).view.progress == Progress(cfg.graph.order, Iterated(cfg, h).nodes)
  {
    if ShouldContinue(h.control, h.nodes) {
      IterationIs(cfg, h);
      FinalisedPhase(cfg, AfterResolve(cfg, h));
      StartRefreshes(cfg, AfterResolve(cfg, h));
    } else {
      FinalisedPhase(cfg, h);
    }
  }

  lemma StartRefreshes(cfg: Config, r: State)
    ensures var t := BatchStarted(cfg, r); t.view == Refreshed(cfg.graph.order, t.nodes) && ListsAreCurrent(cfg, t)
  {
  }

  lemma IterateKeepsLists(cfg: Config, s: State)
    requires ListsInv(cfg, s) && s.phase == AtHead
    ensures ListsInv(cfg, Iterated(cfg, s))
  {
    IterateKeepsInv(cfg, s);
    if !ShouldContinue(s.control, s.nodes) {
      FinalisedPhase(cfg, s);
    } else if ReadySet(AfterResolve(cfg, s).nodes) != {} {
      IterationIs(cfg, s);
      StartedIsInBatch(cfg, AfterResolve(cfg, s));
    } else {
      IdlePass(cfg, s);
    }
  }

  /** A control call that is accepted refreshes the lists, and one that is not changes nothing. */
  lemma ControlKeepsLists(cfg: Config, s: State, l: Label)
    requires ListsInv(cfg, s) && IsControl(l) && Enabled(s, l)
    ensures ListsInv(cfg, Controlled(cfg, s, l))
  {
    ControlKeepsInv(cfg, s, l);
    ControlRefreshes(cfg, s, l);
  }

  lemma ControlRefreshes(cfg: Config, s: State, l: Label)
    requires IsControl(l)
    ensures var t := Controlled(cfg, s, l);
      t == s || (t.view == Refreshed(cfg.graph.order, t.nodes) && ListsAreCurrent(cfg, t))
  {
  }

  lemma StepKeepsLists(cfg: Config, s: State, l: Label)
    requires ListsInv(cfg, s) && Enabled(s, l)
    ensures ListsInv(cfg, Apply(cfg, s, l))
  {
    StepKeepsInv(cfg, s, l);
    match l
    case Iterate => IterateKeepsLists(cfg, s);
    case Advance(id) => AdvancePoint(cfg, s, id);
    case Wake => SleepersList(cfg, s);
    case Join => assert ListsAreCurrent(cfg, Joined(cfg, s));
    case _ => ControlKeepsLists(cfg, s, l);
  }

  /** Waking changes neither nodes nor lists. */
  lemma SleepersList(cfg: Config, s: State)
    ensures var t := s.(phase := AtHead);
      && (ListsAreCurrent(cfg, s) ==> ListsAreCurrent(cfg, t))
      && (ListsAreStale(s) ==> ListsAreStale(t))
  {
  }

  lemma {:induction false} RunKeepsLists(cfg: Config, s: State, ls: seq<Label>)
    requires Initial(cfg, s) && IsRun(cfg, s, ls)
    ensures ListsInv(cfg, After(cfg, s, ls))
  {
    InitialInv(cfg, s);
    if ls != [] {
      var before := ls[..|ls| - 1];
      RunKeepsLists(cfg, s, before);
      StepKeepsLists(cfg, After(cfg, s, before), ls[|ls| - 1]);
    }
  }

  /** For every run that ended, on any graph and under any control calls: the lists left in the state agree
      with the graph if and only if the loop was left by its condition. If it was left after one more
      resolve, some failed node is listed as waiting. */
  lemma FinalListsAgreeIff(cfg: Config, s: State, ls: seq<Label>, k: nat)
    requires Initial(cfg, s) && IsRun(cfg, s, ls) && After(cfg, s, ls).phase.Ended? && EndedAt(cfg, s, ls, k)
    ensures var h, t := After(cfg, s, ls[..k]), After(cfg, s, ls);
      && (ListsAreCurrent(cfg, t) <==> !ShouldContinue(h.control, h.nodes))
      && (ShouldContinue(h.control, h.nodes) ==> ListsAreStale(t))
  {
    RunKeepsLists(cfg, s, ls[..k]);
    FinalLists(cfg, After(cfg, s, ls[..k]));
  }
}
