/** When nodes run: loop passes against dependency depth. */
module Passes {
  import opened Graphs
  import opened Models
  import opened Protocol
  import opened Invariants

  ghost predicate PassNode(cfg: Config, s: State, id: Id)
    requires Shaped(cfg, s) && id in s.nodes
  {
    && (id in s.started ==>
          && Grounded(cfg.graph, id) && s.started[id] == Depth(cfg.graph, id) <= s.pass
          && !Idle(s.nodes[id].status) && s.nodes[id].status != Cancelled)
    && (Active(s.nodes, id) ==> id in s.started)
    && (id in s.tasks ==> id in s.started && s.started[id] == s.pass)
    && (Grounded(cfg.graph, id) && Depth(cfg.graph, id) <= s.pass ==> !Idle(s.nodes[id].status))
  }

  ghost predicate PassInv(cfg: Config, s: State) {
    && Inv(cfg, s)
    && (AllGrounded(cfg.graph) ==> s.pass <= Height(cfg.graph, cfg.graph.order))
    && forall id {:trigger PassNode(cfg, s, id)} :: id in s.nodes ==> PassNode(cfg, s, id)
  }

  lemma InitialPassInv(cfg: Config, s: State)
    requires Initial(cfg, s)
    ensures PassInv(cfg, s)
  {
    InitialInv(cfg, s);
  }

  /** A node at depth at most `pass + 1` is resolved to something other than waiting: its dependencies
      were all settled by the earlier passes. */
  lemma ShallowNodeIsDecided(cfg: Config, s: State, id: Id)
    requires PassInv(cfg, s) && Continuing(cfg, s) && id in s.nodes
    requires Grounded(cfg.graph, id) && Depth(cfg.graph, id) <= s.pass + 1
    ensures AfterResolve(cfg, s).nodes[id].status != Waiting
  {
    ResolvePoint(cfg, s, id);
    if s.nodes[id].status == Waiting && !AnyDependencyFailed(cfg.graph, s.nodes, id) {
      forall d | d in cfg.graph.deps[id] ensures d in s.nodes && s.nodes[d].status == Completed {
        DependencyIsShallower(cfg.graph, id, d);
        GroundedIsNode(cfg.graph, d);
        assert PassNode(cfg, s, d);
        ResolvePoint(cfg, s, d);
      }
    }
  }

  /** A node becomes ready in no other pass than the one equal to its depth. */
  lemma ReadyAtItsDepth(cfg: Config, s: State, id: Id)
    requires PassInv(cfg, s) && Continuing(cfg, s) && id in s.nodes
    requires AfterResolve(cfg, s).nodes[id].status == Ready
    ensures Grounded(cfg.graph, id) && Depth(cfg.graph, id) == s.pass + 1
  {
    ResolvePoint(cfg, s, id);
    forall d | d in cfg.graph.deps[id] ensures Grounded(cfg.graph, d) && Depth(cfg.graph, d) <= s.pass {
      assert PassNode(cfg, s, d);
    }
    DepthFromDeps(cfg.graph, id, s.pass);
    assert PassNode(cfg, s, id);
  }

  /** While a node is pending on a fully grounded graph, the next pass is still within the height. */
  lemma PassesWithinHeight(cfg: Config, s: State)
    requires PassInv(cfg, s) && Continuing(cfg, s) && AllGrounded(cfg.graph)
    ensures s.pass + 1 <= Height(cfg.graph, cfg.graph.order)
  {
    var id :| id in s.nodes && !Terminal(s.nodes[id].status);
    ResolvePoint(cfg, s, id);
    WaitingNodeIsDeep(cfg, s, id);
    HeightIsMaximum(cfg.graph, cfg.graph.order);
    assert id in cfg.graph.order;
  }

  lemma WaitingNodeIsDeep(cfg: Config, s: State, id: Id)
    requires PassInv(cfg, s) && id in s.nodes && s.nodes[id].status == Waiting && Grounded(cfg.graph, id)
    ensures s.pass < Depth(cfg.graph, id)
  {
    assert PassNode(cfg, s, id);
  }

  /** What one iteration that goes on does to one node and to the history. */
  ghost predicate IteratedPoint(s: State, r: State, t: State, id: Id)
    requires id in r.nodes
  {
    var ready := r.nodes[id].status == Ready;
    && t.pass == s.pass + 1 && id in t.nodes
    && t.nodes[id] == (if ready then r.nodes[id].(status := Running) else r.nodes[id])
    && (id in t.started <==> id in s.started || ready)
    && (id in t.started ==> t.started[id] == if ready then s.pass + 1 else s.started[id])
    && (id in t.tasks <==> ready)
    && (ready ==> t.tasks[id] == Starting)
  }

  lemma StartedPoint(cfg: Config, s: State, r: State, id: Id)
    requires id in r.nodes && r.pass == s.pass + 1 && r.started == s.started
    ensures IteratedPoint(s, r, BatchStarted(cfg, r), id)
  {
  }

  lemma FinalisedPoint(cfg: Config, s: State, r: State, id: Id)
    requires id in r.nodes && r.nodes[id].status != Ready
    requires r.pass == s.pass + 1 && r.started == s.started && r.tasks == map[]
    ensures IteratedPoint(s, r, Finalised(cfg, r), id)
  {
  }

  lemma IteratePoint(cfg: Config, s: State, id: Id)
    requires Continuing(cfg, s) && id in s.nodes
    ensures IteratedPoint(s, AfterResolve(cfg, s), Iterated(cfg, s), id)
  {
    var r := AfterResolve(cfg, s);
    HeadIsQuiet(cfg, s);
    IterationIs(cfg, s);
    if ReadySet(r.nodes) != {} {
      StartedPoint(cfg, s, r, id);
    } else {
      assert id !in ReadySet(r.nodes);
      FinalisedPoint(cfg, s, r, id);
    }
  }

  lemma IterateKeepsPassNode(cfg: Config, s: State, id: Id)
    requires PassInv(cfg, s) && Continuing(cfg, s) && id in s.nodes
    ensures PassNode(cfg, Iterated(cfg, s), id)
  {
    assert PassNode(cfg, s, id);
    ResolvePoint(cfg, s, id);
    IteratePoint(cfg, s, id);
    if Grounded(cfg.graph, id) && Depth(cfg.graph, id) <= s.pass + 1 {
      ShallowNodeIsDecided(cfg, s, id);
    }
    if AfterResolve(cfg, s).nodes[id].status == Ready {
      ReadyAtItsDepth(cfg, s, id);
    }
  }

  lemma IterateKeepsPassInv(cfg: Config, s: State)
    requires PassInv(cfg, s) && s.phase == AtHead
    ensures PassInv(cfg, Iterated(cfg, s))
  {
    var t := Iterated(cfg, s);
    IterateKeepsInv(cfg, s);
    if ShouldContinue(s.control, s.nodes) {
      var pending :| pending in s.nodes && !Terminal(s.nodes[pending].status);
      IteratePoint(cfg, s, pending);
      if AllGrounded(cfg.graph) {
        PassesWithinHeight(cfg, s);
      }
    }
    forall id | id in s.nodes ensures PassNode(cfg, t, id) {
      if ShouldContinue(s.control, s.nodes) {
        IterateKeepsPassNode(cfg, s, id);
      } else {
        assert PassNode(cfg, s, id);
      }
    }
  }

  /** No other step touches the history or turns a decided node idle again. */
  lemma OtherStepPoint(cfg: Config, s: State, l: Label, id: Id)
    requires Inv(cfg, s) && Enabled(s, l) && l != Iterate && id in s.nodes
    ensures var t := Apply(cfg, s, l);
      && t.pass == s.pass && t.started == s.started && t.nodes.Keys == s.nodes.Keys
      && (Active(t.nodes, id) ==> Active(s.nodes, id))
      && (id in t.tasks ==> id in s.tasks)
      && (!Idle(s.nodes[id].status) ==> !Idle(t.nodes[id].status))
      && (!Idle(s.nodes[id].status) && s.nodes[id].status != Cancelled ==> t.nodes[id].status != Cancelled)
  {
    match l
    case Advance(a) =>
      AdvancePoint(cfg, s, a);
      if a != id { AdvanceIsLocal(cfg, s, a, id); }
    case Wake =>
    case Join =>
    case _ => ControlPoint(cfg, s, l, id);
  }

  lemma StepKeepsPassInv(cfg: Config, s: State, l: Label)
    requires PassInv(cfg, s) && Enabled(s, l)
    ensures PassInv(cfg, Apply(cfg, s, l))
  {
    if l == Iterate {
      IterateKeepsPassInv(cfg, s);
    } else {
      var t := Apply(cfg, s, l);
      StepKeepsInv(cfg, s, l);
      forall id | id in s.nodes ensures PassNode(cfg, t, id) {
        assert PassNode(cfg, s, id);
        OtherStepPoint(cfg, s, l, id);
      }
      OtherStepHistory(cfg, s, l);
    }
  }

  lemma OtherStepHistory(cfg: Config, s: State, l: Label)
    requires Shaped(cfg, s) && Enabled(s, l) && l != Iterate
    ensures var t := Apply(cfg, s, l);
      t.pass == s.pass && t.started == s.started && t.nodes.Keys == s.nodes.Keys
  {
  }

  lemma {:induction false} RunKeepsPassInv(cfg: Config, s: State, ls: seq<Label>)
    requires PassInv(cfg, s) && IsRun(cfg, s, ls)
    ensures PassInv(cfg, After(cfg, s, ls))
  {
    if ls != [] {
      var before := ls[..|ls| - 1];
      RunKeepsPassInv(cfg, s, before);
      StepKeepsPassInv(cfg, After(cfg, s, before), ls[|ls| - 1]);
    }
  }

  /** Every run, whatever controls are called in it: a node that was started was started in the pass
      equal to its depth; after pass k every node of depth at most k has been decided or is running; and
      on a valid graph the loop resolves at most as often as the longest dependency chain is long. */
  lemma NodesRunAtTheirDepth(cfg: Config, s: State, ls: seq<Label>, id: Id)
    requires Initial(cfg, s) && IsRun(cfg, s, ls) && id in s.nodes
    ensures var t := After(cfg, s, ls);
      && (id in t.started ==> Grounded(cfg.graph, id) && t.started[id] == Depth(cfg.graph, id))
      && (id in t.started <== t.nodes[id].status == Running || t.nodes[id].status == Completed)
      && (Grounded(cfg.graph, id) && Depth(cfg.graph, id) <= t.pass ==>
            Terminal(t.nodes[id].status) || t.nodes[id].status == Running)
      && (AllGrounded(cfg.graph) ==> t.pass <= Height(cfg.graph, cfg.graph.order))
  {
    InitialPassInv(cfg, s);
    RunKeepsPassInv(cfg, s, ls);
    assert PassNode(cfg, After(cfg, s, ls), id);
  }

  /** No two nodes of one batch are related by dependency, directly or through other nodes. */
  lemma BatchIsIndependent(cfg: Config, s: State, ls: seq<Label>, chain: seq<Id>)
    requires Initial(cfg, s) && IsRun(cfg, s, ls)
    requires IsChain(cfg.graph, chain) && 1 < |chain|
    ensures var t := After(cfg, s, ls);
      !(chain[0] in t.tasks && chain[|chain| - 1] in t.tasks)
  {
    var t := After(cfg, s, ls);
    InitialPassInv(cfg, s);
    RunKeepsPassInv(cfg, s, ls);
    if chain[0] in t.tasks && chain[|chain| - 1] in t.tasks {
      assert PassNode(cfg, t, chain[0]) && PassNode(cfg, t, chain[|chain| - 1]);
      ChainDescends(cfg.graph, chain, |chain| - 1);
    }
  }

  /** A run that completed every node took exactly as many passes as the longest dependency chain, and
      started a batch in each of them. */
  lemma FailureFreePasses(cfg: Config, s: State, ls: seq<Label>)
    requires Initial(cfg, s) && IsRun(cfg, s, ls)
    requires forall id :: id in s.nodes ==> After(cfg, s, ls).nodes[id].status == Completed
    ensures AllGrounded(cfg.graph)
    ensures After(cfg, s, ls).pass == Height(cfg.graph, cfg.graph.order)
    ensures forall k :: 1 <= k <= After(cfg, s, ls).pass ==> k in After(cfg, s, ls).started.Values
  {
    InitialPassInv(cfg, s);
    RunKeepsPassInv(cfg, s, ls);
    AllCompletedPasses(cfg, After(cfg, s, ls));
  }

  lemma AllCompletedPasses(cfg: Config, t: State)
    requires PassInv(cfg, t) && forall id :: id in t.nodes ==> t.nodes[id].status == Completed
    ensures AllGrounded(cfg.graph) && t.pass == Height(cfg.graph, cfg.graph.order)
    ensures forall k :: 1 <= k <= t.pass ==> k in t.started.Values
  {
    forall id | id in t.nodes
      ensures Grounded(cfg.graph, id) && id in t.started && t.started[id] == Depth(cfg.graph, id) <= t.pass
    {
      assert NodeInv(cfg, t, id) && PassNode(cfg, t, id);
    }
    HeightIsMaximum(cfg.graph, cfg.graph.order);
    forall k | 1 <= k <= t.pass ensures k in t.started.Values {
      LevelWasStarted(cfg.graph, t, k);
    }
  }

  lemma LevelWasStarted(g: Graph, t: State, k: nat)
    requires forall id :: id in g.deps ==> Grounded(g, id) && id in t.started && t.started[id] == Depth(g, id)
    requires WellFormed(g) && 1 <= k <= Height(g, g.order)
    ensures k in t.started.Values
  {
    HeightIsMaximum(g, g.order);
    var deepest :| deepest in g.order && Depth(g, deepest) == Height(g, g.order);
    var id := LevelInhabited(g, deepest, k);
    assert id in t.started;
  }

  /** Above every node there is a node of each smaller depth. */
  lemma {:induction false} LevelInhabited(g: Graph, id: Id, k: nat) returns (above: Id)
    requires Grounded(g, id) && 1 <= k <= Depth(g, id)
    ensures Grounded(g, above) && above in g.deps && Depth(g, above) == k
    decreases Depth(g, id)
  {
    GroundedIsNode(g, id);
    if Depth(g, id) == k {
      above := id;
    } else {
      var d := DependencyOneLevelUp(g, id);
      above := LevelInhabited(g, d, k);
    }
  }
}
