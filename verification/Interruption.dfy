/** A pause lifted before the loop head sees it leaves no trace; one that is not ends the run. */
module Interruption {
  import opened Graphs
  import opened Models
  import opened Protocol
  import opened Invariants

  /** Equal but for the lists and the progress figure last recorded. */
  ghost predicate SameButView(s: State, t: State) {
    t == s.(view := t.view)
  }

  /** No step looks at the recorded lists. */
  lemma ViewIsNeverRead(cfg: Config, s: State, t: State, l: Label)
    requires Shaped(cfg, s) && Shaped(cfg, t) && SameButView(s, t) && Enabled(s, l)
    ensures Enabled(t, l) && SameButView(Apply(cfg, s, l), Apply(cfg, t, l))
  {
    match l
    case Iterate => ViewIsNotReadByIterate(cfg, s, t);
    case Advance(id) => ViewIsNotReadByAdvance(cfg, s, t, id);
    case _ =>
  }

  lemma ViewIsNotReadByIterate(cfg: Config, s: State, t: State)
    requires Shaped(cfg, s) && Shaped(cfg, t) && SameButView(s, t)
    ensures SameButView(Iterated(cfg, s), Iterated(cfg, t))
  {
    var r, u := AfterResolve(cfg, s), AfterResolve(cfg, t);
    assert SameButView(r, u);
    if !ShouldContinue(s.control, s.nodes) {
      ViewIsNotReadAtTheEnd(cfg, s, t);
    } else {
      IterationIs(cfg, s);
      IterationIs(cfg, t);
      ViewIsNotReadAtTheEnd(cfg, r, u);
      ViewIsNotReadByStart(cfg, r, u);
    }
  }

  lemma ViewIsNotReadAtTheEnd(cfg: Config, s: State, t: State)
    requires SameButView(s, t)
    ensures SameButView(Finalised(cfg, s), Finalised(cfg, t))
  {
  }

  lemma ViewIsNotReadByStart(cfg: Config, s: State, t: State)
    requires SameButView(s, t)
    ensures SameButView(BatchStarted(cfg, s), BatchStarted(cfg, t))
  {
  }

  lemma ViewIsNotReadByAdvance(cfg: Config, s: State, t: State, id: Id)
    requires Shaped(cfg, s) && Shaped(cfg, t) && SameButView(s, t) && id in s.tasks
    ensures SameButView(Advanced(cfg, s, id), Advanced(cfg, t, id))
  {
  }

  lemma {:induction false} ViewIsNeverReadInRuns(cfg: Config, s: State, t: State, ls: seq<Label>)
    requires Shaped(cfg, s) && Shaped(cfg, t) && SameButView(s, t) && IsRun(cfg, s, ls)
    ensures IsRun(cfg, t, ls) && SameButView(After(cfg, s, ls), After(cfg, t, ls))
  {
    if ls != [] {
      var before := ls[..|ls| - 1];
      ViewIsNeverReadInRuns(cfg, s, t, before);
      ViewIsNeverRead(cfg, After(cfg, s, before), After(cfg, t, before), ls[|ls| - 1]);
    }
  }

  /** At a point where the loop has handed over control and the run is not paused, no node is paused or
      ready, so pausing and resuming restores every status. */
  lemma ResumeUndoesPause(cfg: Config, s: State)
    requires Inv(cfg, s) && s.control == RunRunning
    ensures SameButView(s, Controlled(cfg, Controlled(cfg, s, Pause), Resume))
  {
    forall id | id in s.nodes ensures ResumePaused(MarkPaused(s.nodes))[id] == s.nodes[id] {
      assert NodeInv(cfg, s, id);
    }
    assert ResumePaused(MarkPaused(s.nodes)) == s.nodes;
  }

  /** Pausing and the progress of a node in flight do not get in each other's way. */
  lemma PauseCommutesWithAdvance(cfg: Config, s: State, id: Id)
    requires Inv(cfg, s) && s.control == RunRunning && Enabled(s, Advance(id))
    ensures SameButView(Controlled(cfg, Advanced(cfg, s, id), Pause), Advanced(cfg, Controlled(cfg, s, Pause), id))
  {
    var t, p := Advanced(cfg, s, id), Controlled(cfg, s, Pause);
    AdvancePoint(cfg, s, id);
    ControlPoint(cfg, s, Pause, id);
    AdvanceUnderPause(cfg, s, p, id);
    PauseSkipsActive(s.nodes, id, t.nodes[id]);
  }

  lemma PauseSkipsActive(nodes: Nodes, id: Id, node: Node)
    requires id in nodes && node.status != Waiting && node.status != Ready
    ensures MarkPaused(nodes[id := node]) == MarkPaused(nodes)[id := node]
  {
  }

  /** What advancing computes does not depend on the statuses of other nodes. */
  lemma AdvanceUnderPause(cfg: Config, s: State, p: State, id: Id)
    requires Shaped(cfg, s) && Shaped(cfg, p) && id in s.tasks
    requires p == s.(control := p.control, nodes := p.nodes, view := p.view) && p.nodes[id] == s.nodes[id]
    ensures var t, q := Advanced(cfg, s, id), Advanced(cfg, p, id);
      q == t.(control := p.control, nodes := p.nodes[id := t.nodes[id]], view := p.view)
  {
  }

  predicate OnlyAdvances(ls: seq<Label>) {
    forall i :: 0 <= i < |ls| ==> ls[i].Advance?
  }

  lemma {:induction false} PausedBatchAdvances(cfg: Config, s: State, advances: seq<Label>)
    requires Inv(cfg, s) && s.control == RunRunning && (s.phase == InBatch || s.phase == Asleep)
    requires OnlyAdvances(advances) && IsRun(cfg, Controlled(cfg, s, Pause), advances)
    ensures IsRun(cfg, s, advances)
    ensures var t := After(cfg, s, advances);
      && Inv(cfg, t) && t.control == RunRunning && t.phase == s.phase
      && SameButView(Controlled(cfg, t, Pause), After(cfg, Controlled(cfg, s, Pause), advances))
  {
    var p := Controlled(cfg, s, Pause);
    if advances != [] {
      var before, l := advances[..|advances| - 1], advances[|advances| - 1];
      PausedBatchAdvances(cfg, s, before);
      var b, c := After(cfg, s, before), After(cfg, p, before);
      assert l == Advance(l.id) && Enabled(b, l);
      AdvanceKeepsInv(cfg, b, l.id);
      AdvancePoint(cfg, b, l.id);
      ViewIsNotReadByAdvance(cfg, Controlled(cfg, b, Pause), c, l.id);
      PauseCommutesWithAdvance(cfg, b, l.id);
    }
  }

  /** Pause and resume around any part of a batch, or around a sleep, are invisible: the run without them
      is possible too, and everything but the recorded lists comes out the same, for all time. */
  lemma PauseResumeIsInvisible(cfg: Config, s: State, advances: seq<Label>, rest: seq<Label>)
    requires Inv(cfg, s) && s.control == RunRunning && (s.phase == InBatch || s.phase == Asleep)
    requires OnlyAdvances(advances)
    requires IsRun(cfg, s, [Pause] + (advances + ([Resume] + rest)))
    ensures IsRun(cfg, s, advances + rest)
    ensures SameButView(After(cfg, s, advances + rest), After(cfg, s, [Pause] + (advances + ([Resume] + rest))))
  {
    RunSplit(cfg, s, [Pause], advances + ([Resume] + rest));
    FirstStep(cfg, s, Pause);
    var p := Controlled(cfg, s, Pause);
    RunSplit(cfg, p, advances, [Resume] + rest);
    var q := After(cfg, p, advances);
    RunSplit(cfg, q, [Resume], rest);
    FirstStep(cfg, q, Resume);
    PausedBatchAdvances(cfg, s, advances);
    var t := After(cfg, s, advances);
    var r := Controlled(cfg, q, Resume);
    ResumeUndoesPause(cfg, t);
    assert SameButView(t, r);
    ViewIsNeverReadInRuns(cfg, r, t, rest);
    RunJoin(cfg, s, advances, rest);
  }

  lemma FirstStep(cfg: Config, s: State, l: Label)
    requires Shaped(cfg, s) && IsRun(cfg, s, [l])
    ensures Enabled(s, l) && After(cfg, s, [l]) == Apply(cfg, s, l)
  {
    assert [l][..0] == [];
  }

  lemma {:induction false} RunJoin(cfg: Config, s: State, ls: seq<Label>, ms: seq<Label>)
    requires Shaped(cfg, s) && IsRun(cfg, s, ls) && IsRun(cfg, After(cfg, s, ls), ms)
    ensures IsRun(cfg, s, ls + ms) && After(cfg, s, ls + ms) == After(cfg, After(cfg, s, ls), ms)
    decreases |ms|
  {
    if ms == [] {
      assert ls + ms == ls;
    } else {
      var init := ms[..|ms| - 1];
      RunJoin(cfg, s, ls, init);
      assert (ls + ms)[..|ls + ms| - 1] == ls + init;
    }
  }
}
