/** The two topological sorts of the repository: `_topological_order` over the graph's node dictionary
    and `_order_steps` over a plan's step list. Both sweep the remaining items in order, over and over,
    taking every item whose dependencies have been taken, and append the rest when a sweep takes nothing. */
module Ordering {
  import opened Graphs

  predicate AllIn(deps: seq<Id>, taken: seq<Id>) {
    forall d :: d in deps ==> d in taken
  }

  /** Every id of the list has an entry in the dependency map. */
  predicate Known(deps: map<Id, seq<Id>>, ids: seq<Id>) {
    forall id :: id in ids ==> id in deps
  }

  /** What the first `i` items of a sweep over `snapshot` leave: the items taken so far, and those passed over. */
  function Sweep(deps: map<Id, seq<Id>>, snapshot: seq<Id>, i: nat, taken: seq<Id>): (seq<Id>, seq<Id>)
    requires i <= |snapshot| && Known(deps, snapshot)
  {
    if i == 0 then (taken, [])
    else
      var (t, left) := Sweep(deps, snapshot, i - 1, taken);
      if AllIn(deps[snapshot[i - 1]], t) then (t + [snapshot[i - 1]], left) else (t, left + [snapshot[i - 1]])
  }

  lemma {:induction false} SweepSplits(deps: map<Id, seq<Id>>, snapshot: seq<Id>, i: nat, taken: seq<Id>)
    requires i <= |snapshot| && Known(deps, snapshot)
    ensures var (t, left) := Sweep(deps, snapshot, i, taken);
      && |t| + |left| == |taken| + i && taken <= t
      && (|t| == |taken| ==> left == snapshot[..i])
      && (forall id :: id in left ==> id in snapshot[..i])
  {
    if 0 < i {
      SweepSplits(deps, snapshot, i - 1, taken);
      assert snapshot[..i] == snapshot[..i - 1] + [snapshot[i - 1]];
    }
  }

  lemma MultisetSnoc(s: seq<Id>, id: Id)
    ensures multiset(s + [id]) == multiset(s) + multiset{id}
  {
  }

  lemma {:induction false} SweepPermutes(deps: map<Id, seq<Id>>, snapshot: seq<Id>, i: nat, taken: seq<Id>)
    requires i <= |snapshot| && Known(deps, snapshot)
    ensures var (t, left) := Sweep(deps, snapshot, i, taken);
      multiset(t) + multiset(left) == multiset(taken) + multiset(snapshot[..i])
  {
    if 0 < i {
      SweepPermutes(deps, snapshot, i - 1, taken);
      var id := snapshot[i - 1];
      var before := Sweep(deps, snapshot, i - 1, taken);
      var after := Sweep(deps, snapshot, i, taken);
      assert snapshot[..i] == snapshot[..i - 1] + [id];
      MultisetSnoc(snapshot[..i - 1], id);
      if AllIn(deps[id], before.0) {
        assert after == (before.0 + [id], before.1);
        MultisetSnoc(before.0, id);
      } else {
        assert after == (before.0, before.1 + [id]);
        MultisetSnoc(before.1, id);
      }
      assert multiset(after.0) + multiset(after.1) == multiset(before.0) + multiset(before.1) + multiset{id};
    } else {
      assert snapshot[..i] == [];
    }
  }

  /** The whole sort from a state in which `taken` has been taken and `remaining` has not. */
  function SortFrom(deps: map<Id, seq<Id>>, remaining: seq<Id>, taken: seq<Id>): seq<Id>
    requires Known(deps, remaining)
    decreases |remaining|
  {
    if remaining == [] then taken
    else
      var (t, left) := Sweep(deps, remaining, |remaining|, taken);
      SweepSplits(deps, remaining, |remaining|, taken);
      if |t| == |taken| then taken + remaining else SortFrom(deps, left, t)
  }

  function Sorted(g: Graph): seq<Id>
    requires Known(g.deps, g.order)
  {
    SortFrom(g.deps, g.order, [])
  }

  // ---------- the loops ----------

  function Without(ids: seq<Id>, i: nat): seq<Id>
    requires i < |ids|
  {
    ids[..i] + ids[i + 1..]
  }

  /** list.remove: drops the first occurrence. */
  method Remove(ids: seq<Id>, id: Id, ghost at: nat) returns (r: seq<Id>)
    requires at < |ids| && ids[at] == id && id !in ids[..at]
    ensures r == Without(ids, at)
  {
    var i := 0;
    while ids[i] != id
      invariant i <= at
      decreases at - i
    {
      assert i < at;
      i := i + 1;
    }
    r := ids[..i] + ids[i + 1..];
  }

  /** The inner loop: one sweep over a copy of `remaining`. */
  method SweepOnce(g: Graph, snapshot: seq<Id>, taken: seq<Id>, completed: set<Id>)
    returns (ordered: seq<Id>, remaining: seq<Id>, completed': set<Id>, progress: bool)
    requires Distinct(snapshot) && Known(g.deps, snapshot)
    requires forall id :: id in completed <==> id in taken
    ensures (ordered, remaining) == Sweep(g.deps, snapshot, |snapshot|, taken)
    ensures forall id :: id in completed' <==> id in ordered
    ensures progress <==> |ordered| != |taken|
  {
    ordered, remaining, completed', progress := taken, snapshot, completed, false;
    for i := 0 to |snapshot|
      invariant Sweep(g.deps, snapshot, i, taken).0 == ordered
      invariant remaining == Sweep(g.deps, snapshot, i, taken).1 + snapshot[i..]
      invariant forall id :: id in completed' <==> id in ordered
      invariant progress <==> |ordered| != |taken|
      invariant |ordered| >= |taken|
    {
      var id := snapshot[i];
      ghost var left := Sweep(g.deps, snapshot, i, taken).1;
      RestOfSweep(left, snapshot, i);
      if AllCompleted(g.deps[id], completed') {
        assert AllIn(g.deps[id], ordered);
        SweepLeavesPrefix(g.deps, snapshot, i, taken);
        remaining := Remove(remaining, id, |left|);
        ordered := ordered + [id];
        completed' := completed' + {id};
        progress := true;
      } else {
        assert !AllIn(g.deps[id], ordered);
      }
    }
    assert snapshot[|snapshot|..] == [];
    assert remaining == Sweep(g.deps, snapshot, |snapshot|, taken).1;
  }

  predicate AllCompleted(deps: seq<Id>, completed: set<Id>) {
    forall d :: d in deps ==> d in completed
  }

  /** What the list looks like before and after its item at the sweep position is removed or passed. */
  lemma RestOfSweep(left: seq<Id>, snapshot: seq<Id>, i: nat)
    requires i < |snapshot|
    ensures var remaining := left + snapshot[i..];
      && |left| < |remaining| && remaining[|left|] == snapshot[i] && remaining[..|left|] == left
      && Without(remaining, |left|) == left + snapshot[i + 1..]
      && remaining == (left + [snapshot[i]]) + snapshot[i + 1..]
  {
  }

  method TopologicalOrder(g: Graph) returns (ordered: seq<Id>)
    requires WellFormed(g)
    ensures ordered == Sorted(g)
  {
    ordered := [];
    var remaining := g.order;
    var completed: set<Id> := {};
    while remaining != []
      invariant Distinct(remaining)
      invariant Known(g.deps, remaining)
      invariant forall id :: id in completed <==> id in ordered
      invariant SortFrom(g.deps, remaining, ordered) == Sorted(g)
      decreases |remaining|
    {
      var progress;
      SweepSplits(g.deps, remaining, |remaining|, ordered);
      SweepKeepsDistinct(g.deps, remaining, |remaining|, ordered);
      ordered, remaining, completed, progress := SweepOnce(g, remaining, ordered, completed);
      if !progress {
        ordered := ordered + remaining;
        break;
      }
    }
  }

  /** Items passed over come from the part already swept, so they differ from what is still to come. */
  lemma SweepLeavesPrefix(deps: map<Id, seq<Id>>, snapshot: seq<Id>, i: nat, taken: seq<Id>)
    requires i < |snapshot| && Distinct(snapshot) && Known(deps, snapshot)
    ensures snapshot[i] !in Sweep(deps, snapshot, i, taken).1
  {
    SweepSplits(deps, snapshot, i, taken);
  }

  lemma {:induction false} SweepKeepsDistinct(deps: map<Id, seq<Id>>, snapshot: seq<Id>, i: nat, taken: seq<Id>)
    requires i <= |snapshot| && Distinct(snapshot) && Known(deps, snapshot)
    ensures Distinct(Sweep(deps, snapshot, i, taken).1)
  {
    if 0 < i {
      SweepKeepsDistinct(deps, snapshot, i - 1, taken);
      SweepLeavesPrefix(deps, snapshot, i - 1, taken);
    }
  }

  // ---------- what the sort means ----------

  /** Every item comes after all its dependencies. */
  ghost predicate InOrder(deps: map<Id, seq<Id>>, ids: seq<Id>) {
    forall i :: 0 <= i < |ids| ==> ids[i] in deps && AllIn(deps[ids[i]], ids[..i])
  }

  /** The items of `order` not in `taken`, in their original order. */
  function Rest(order: seq<Id>, taken: seq<Id>): seq<Id> {
    if order == [] then []
    else
      var last := order[|order| - 1];
      Rest(order[..|order| - 1], taken) + if last in taken then [] else [last]
  }

  lemma {:induction false} RestMembers(order: seq<Id>, taken: seq<Id>)
    ensures forall id :: id in Rest(order, taken) <==> id in order && id !in taken
    ensures Distinct(order) ==> Distinct(Rest(order, taken))
  {
    if order != [] {
      var init := order[..|order| - 1];
      RestMembers(init, taken);
      assert order == init + [order[|order| - 1]];
    }
  }

  lemma RestSnoc(order: seq<Id>, id: Id, taken: seq<Id>)
    ensures Rest(order + [id], taken) == Rest(order, taken) + if id in taken then [] else [id]
  {
    assert (order + [id])[..|order|] == order;
  }

  lemma {:induction false} RestOfRest(order: seq<Id>, a: seq<Id>, b: seq<Id>)
    requires forall id :: id in a ==> id in b
    ensures Rest(Rest(order, a), b) == Rest(order, b)
  {
    if order != [] {
      var init, last := order[..|order| - 1], order[|order| - 1];
      RestOfRest(init, a, b);
      if last in a {
        assert Rest(order, a) == Rest(init, a);
      } else {
        RestSnoc(Rest(init, a), last, b);
      }
    }
  }

  lemma {:induction false} RestAgrees(order: seq<Id>, a: seq<Id>, b: seq<Id>)
    requires forall id :: id in order ==> (id in a <==> id in b)
    ensures Rest(order, a) == Rest(order, b)
  {
    if order != [] {
      RestAgrees(order[..|order| - 1], a, b);
      assert order[|order| - 1] in order;
    }
  }

  lemma {:induction false} NothingTaken(order: seq<Id>, taken: seq<Id>)
    requires forall id :: id in order ==> id !in taken
    ensures Rest(order, taken) == order
  {
    if order != [] {
      NothingTaken(order[..|order| - 1], taken);
      assert order == order[..|order| - 1] + [order[|order| - 1]];
      assert order[|order| - 1] in order;
    }
  }

  /** A sweep keeps the order property and takes only items of the snapshot. */
  lemma {:induction false} SweepKeepsOrder(deps: map<Id, seq<Id>>, snapshot: seq<Id>, i: nat, taken: seq<Id>)
    requires i <= |snapshot| && Known(deps, snapshot) && InOrder(deps, taken)
    ensures var t := Sweep(deps, snapshot, i, taken).0;
      && InOrder(deps, t)
      && (forall id :: id in t ==> id in taken || id in snapshot[..i])
      && (|t| == |taken| ==> t == taken && forall j :: 0 <= j < i ==> !AllIn(deps[snapshot[j]], taken))
  {
    if 0 < i {
      SweepKeepsOrder(deps, snapshot, i - 1, taken);
      SweepSplits(deps, snapshot, i - 1, taken);
      var id, t := snapshot[i - 1], Sweep(deps, snapshot, i - 1, taken).0;
      assert snapshot[..i] == snapshot[..i - 1] + [id];
      if AllIn(deps[id], t) {
        OneMoreInOrder(deps, t, id);
      }
    }
  }

  /** What a sweep over fresh items passes over is what it did not take, in place. */
  lemma {:induction false} SweepLeavesRest(deps: map<Id, seq<Id>>, snapshot: seq<Id>, i: nat, taken: seq<Id>)
    requires i <= |snapshot| && Known(deps, snapshot) && Distinct(snapshot) && InOrder(deps, taken)
    requires forall id :: id in snapshot ==> id !in taken
    ensures Sweep(deps, snapshot, i, taken).1 == Rest(snapshot[..i], Sweep(deps, snapshot, i, taken).0)
  {
    if 0 < i {
      SweepLeavesRest(deps, snapshot, i - 1, taken);
      SweepKeepsOrder(deps, snapshot, i - 1, taken);
      var id, t := snapshot[i - 1], Sweep(deps, snapshot, i - 1, taken).0;
      assert snapshot[..i] == snapshot[..i - 1] + [id];
      assert id in snapshot && id !in snapshot[..i - 1];
      RestSnoc(snapshot[..i - 1], id, Sweep(deps, snapshot, i, taken).0);
      RestAgrees(snapshot[..i - 1], t, t + [id]);
    }
  }

  lemma OneMoreInOrder(deps: map<Id, seq<Id>>, t: seq<Id>, id: Id)
    requires InOrder(deps, t) && id in deps && AllIn(deps[id], t)
    ensures InOrder(deps, t + [id])
  {
    forall i | 0 <= i < |t + [id]| ensures (t + [id])[i] in deps && AllIn(deps[(t + [id])[i]], (t + [id])[..i]) {
      if i < |t| {
        assert (t + [id])[..i] == t[..i];
      } else {
        assert (t + [id])[..i] == t;
      }
    }
  }

  /** What can be listed after its dependencies is grounded. */
  lemma {:induction false} ListedIsGrounded(g: Graph, ids: seq<Id>, i: nat)
    requires InOrder(g.deps, ids) && i < |ids|
    ensures Grounded(g, ids[i])
  {
    forall d | d in g.deps[ids[i]] ensures Grounded(g, d) {
      var j :| 0 <= j < i && ids[..i][j] == d;
      ListedIsGrounded(g, ids, j);
    }
    GroundedFromDeps(g, ids[i]);
  }

  /** When nothing more can be taken, nothing that remains is grounded. */
  lemma {:induction false} StuckIsUngrounded(g: Graph, taken: seq<Id>, remaining: seq<Id>, id: Id)
    requires forall x :: x in g.deps ==> x in taken || x in remaining
    requires forall x :: x in remaining ==> x in g.deps && !AllIn(g.deps[x], taken)
    requires id in remaining && Grounded(g, id)
    ensures false
    decreases Depth(g, id)
  {
    var d :| d in g.deps[id] && d !in taken;
    DependencyIsShallower(g, id, d);
    GroundedIsNode(g, d);
    StuckIsUngrounded(g, taken, remaining, d);
  }

  /** `ids` splits at `k` into the grounded nodes, dependencies first, and the others in original order. */
  ghost predicate SplitsAt(g: Graph, ids: seq<Id>, k: nat) {
    && k <= |ids|
    && InOrder(g.deps, ids[..k])
    && (forall id :: id in ids[..k] <==> Grounded(g, id))
    && ids[k..] == Rest(g.order, ids[..k])
  }

  lemma {:induction false} SortFromSplits(g: Graph, remaining: seq<Id>, taken: seq<Id>) returns (k: nat)
    requires WellFormed(g) && Known(g.deps, remaining)
    requires InOrder(g.deps, taken) && remaining == Rest(g.order, taken)
    requires multiset(taken) + multiset(remaining) == multiset(g.order)
    ensures SplitsAt(g, SortFrom(g.deps, remaining, taken), k)
    ensures multiset(SortFrom(g.deps, remaining, taken)) == multiset(g.order)
    decreases |remaining|
  {
    RestMembers(g.order, taken);
    var (t, left) := Sweep(g.deps, remaining, |remaining|, taken);
    if remaining == [] || |t| == |taken| {
      k := |taken|;
      StuckSplits(g, remaining, taken);
    } else {
      SweepAdvances(g, remaining, taken);
      k := SortFromSplits(g, left, t);
    }
  }

  /** With nothing left, or nothing taken by a whole sweep, the sort is where it splits. */
  lemma StuckSplits(g: Graph, remaining: seq<Id>, taken: seq<Id>)
    requires WellFormed(g) && Known(g.deps, remaining)
    requires InOrder(g.deps, taken) && remaining == Rest(g.order, taken)
    requires remaining == [] || |Sweep(g.deps, remaining, |remaining|, taken).0| == |taken|
    ensures SortFrom(g.deps, remaining, taken) == taken + remaining && SplitsAt(g, taken + remaining, |taken|)
  {
    RestMembers(g.order, taken);
    assert remaining[..|remaining|] == remaining;
    SweepKeepsOrder(g.deps, remaining, |remaining|, taken);
    TakenIsGrounded(g, remaining, taken);
    var ids := taken + remaining;
    assert ids[..|taken|] == taken && ids[|taken|..] == remaining;
  }

  /** A sweep that takes something leaves the sort in a state like the one before it. */
  lemma SweepAdvances(g: Graph, remaining: seq<Id>, taken: seq<Id>)
    requires WellFormed(g) && Known(g.deps, remaining)
    requires InOrder(g.deps, taken) && remaining == Rest(g.order, taken)
    requires remaining != [] && |Sweep(g.deps, remaining, |remaining|, taken).0| != |taken|
    ensures var (t, left) := Sweep(g.deps, remaining, |remaining|, taken);
      && Known(g.deps, left) && InOrder(g.deps, t) && left == Rest(g.order, t) && |left| < |remaining|
      && SortFrom(g.deps, remaining, taken) == SortFrom(g.deps, left, t)
      && multiset(t) + multiset(left) == multiset(taken) + multiset(remaining)
  {
    var n := |remaining|;
    var (t, left) := Sweep(g.deps, remaining, n, taken);
    RestMembers(g.order, taken);
    assert remaining[..n] == remaining;
    SweepSplits(g.deps, remaining, n, taken);
    SweepKeepsOrder(g.deps, remaining, n, taken);
    SweepLeavesRest(g.deps, remaining, n, taken);
    SweepPermutes(g.deps, remaining, n, taken);
    RestOfRest(g.order, taken, t);
  }

  lemma TakenIsGrounded(g: Graph, remaining: seq<Id>, taken: seq<Id>)
    requires WellFormed(g) && InOrder(g.deps, taken)
    requires forall id :: id in remaining <==> id in g.order && id !in taken
    requires forall id :: id in remaining ==> !AllIn(g.deps[id], taken)
    ensures forall id :: id in taken <==> Grounded(g, id)
  {
    forall i | 0 <= i < |taken| ensures Grounded(g, taken[i]) {
      ListedIsGrounded(g, taken, i);
    }
    forall id | Grounded(g, id) ensures id in taken {
      GroundedIsNode(g, id);
      if id !in taken {
        StuckIsUngrounded(g, taken, remaining, id);
      }
    }
  }

  /** The sort is a permutation of its input; it lists exactly the grounded nodes first, each after all its
      dependencies, and then the unresolvable ones in their original order. */
  lemma SortedIsTopological(g: Graph) returns (k: nat)
    requires WellFormed(g)
    ensures SplitsAt(g, Sorted(g), k)
    ensures multiset(Sorted(g)) == multiset(g.order) && |Sorted(g)| == |g.order|
  {
    NothingTaken(g.order, []);
    k := SortFromSplits(g, g.order, []);
    assert |multiset(Sorted(g))| == |multiset(g.order)|;
  }

  lemma SortedIsKnown(g: Graph)
    requires WellFormed(g)
    ensures Known(g.deps, Sorted(g)) && |Sorted(g)| == |g.order|
    ensures forall id :: id in Sorted(g) <==> id in g.deps
  {
    var k := SortedIsTopological(g);
    forall id ensures id in Sorted(g) <==> id in g.order {
      assert id in multiset(Sorted(g)) <==> id in multiset(g.order);
    }
  }

  lemma SortedIsDistinct(g: Graph)
    requires WellFormed(g)
    ensures Distinct(Sorted(g))
  {
    var k := SortedIsTopological(g);
    var s := Sorted(g);
    forall i, j | 0 <= i < j < |s| ensures s[i] != s[j] {
      if s[i] == s[j] {
        CountsTwice(s, i, j);
        CountsOnce(g.order, s[i]);
      }
    }
  }

  lemma CountsTwice(s: seq<Id>, i: nat, j: nat)
    requires i < j < |s| && s[i] == s[j]
    ensures 2 <= multiset(s)[s[i]]
  {
    var a, b := s[..j], s[j..];
    assert s == a + b && a[i] == s[i] && b[0] == s[j];
    assert s[i] in a && s[j] in b;
  }

  lemma {:induction false} CountsOnce(s: seq<Id>, id: Id)
    requires Distinct(s)
    ensures multiset(s)[id] <= 1
  {
    if s != [] {
      var init, last := s[..|s| - 1], s[|s| - 1];
      CountsOnce(init, id);
      assert s == init + [last];
      if id == last {
        assert id !in init;
      }
    }
  }
}
