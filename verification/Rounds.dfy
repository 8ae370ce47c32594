/** The order the sorts produce: grounded nodes by round, and within a round as they were listed. The round of
    a node counts how often, along its dependencies, one has to wait for a node listed later. */
module Rounds {
  import opened Graphs
  import opened Ordering

  function Position(order: seq<Id>, id: Id): (i: nat)
    requires id in order
    ensures i < |order| && order[i] == id
  {
    if order[|order| - 1] == id then |order| - 1 else Position(order[..|order| - 1], id)
  }

  /** `d` is listed after `id`, so `id` has to wait for the next round. */
  predicate ListedAfter(g: Graph, d: Id, id: Id) {
    d in g.order && id in g.order && Position(g.order, id) < Position(g.order, d)
  }

  /** The larger of 1 and, over the dependencies, their rounds, plus one for those listed after the node. */
  ghost function Round(g: Graph, id: Id): (r: nat)
    requires Grounded(g, id)
    ensures 1 <= r
    decreases Depth(g, id), 1, 0
  {
    GroundedIsNode(g, id);
    RoundFrom(g, id, |g.deps[id]|)
  }

  ghost function RoundFrom(g: Graph, id: Id, k: nat): (r: nat)
    requires Grounded(g, id) && id in g.deps && k <= |g.deps[id]|
    ensures 1 <= r
    decreases Depth(g, id), 0, k
  {
    if k == 0 then 1
    else
      DepsAreShallower(g, id);
      var d := g.deps[id][k - 1];
      var earlier, after := RoundFrom(g, id, k - 1), Round(g, d) + if ListedAfter(g, d, id) then 1 else 0;
      if earlier < after then after else earlier
  }

  /** `d` leaves its dependent `id` in round `n` at the latest. */
  ghost predicate Allows(g: Graph, id: Id, d: Id, n: nat) {
    Grounded(g, d) && Round(g, d) + (if ListedAfter(g, d, id) then 1 else 0) <= n
  }

  lemma RoundFromOneMore(g: Graph, id: Id, k: nat, n: nat)
    requires Grounded(g, id) && id in g.deps && 0 < k <= |g.deps[id]|
    ensures RoundFrom(g, id, k) <= n <==> RoundFrom(g, id, k - 1) <= n && Allows(g, id, g.deps[id][k - 1], n)
  {
    DepsAreShallower(g, id);
  }

  lemma {:induction false} RoundFromAtMost(g: Graph, id: Id, k: nat, n: nat)
    requires Grounded(g, id) && id in g.deps && k <= |g.deps[id]|
    ensures RoundFrom(g, id, k) <= n <==> 1 <= n && forall i :: 0 <= i < k ==> Allows(g, id, g.deps[id][i], n)
  {
    if 0 < k {
      RoundFromAtMost(g, id, k - 1, n);
      RoundFromOneMore(g, id, k, n);
    }
  }

  /** A node is in round `n` at the latest if and only if each dependency is, and those listed after it are in
      an earlier one. */
  lemma RoundAtMost(g: Graph, id: Id, n: nat)
    requires Grounded(g, id) && id in g.deps
    ensures Round(g, id) <= n <==> 1 <= n && forall d :: d in g.deps[id] ==> Allows(g, id, d, n)
  {
    RoundFromAtMost(g, id, |g.deps[id]|, n);
  }

  // ---------- positions ----------

  lemma {:induction false} PositionAt(order: seq<Id>, i: nat)
    requires Distinct(order) && i < |order|
    ensures Position(order, order[i]) == i
  {
  }

  lemma {:induction false} RestAscends(order: seq<Id>, taken: seq<Id>, a: nat, b: nat)
    requires Distinct(order) && a < b < |Rest(order, taken)|
    ensures Rest(order, taken)[a] in order && Rest(order, taken)[b] in order
    ensures Position(order, Rest(order, taken)[a]) < Position(order, Rest(order, taken)[b])
  {
    var init, last := order[..|order| - 1], order[|order| - 1];
    var rest := Rest(init, taken);
    RestMembers(init, taken);
    assert order == init + [last];
    if b < |rest| {
      RestAscends(init, taken, a, b);
      PositionInPrefix(order, rest[a]);
      PositionInPrefix(order, rest[b]);
    } else {
      assert rest[a] in rest;
      PositionInPrefix(order, rest[a]);
    }
  }

  lemma PositionInPrefix(order: seq<Id>, id: Id)
    requires Distinct(order) && order != [] && id in order[..|order| - 1]
    ensures id in order && Position(order, id) == Position(order[..|order| - 1], id) < |order| - 1
  {
    var i :| 0 <= i < |order| - 1 && order[..|order| - 1][i] == id;
    assert order[i] == id;
  }

  // ---------- one sweep is one round ----------

  ghost predicate InRound(g: Graph, id: Id, m: nat) {
    Grounded(g, id) && Round(g, id) == m
  }

  /** The nodes of `ids` in round `m`, as they are listed. */
  ghost function OfRound(g: Graph, ids: seq<Id>, m: nat): seq<Id> {
    if ids == [] then []
    else
      var earlier, last := OfRound(g, ids[..|ids| - 1], m), ids[|ids| - 1];
      if InRound(g, last, m) then earlier + [last] else earlier
  }

  lemma {:induction false} OfRoundMembers(g: Graph, ids: seq<Id>, m: nat)
    ensures forall id :: id in OfRound(g, ids, m) <==> id in ids && InRound(g, id, m)
  {
    if ids != [] {
      OfRoundMembers(g, ids[..|ids| - 1], m);
      assert ids == ids[..|ids| - 1] + [ids[|ids| - 1]];
    }
  }

  lemma OfRoundSnoc(g: Graph, ids: seq<Id>, id: Id, m: nat)
    ensures OfRound(g, ids + [id], m) == if InRound(g, id, m) then OfRound(g, ids, m) + [id] else OfRound(g, ids, m)
  {
    assert (ids + [id])[..|ids|] == ids;
  }

  lemma {:induction false} OfRoundOfRest(g: Graph, order: seq<Id>, taken: seq<Id>, m: nat)
    requires forall id :: id in taken ==> !InRound(g, id, m)
    ensures OfRound(g, Rest(order, taken), m) == OfRound(g, order, m)
  {
    if order != [] {
      var init, last := order[..|order| - 1], order[|order| - 1];
      OfRoundOfRest(g, init, taken, m);
      if last !in taken {
        OfRoundSnoc(g, Rest(init, taken), last, m);
      } else {
        assert Rest(order, taken) == Rest(init, taken);
      }
    }
  }

  /** `taken` holds the nodes of the first `m` rounds. */
  ghost predicate TakenThrough(g: Graph, taken: seq<Id>, m: nat) {
    forall id :: id in taken <==> Grounded(g, id) && Round(g, id) <= m
  }

  /** When the sweep gets to an item, it takes it if and only if the item is in the round of the sweep. */
  lemma SweepDecides(g: Graph, snapshot: seq<Id>, i: nat, taken: seq<Id>, m: nat)
    requires WellFormed(g) && snapshot == Rest(g.order, taken) && TakenThrough(g, taken, m)
    requires i < |snapshot| && snapshot[i] in g.deps
    ensures AllIn(g.deps[snapshot[i]], taken + OfRound(g, snapshot[..i], m + 1)) <==> InRound(g, snapshot[i], m + 1)
  {
    var id, t := snapshot[i], taken + OfRound(g, snapshot[..i], m + 1);
    OfRoundMembers(g, snapshot[..i], m + 1);
    RestMembers(g.order, taken);
    assert id in snapshot;
    if InRound(g, id, m + 1) {
      RoundAtMost(g, id, m + 1);
      forall d | d in g.deps[id] ensures d in t {
        DependencyIsThere(g, snapshot, i, taken, m, d);
      }
    }
    if AllIn(g.deps[id], t) {
      forall d | d in g.deps[id] ensures Allows(g, id, d, m + 1) {
        TakenIsEarlier(g, snapshot, i, taken, m, d);
      }
      GroundedFromDeps(g, id);
      RoundAtMost(g, id, m + 1);
    }
  }

  lemma DependencyIsThere(g: Graph, snapshot: seq<Id>, i: nat, taken: seq<Id>, m: nat, d: Id)
    requires WellFormed(g) && snapshot == Rest(g.order, taken) && TakenThrough(g, taken, m)
    requires i < |snapshot| && snapshot[i] in g.deps && InRound(g, snapshot[i], m + 1) && d in g.deps[snapshot[i]]
    requires Allows(g, snapshot[i], d, m + 1)
    ensures d in taken || (d in snapshot[..i] && InRound(g, d, m + 1))
  {
    RestMembers(g.order, taken);
    GroundedIsNode(g, d);
    DependencyIsShallower(g, snapshot[i], d);
    if d !in taken {
      var b :| 0 <= b < |snapshot| && snapshot[b] == d;
      ListedBefore(g.order, taken, b, i);
      assert snapshot[..i][b] == d;
    }
  }

  lemma ListedBefore(order: seq<Id>, taken: seq<Id>, b: nat, i: nat)
    requires Distinct(order) && b < |Rest(order, taken)| && i < |Rest(order, taken)|
    requires Rest(order, taken)[b] != Rest(order, taken)[i]
    requires Rest(order, taken)[b] in order && Rest(order, taken)[i] in order
    requires Position(order, Rest(order, taken)[b]) <= Position(order, Rest(order, taken)[i])
    ensures b < i
  {
    if i < b { RestAscends(order, taken, i, b); }
  }

  lemma TakenIsEarlier(g: Graph, snapshot: seq<Id>, i: nat, taken: seq<Id>, m: nat, d: Id)
    requires WellFormed(g) && snapshot == Rest(g.order, taken) && TakenThrough(g, taken, m)
    requires i < |snapshot| && (d in taken || (d in snapshot[..i] && InRound(g, d, m + 1)))
    ensures Allows(g, snapshot[i], d, m + 1)
  {
    if d !in taken {
      var b :| 0 <= b < i && snapshot[..i][b] == d;
      RestAscends(g.order, taken, b, i);
    }
  }

  lemma {:induction false} SweepTakesRound(g: Graph, snapshot: seq<Id>, i: nat, taken: seq<Id>, m: nat)
    requires WellFormed(g) && snapshot == Rest(g.order, taken) && TakenThrough(g, taken, m)
    requires i <= |snapshot| && Known(g.deps, snapshot)
    ensures Sweep(g.deps, snapshot, i, taken).0 == taken + OfRound(g, snapshot[..i], m + 1)
  {
    if 0 < i {
      SweepTakesRound(g, snapshot, i - 1, taken, m);
      SweepDecides(g, snapshot, i - 1, taken, m);
      OfRoundSnoc(g, snapshot[..i - 1], snapshot[i - 1], m + 1);
      assert snapshot[..i] == snapshot[..i - 1] + [snapshot[i - 1]];
    }
  }

  // ---------- the whole sort ----------

  /** The nodes of the first `n` rounds, round by round. */
  ghost function ByRounds(g: Graph, n: nat): seq<Id> {
    if n == 0 then [] else ByRounds(g, n - 1) + OfRound(g, g.order, n)
  }

  lemma {:induction false} ByRoundsMembers(g: Graph, n: nat)
    requires WellFormed(g)
    ensures TakenThrough(g, ByRounds(g, n), n)
  {
    if 0 < n {
      ByRoundsMembers(g, n - 1);
      OfRoundMembers(g, g.order, n);
      forall id | Grounded(g, id) ensures id in g.order { GroundedIsNode(g, id); }
    }
  }

  lemma {:induction false} SortGoesByRounds(g: Graph, remaining: seq<Id>, m: nat) returns (n: nat)
    requires WellFormed(g) && Known(g.deps, remaining)
    requires InOrder(g.deps, ByRounds(g, m)) && remaining == Rest(g.order, ByRounds(g, m))
    ensures SortFrom(g.deps, remaining, ByRounds(g, m)) == ByRounds(g, n) + Rest(g.order, ByRounds(g, n))
    ensures SplitsAt(g, ByRounds(g, n) + Rest(g.order, ByRounds(g, n)), |ByRounds(g, n)|)
    decreases |remaining|
  {
    var taken := ByRounds(g, m);
    var (t, left) := Sweep(g.deps, remaining, |remaining|, taken);
    if remaining == [] || |t| == |taken| {
      n := m;
      StuckSplits(g, remaining, taken);
    } else {
      SweepAdvances(g, remaining, taken);
      NextRound(g, remaining, m);
      n := SortGoesByRounds(g, left, m + 1);
    }
  }

  lemma NextRound(g: Graph, remaining: seq<Id>, m: nat)
    requires WellFormed(g) && Known(g.deps, remaining) && remaining == Rest(g.order, ByRounds(g, m))
    ensures Sweep(g.deps, remaining, |remaining|, ByRounds(g, m)).0 == ByRounds(g, m + 1)
  {
    ByRoundsMembers(g, m);
    SweepTakesRound(g, remaining, |remaining|, ByRounds(g, m), m);
    assert remaining[..|remaining|] == remaining;
    OfRoundOfRest(g, g.order, ByRounds(g, m), m + 1);
  }

  /** `a` comes before `b`: in an earlier round, or in the same and listed before. */
  ghost predicate Precedes(g: Graph, a: Id, b: Id) {
    && Grounded(g, a) && Grounded(g, b) && a in g.order && b in g.order
    && (Round(g, a) < Round(g, b) || (Round(g, a) == Round(g, b) && Position(g.order, a) < Position(g.order, b)))
  }

  lemma {:induction false} OfRoundAscends(g: Graph, ids: seq<Id>, m: nat, a: nat, b: nat)
    requires Distinct(ids) && a < b < |OfRound(g, ids, m)|
    ensures OfRound(g, ids, m)[a] in ids && OfRound(g, ids, m)[b] in ids
    ensures Position(ids, OfRound(g, ids, m)[a]) < Position(ids, OfRound(g, ids, m)[b])
  {
    var init := ids[..|ids| - 1];
    var earlier := OfRound(g, init, m);
    OfRoundMembers(g, init, m);
    assert ids == init + [ids[|ids| - 1]];
    assert earlier[a] in earlier;
    PositionInPrefix(ids, earlier[a]);
    if b < |earlier| {
      OfRoundAscends(g, init, m, a, b);
      assert earlier[b] in earlier;
      PositionInPrefix(ids, earlier[b]);
    }
  }

  lemma EarlierRoundPrecedes(g: Graph, n: nat, a: Id, b: Id)
    requires WellFormed(g) && a in ByRounds(g, n) && b in OfRound(g, g.order, n + 1)
    ensures Precedes(g, a, b)
  {
    ByRoundsMembers(g, n);
    OfRoundMembers(g, g.order, n + 1);
    GroundedIsNode(g, a);
  }

  lemma SameRoundPrecedes(g: Graph, n: nat, i: nat, j: nat)
    requires WellFormed(g) && i < j < |OfRound(g, g.order, n)|
    ensures Precedes(g, OfRound(g, g.order, n)[i], OfRound(g, g.order, n)[j])
  {
    var now := OfRound(g, g.order, n);
    OfRoundMembers(g, g.order, n);
    OfRoundAscends(g, g.order, n, i, j);
    assert now[i] in now && now[j] in now;
  }

  lemma {:induction false} ByRoundsAscends(g: Graph, n: nat, i: nat, j: nat)
    requires WellFormed(g) && i < j < |ByRounds(g, n)|
    ensures Precedes(g, ByRounds(g, n)[i], ByRounds(g, n)[j])
  {
    var before, now := ByRounds(g, n - 1), OfRound(g, g.order, n);
    assert ByRounds(g, n) == before + now;
    if j < |before| {
      ByRoundsAscends(g, n - 1, i, j);
    } else if i < |before| {
      EarlierRoundPrecedes(g, n - 1, before[i], now[j - |before|]);
    } else {
      SameRoundPrecedes(g, n, i - |before|, j - |before|);
    }
  }

  /** The order of the result, exactly: the grounded nodes, each before every node of a later round and before
      every node of its own round listed after it; then the others as listed. */
  lemma SortedByRounds(g: Graph) returns (k: nat)
    requires WellFormed(g)
    ensures SplitsAt(g, Sorted(g), k)
    ensures forall i, j :: 0 <= i < j < k ==> Precedes(g, Sorted(g)[i], Sorted(g)[j])
  {
    NothingTaken(g.order, []);
    var n := SortGoesByRounds(g, g.order, 0);
    k := |ByRounds(g, n)|;
    forall i, j | 0 <= i < j < k ensures Precedes(g, Sorted(g)[i], Sorted(g)[j]) {
      ByRoundsAscends(g, n, i, j);
    }
  }

  lemma {:induction false} SweepTakesAll(deps: map<Id, seq<Id>>, order: seq<Id>, i: nat)
    requires InOrder(deps, order) && Known(deps, order) && i <= |order|
    ensures Sweep(deps, order, i, []) == (order[..i], [])
  {
    if 0 < i {
      SweepTakesAll(deps, order, i - 1);
      assert order[..i] == order[..i - 1] + [order[i - 1]];
    }
  }

  /** A list already in order is left as it is. */
  lemma SortedKeepsOrder(g: Graph)
    requires WellFormed(g) && InOrder(g.deps, g.order)
    ensures Sorted(g) == g.order
  {
    SweepTakesAll(g.deps, g.order, |g.order|);
    OneSweepIsEnough(g.deps, g.order);
  }

  lemma OneSweepIsEnough(deps: map<Id, seq<Id>>, order: seq<Id>)
    requires Known(deps, order) && Sweep(deps, order, |order|, []) == (order[..|order|], [])
    ensures SortFrom(deps, order, []) == order
  {
    assert order[..|order|] == order;
    if order != [] {
      var (t, left) := Sweep(deps, order, |order|, []);
      assert t == order && left == [];
      assert SortFrom(deps, left, t) == t;
    }
  }
}
