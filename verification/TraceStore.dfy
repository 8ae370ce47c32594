/** The bounded in-memory trace store: eviction after every save against the newest traces of the full
    history. */
module TraceStore {

  datatype TraceStatus = TraceStarted | TraceRunning | TraceCompleted | TraceFailed | TraceCancelled

  datatype Trace = Trace(id: string, startedAt: int, status: TraceStatus)

  predicate DistinctIds(ts: seq<Trace>) {
    forall i, j :: 0 <= i < j < |ts| ==> ts[i].id != ts[j].id
  }

  // ---------- retention policy ----------

  /** Inserts after every trace that did not start later: a stable sort, item by item. */
  function InsertStable(sorted: seq<Trace>, t: Trace): seq<Trace> {
    if sorted == [] || sorted[|sorted| - 1].startedAt <= t.startedAt then sorted + [t]
    else InsertStable(sorted[..|sorted| - 1], t) + [sorted[|sorted| - 1]]
  }

  /** `sorted(traces, key=started_at)` */
  function SortedByStart(ts: seq<Trace>): seq<Trace> {
    if ts == [] then [] else InsertStable(SortedByStart(ts[..|ts| - 1]), ts[|ts| - 1])
  }

  lemma {:induction false} InsertGrows(sorted: seq<Trace>, t: Trace)
    ensures multiset(InsertStable(sorted, t)) == multiset(sorted) + multiset{t}
    ensures |InsertStable(sorted, t)| == |sorted| + 1
  {
    if sorted != [] && sorted[|sorted| - 1].startedAt > t.startedAt {
      InsertGrows(sorted[..|sorted| - 1], t);
      assert sorted == sorted[..|sorted| - 1] + [sorted[|sorted| - 1]];
    }
  }

  lemma {:induction false} SortPermutes(ts: seq<Trace>)
    ensures multiset(SortedByStart(ts)) == multiset(ts) && |SortedByStart(ts)| == |ts|
  {
    if ts != [] {
      SortPermutes(ts[..|ts| - 1]);
      InsertGrows(SortedByStart(ts[..|ts| - 1]), ts[|ts| - 1]);
      assert ts == ts[..|ts| - 1] + [ts[|ts| - 1]];
    }
  }

  function SelectEvictionIds(ts: seq<Trace>, overflow: int): seq<string> {
    if overflow <= 0 then []
    else
      var ordered := SortedByStart(ts);
      Ids(if overflow <= |ordered| then ordered[..overflow] else ordered)
  }

  function Ids(ts: seq<Trace>): seq<string> {
    if ts == [] then [] else Ids(ts[..|ts| - 1]) + [ts[|ts| - 1].id]
  }

  // ---------- the dictionary of traces ----------

  function Without(ts: seq<Trace>, id: string): seq<Trace> {
    if ts == [] then []
    else
      var rest := Without(ts[..|ts| - 1], id);
      if ts[|ts| - 1].id == id then rest else rest + [ts[|ts| - 1]]
  }

  function WithoutAll(ts: seq<Trace>, ids: seq<string>): seq<Trace> {
    if ids == [] then ts else Without(WithoutAll(ts, ids[..|ids| - 1]), ids[|ids| - 1])
  }

  /** `self._traces[trace.trace_id] = trace`: an existing entry keeps its place. */
  function Put(ts: seq<Trace>, t: Trace): seq<Trace> {
    if ts == [] then [t]
    else
      var last := ts[|ts| - 1];
      if last.id == t.id then ts[..|ts| - 1] + [t]
      else if exists i :: 0 <= i < |ts| - 1 && ts[i].id == t.id then Put(ts[..|ts| - 1], t) + [last]
      else ts + [t]
  }

  function Retained(max: nat, ts: seq<Trace>): seq<Trace> {
    WithoutAll(ts, SelectEvictionIds(ts, |ts| - max))
  }

  /** The store after one `save_trace`. */
  function Saved(max: nat, ts: seq<Trace>, t: Trace): seq<Trace> {
    Retained(max, Put(ts, t))
  }

  /** The places of the traces with a status in `keep`. */
  function PlacesOf(ts: seq<Trace>, keep: set<TraceStatus>): set<int> {
    set i | 0 <= i < |ts| && ts[i].status in keep
  }

  lemma ActiveOrDone(s: TraceStatus)
    ensures s in {TraceStarted, TraceRunning} <==> s !in {TraceCompleted, TraceFailed, TraceCancelled}
  {
    match s
    case TraceStarted =>
    case TraceRunning =>
    case TraceCompleted =>
    case TraceFailed =>
    case TraceCancelled =>
  }

  lemma PlacesOfOneMore(ts: seq<Trace>, i: nat, keep: set<TraceStatus>)
    requires i < |ts|
    ensures |PlacesOf(ts[..i + 1], keep)| == |PlacesOf(ts[..i], keep)| + if ts[i].status in keep then 1 else 0
  {
    assert i !in PlacesOf(ts[..i], keep);
    assert PlacesOf(ts[..i + 1], keep) ==
      if ts[i].status in keep then PlacesOf(ts[..i], keep) + {i} else PlacesOf(ts[..i], keep);
  }

  class InMemoryProvider {
    const maxTraces: nat
    var traces: seq<Trace>
    var executionCount: nat
    var failedCount: nat

    constructor (maxTraces: nat)
      requires 1 <= maxTraces
      ensures this.maxTraces == maxTraces && traces == [] && executionCount == failedCount == 0
    {
      this.maxTraces, traces, executionCount, failedCount := maxTraces, [], 0, 0;
    }

    method SaveTrace(t: Trace)
      modifies this`traces
      ensures traces == Saved(maxTraces, old(traces), t)
    {
      traces := Put(traces, t);
      EnforceRetention();
    }

    method EnforceRetention()
      modifies this`traces
      ensures traces == Retained(maxTraces, old(traces))
    {
      var overflow := |traces| - maxTraces;
      if overflow <= 0 {
        return;
      }
      var ids := SelectEvictionIds(traces, overflow);
      for i := 0 to |ids|
        invariant traces == WithoutAll(old(traces), ids[..i])
      {
        assert ids[..i + 1][..i] == ids[..i];
        traces := Without(traces, ids[i]);
      }
      assert ids[..|ids|] == ids;
    }

    /** The two counts partition the store. */
    method GetMetrics() returns (active: nat, completed: nat)
      ensures active == |PlacesOf(traces, {TraceStarted, TraceRunning})|
      ensures completed == |PlacesOf(traces, {TraceCompleted, TraceFailed, TraceCancelled})|
      ensures active + completed == |traces|
    {
      assert PlacesOf(traces[..0], {TraceStarted, TraceRunning}) == {};
      assert PlacesOf(traces[..0], {TraceCompleted, TraceFailed, TraceCancelled}) == {};
      active, completed := 0, 0;
      for i := 0 to |traces|
        invariant active == |PlacesOf(traces[..i], {TraceStarted, TraceRunning})|
        invariant completed == |PlacesOf(traces[..i], {TraceCompleted, TraceFailed, TraceCancelled})|
        invariant active + completed == i
      {
        ActiveOrDone(traces[i].status);
        PlacesOfOneMore(traces, i, {TraceStarted, TraceRunning});
        PlacesOfOneMore(traces, i, {TraceCompleted, TraceFailed, TraceCancelled});
        if traces[i].status in {TraceCompleted, TraceFailed, TraceCancelled} {
          completed := completed + 1;
        }
        if traces[i].status in {TraceStarted, TraceRunning} {
          active := active + 1;
        }
      }
      assert traces[..|traces|] == traces;
    }

    method RecordExecution(failed: bool)
      requires failedCount <= executionCount
      modifies this`executionCount, this`failedCount
      ensures failedCount <= executionCount == old(executionCount) + 1
      ensures failedCount == old(failedCount) + if failed then 1 else 0
    {
      executionCount := executionCount + 1;
      if failed {
        failedCount := failedCount + 1;
      }
    }
  }

  // ---------- eviction of one trace ----------

  /** The place of the earliest started trace, the first one of several. */
  function Oldest(ts: seq<Trace>): (k: nat)
    requires ts != []
    ensures k < |ts|
    ensures forall i :: 0 <= i < |ts| ==> ts[k].startedAt <= ts[i].startedAt
    ensures forall i :: 0 <= i < k ==> ts[k].startedAt < ts[i].startedAt
  {
    if |ts| == 1 then 0
    else
      var k := Oldest(ts[..|ts| - 1]);
      if ts[|ts| - 1].startedAt < ts[k].startedAt then |ts| - 1 else k
  }

  lemma {:induction false} InsertHead(sorted: seq<Trace>, t: Trace)
    requires forall i, j :: 0 <= i <= j < |sorted| ==> sorted[i].startedAt <= sorted[j].startedAt
    ensures var r := InsertStable(sorted, t);
      && r != []
      && r[0] == (if sorted == [] || t.startedAt < sorted[0].startedAt then t else sorted[0])
      && (forall i, j :: 0 <= i <= j < |r| ==> r[i].startedAt <= r[j].startedAt)
      && (sorted != [] ==> r[|r| - 1].startedAt == t.startedAt || r[|r| - 1] == sorted[|sorted| - 1])
  {
    if sorted != [] && sorted[|sorted| - 1].startedAt > t.startedAt {
      InsertHead(sorted[..|sorted| - 1], t);
    }
  }

  lemma {:induction false} SortedHead(ts: seq<Trace>)
    requires ts != []
    ensures SortedByStart(ts) != [] && SortedByStart(ts)[0] == ts[Oldest(ts)]
    ensures forall i, j :: 0 <= i <= j < |SortedByStart(ts)| ==>
      SortedByStart(ts)[i].startedAt <= SortedByStart(ts)[j].startedAt
  {
    if |ts| == 1 {
      assert ts[..0] == [];
      InsertHead([], ts[0]);
    } else {
      SortedHead(ts[..|ts| - 1]);
      InsertHead(SortedByStart(ts[..|ts| - 1]), ts[|ts| - 1]);
    }
  }

  /** What the policy selects, for any overflow: the ids of the first traces of the list sorted by start. */
  lemma EvictionSelectsOldest(ts: seq<Trace>, overflow: int) returns (sorted: seq<Trace>)
    ensures multiset(sorted) == multiset(ts)
    ensures forall i, j :: 0 <= i <= j < |sorted| ==> sorted[i].startedAt <= sorted[j].startedAt
    ensures var ids := SelectEvictionIds(ts, overflow);
      && |ids| == (if overflow <= 0 then 0 else if overflow <= |ts| then overflow else |ts|)
      && forall i :: 0 <= i < |ids| ==> i < |sorted| && ids[i] == sorted[i].id
  {
    sorted := SortedByStart(ts);
    SortPermutes(ts);
    if ts != [] { SortedHead(ts); }
    IdsAt(if overflow <= |sorted| then sorted[..if overflow <= 0 then 0 else overflow] else sorted);
  }

  lemma {:induction false} IdsAt(ts: seq<Trace>)
    ensures |Ids(ts)| == |ts| && forall i :: 0 <= i < |ts| ==> Ids(ts)[i] == ts[i].id
  {
    if ts != [] { IdsAt(ts[..|ts| - 1]); }
  }

  lemma {:induction false} WithoutOne(ts: seq<Trace>, k: nat)
    requires DistinctIds(ts) && k < |ts|
    ensures Without(ts, ts[k].id) == ts[..k] + ts[k + 1..]
  {
    var last := |ts| - 1;
    if k == last {
      WithoutNone(ts[..last], ts[k].id);
      assert ts[k + 1..] == [];
    } else {
      WithoutOne(ts[..last], k);
      assert ts[..last][..k] == ts[..k];
      assert ts[k + 1..] == ts[..last][k + 1..] + [ts[last]];
    }
  }

  lemma {:induction false} WithoutNone(ts: seq<Trace>, id: string)
    requires forall i :: 0 <= i < |ts| ==> ts[i].id != id
    ensures Without(ts, id) == ts
  {
    if ts != [] {
      WithoutNone(ts[..|ts| - 1], id);
      assert ts == ts[..|ts| - 1] + [ts[|ts| - 1]];
    }
  }

  lemma EvictionOfOne(ts: seq<Trace>)
    requires ts != []
    ensures SelectEvictionIds(ts, 1) == [ts[Oldest(ts)].id]
  {
    SortedHead(ts);
    var head := SortedByStart(ts)[..1];
    assert head == [ts[Oldest(ts)]] && head[..0] == [];
    assert Ids(head) == Ids(head[..0]) + [head[0].id];
  }

  /** A store one too large loses exactly its oldest trace. */
  lemma OneTooMany(max: nat, ts: seq<Trace>)
    requires |ts| == max + 1 && DistinctIds(ts)
    ensures Retained(max, ts) == ts[..Oldest(ts)] + ts[Oldest(ts) + 1..]
  {
    RetainsAllButOldest(max, ts);
    WithoutOne(ts, Oldest(ts));
  }

  lemma RetainsAllButOldest(max: nat, ts: seq<Trace>)
    requires |ts| == max + 1
    ensures Retained(max, ts) == Without(ts, ts[Oldest(ts)].id)
  {
    EvictionOfOne(ts);
    WithoutAllOfOne(ts, ts[Oldest(ts)].id);
  }

  lemma WithoutAllOfOne(ts: seq<Trace>, id: string)
    ensures WithoutAll(ts, [id]) == Without(ts, id)
  {
    var ids := [id];
    assert ids[..|ids| - 1] == [] && WithoutAll(ts, []) == ts;
  }

  // ---------- whole runs ----------

  /** The store after saving all of `saves`. */
  function Store(max: nat, saves: seq<Trace>): seq<Trace> {
    if saves == [] then [] else Saved(max, Store(max, saves[..|saves| - 1]), saves[|saves| - 1])
  }

  /** Save `j` counts as newer than save `i`: it started later, or at the same time and was saved later. */
  predicate Newer(saves: seq<Trace>, i: nat, j: nat)
    requires i < |saves| && j < |saves|
  {
    saves[i].startedAt < saves[j].startedAt || (saves[i].startedAt == saves[j].startedAt && i < j)
  }

  function NewerSet(saves: seq<Trace>, n: nat, i: nat): set<nat>
    requires n <= |saves| && i < |saves|
  {
    set j: nat | j < n && Newer(saves, i, j)
  }

  /** How many of the first `n` saves are newer than save `i`. */
  function Rank(saves: seq<Trace>, n: nat, i: nat): nat
    requires n <= |saves| && i < |saves|
  {
    |NewerSet(saves, n, i)|
  }

  function At(saves: seq<Trace>, ix: seq<nat>): seq<Trace>
    requires forall b :: 0 <= b < |ix| ==> ix[b] < |saves|
  {
    seq(|ix|, k requires 0 <= k < |ix| => saves[ix[k]])
  }

  predicate Increasing(ix: seq<nat>) {
    forall a, b :: 0 <= a < b < |ix| ==> ix[a] < ix[b]
  }

  lemma SubsetSize(a: set<nat>, b: set<nat>)
    requires a <= b
    ensures |a| <= |b|
  {
    assert b == a + (b - a);
  }

  function SetOf(ix: seq<nat>): set<nat> {
    set i | i in ix
  }

  lemma LastIsNew(ix: seq<nat>)
    requires Increasing(ix) && ix != []
    ensures ix[|ix| - 1] !in ix[..|ix| - 1]
    ensures SetOf(ix) == SetOf(ix[..|ix| - 1]) + {ix[|ix| - 1]}
  {
    assert ix == ix[..|ix| - 1] + [ix[|ix| - 1]];
  }

  lemma {:induction false} IncreasingSize(ix: seq<nat>)
    requires Increasing(ix)
    ensures |SetOf(ix)| == |ix|
  {
    if ix != [] {
      IncreasingSize(ix[..|ix| - 1]);
      LastIsNew(ix);
    }
  }

  /** What is newer than a kept save is kept. */
  lemma NewerIsKept(saves: seq<Trace>, n: nat, max: nat, i: nat, j: nat)
    requires n <= |saves| && i < |saves| && j < |saves| && Newer(saves, i, j) && Rank(saves, n, i) < max
    ensures Rank(saves, n, j) < max
  {
    SubsetSize(NewerSet(saves, n, j), NewerSet(saves, n, i));
  }

  /** `ix` lists, in order, the saves among the first `n` that have fewer than `max` newer ones. */
  ghost predicate Newest(max: nat, saves: seq<Trace>, n: nat, ix: seq<nat>) {
    && n <= |saves|
    && Increasing(ix) && |ix| == (if n <= max then n else max)
    && (forall b :: 0 <= b < |ix| ==> ix[b] < n)
    && forall i: nat :: i < n ==> (i in ix <==> Rank(saves, n, i) < max)
  }

  lemma FullIsIncreasing(ix: seq<nat>, n: nat)
    requires Increasing(ix) && forall b :: 0 <= b < |ix| ==> ix[b] < n
    ensures Increasing(ix + [n])
  {
  }

  /** When the list is full, the new save comes in and the oldest of all goes out. */
  lemma OldestGoes(max: nat, saves: seq<Trace>, n: nat, ix: seq<nat>, full: seq<nat>, k: nat)
    requires Newest(max, saves, n, ix) && max <= n < |saves| && full == ix + [n]
    requires k == Oldest(At(saves, full))
    ensures k < |full| && Newest(max, saves, n + 1, full[..k] + full[k + 1..])
  {
    var out := full[..k] + full[k + 1..];
    var ts := At(saves, full);
    FullIsIncreasing(ix, n);
    forall b | 0 <= b < |full| && b != k ensures Newer(saves, full[k], full[b]) {
      assert ts[b] == saves[full[b]] && ts[k] == saves[full[k]];
    }
    assert Increasing(out);
    forall i: nat | i < n + 1 ensures i in out <==> Rank(saves, n + 1, i) < max {
      RankAfterEviction(max, saves, n, ix, full, k, i);
    }
  }

  lemma InOut(full: seq<nat>, k: nat, i: nat)
    requires Increasing(full) && k < |full|
    ensures i in full[..k] + full[k + 1..] <==> i in full && i != full[k]
  {
    var out := full[..k] + full[k + 1..];
    if i in full && i != full[k] {
      var b :| 0 <= b < |full| && full[b] == i;
      assert out[if b < k then b else b - 1] == i;
    }
  }

  lemma RankAfterEviction(max: nat, saves: seq<Trace>, n: nat, ix: seq<nat>, full: seq<nat>, k: nat, i: nat)
    requires Newest(max, saves, n, ix) && max <= n < |saves| && full == ix + [n] && k < |full| && i <= n
    requires forall b :: 0 <= b < |full| && b != k ==> Newer(saves, full[k], full[b])
    ensures i in full[..k] + full[k + 1..] <==> Rank(saves, n + 1, i) < max
  {
    FullIsIncreasing(ix, n);
    InOut(full, k, i);
    if i in full && i != full[k] {
      KeptRank(max, saves, n, ix, full, k, i);
    } else if i == full[k] {
      var all := SetOf(full);
      IncreasingSize(full);
      assert |all - {i}| == max;
      SubsetSize(all - {i}, NewerSet(saves, n + 1, i));
    } else {
      assert i < n && i !in ix;
      SubsetSize(NewerSet(saves, n, i), NewerSet(saves, n + 1, i));
    }
  }

  /** A save that stays has fewer than `max` newer ones: all of those are in the list, and neither it nor
      the evicted save is among them. */
  lemma KeptRank(max: nat, saves: seq<Trace>, n: nat, ix: seq<nat>, full: seq<nat>, k: nat, i: nat)
    requires Newest(max, saves, n, ix) && max <= n < |saves| && full == ix + [n] && k < |full| && i <= n
    requires forall b :: 0 <= b < |full| && b != k ==> Newer(saves, full[k], full[b])
    requires i in full && i != full[k]
    ensures Rank(saves, n + 1, i) < max
  {
    var e, all := full[k], SetOf(full);
    FullIsIncreasing(ix, n);
    IncreasingSize(full);
    forall j | j in NewerSet(saves, n + 1, i) ensures j in all - {i} - {e} {
      NewerIsListed(max, saves, n, ix, full, k, i, j);
    }
    SubsetSize(NewerSet(saves, n + 1, i), all - {i} - {e});
    SizeWithoutTwo(all, i, e);
  }

  lemma SizeWithoutTwo(all: set<nat>, a: nat, b: nat)
    requires a in all && b in all && a != b
    ensures |all - {a} - {b}| == |all| - 2
  {
  }

  lemma NewerIsListed(max: nat, saves: seq<Trace>, n: nat, ix: seq<nat>, full: seq<nat>, k: nat, i: nat, j: nat)
    requires Newest(max, saves, n, ix) && max <= n < |saves| && full == ix + [n] && k < |full| && i <= n
    requires i in full && i != full[k] && Newer(saves, full[k], i)
    requires j <= n && Newer(saves, i, j)
    ensures j in full && j != i && j != full[k]
  {
    if j == n {
      assert full[|ix|] == n;
    } else if full[k] != n {
      assert full[k] in ix;
      NewerIsKept(saves, n, max, full[k], j);
    } else {
      assert i in ix;
      NewerIsKept(saves, n, max, i, j);
    }
  }

  lemma RanksBelow(saves: seq<Trace>, n: nat, i: nat)
    requires i < n <= |saves|
    ensures Rank(saves, n, i) < n
  {
    BelowSize(n);
    SubsetSize(NewerSet(saves, n, i), Below(n) - {i});
  }

  function Below(n: nat): set<nat> {
    if n == 0 then {} else Below(n - 1) + {n - 1}
  }

  lemma {:induction false} BelowSize(n: nat)
    ensures |Below(n)| == n && forall j: nat :: j in Below(n) <==> j < n
  {
    if 0 < n { BelowSize(n - 1); }
  }

  lemma {:induction false} PutAppends(ts: seq<Trace>, t: Trace)
    requires forall i :: 0 <= i < |ts| ==> ts[i].id != t.id
    ensures Put(ts, t) == ts + [t]
  {
  }

  /** While there is room the new save is simply added. */
  lemma RoomForOneMore(max: nat, saves: seq<Trace>, n: nat, ix: seq<nat>)
    requires Newest(max, saves, n, ix) && n < |saves| && n < max
    ensures Newest(max, saves, n + 1, ix + [n])
  {
    FullIsIncreasing(ix, n);
    forall i: nat | i < n + 1 ensures i in ix + [n] <==> Rank(saves, n + 1, i) < max {
      RanksBelow(saves, n + 1, i);
      if i < n { RanksBelow(saves, n, i); }
    }
  }

  lemma AtDrops(saves: seq<Trace>, full: seq<nat>, k: nat)
    requires k < |full| && forall b :: 0 <= b < |full| ==> full[b] < |saves|
    ensures At(saves, full[..k] + full[k + 1..]) == At(saves, full)[..k] + At(saves, full)[k + 1..]
  {
  }

  lemma AtDistinct(saves: seq<Trace>, ix: seq<nat>)
    requires DistinctIds(saves) && Increasing(ix) && forall b :: 0 <= b < |ix| ==> ix[b] < |saves|
    ensures DistinctIds(At(saves, ix))
  {
  }

  /** One save, in terms of positions. */
  lemma SaveIsNewest(max: nat, saves: seq<Trace>, n: nat, ix: seq<nat>) returns (ix': seq<nat>)
    requires DistinctIds(saves) && n < |saves| && Newest(max, saves, n, ix)
    ensures Newest(max, saves, n + 1, ix') && Saved(max, At(saves, ix), saves[n]) == At(saves, ix')
  {
    PutAppends(At(saves, ix), saves[n]);
    FullIsIncreasing(ix, n);
    assert At(saves, ix) + [saves[n]] == At(saves, ix + [n]);
    if n < max {
      RoomForOneMore(max, saves, n, ix);
      ix' := ix + [n];
    } else {
      ix' := FullSave(max, saves, n, ix, ix + [n]);
    }
  }

  lemma FullSave(max: nat, saves: seq<Trace>, n: nat, ix: seq<nat>, full: seq<nat>) returns (ix': seq<nat>)
    requires DistinctIds(saves) && max <= n < |saves| && Newest(max, saves, n, ix)
    requires full == ix + [n] && Increasing(full)
    ensures Newest(max, saves, n + 1, ix') && Retained(max, At(saves, full)) == At(saves, ix')
  {
    AtDistinct(saves, full);
    OneTooMany(max, At(saves, full));
    var k := Oldest(At(saves, full));
    OldestGoes(max, saves, n, ix, full, k);
    AtDrops(saves, full, k);
    ix' := full[..k] + full[k + 1..];
  }

  /** Streaming newest-k: after any sequence of saves of distinct traces the store holds, in save order,
      exactly the saves that fewer than `max` others are newer than. */
  lemma {:induction false} StoreIsNewest(max: nat, saves: seq<Trace>) returns (ix: seq<nat>)
    requires DistinctIds(saves)
    ensures Newest(max, saves, |saves|, ix)
    ensures Store(max, saves) == At(saves, ix)
  {
    if saves == [] {
      ix := [];
    } else {
      var n := |saves| - 1;
      var before := StoreIsNewest(max, saves[..n]);
      NewestOfPrefix(max, saves, n, before);
      ix := SaveIsNewest(max, saves, n, before);
    }
  }

  lemma NewestOfPrefix(max: nat, saves: seq<Trace>, n: nat, ix: seq<nat>)
    requires n <= |saves| && Newest(max, saves[..n], n, ix)
    ensures Newest(max, saves, n, ix) && At(saves[..n], ix) == At(saves, ix)
  {
    forall i: nat | i < n ensures Rank(saves[..n], n, i) == Rank(saves, n, i) {
      assert NewerSet(saves[..n], n, i) == NewerSet(saves, n, i);
    }
  }

  /** After any sequence of saves of distinct traces: the store has min(max, saves) traces; a saved trace is
      in it if and only if fewer than `max` saved traces are newer; and no trace in it started earlier than
      one that was evicted. */
  lemma StoreHoldsTheNewest(max: nat, saves: seq<Trace>)
    requires DistinctIds(saves)
    ensures |Store(max, saves)| == if |saves| <= max then |saves| else max
    ensures forall i :: 0 <= i < |saves| ==> (saves[i] in Store(max, saves) <==> Rank(saves, |saves|, i) < max)
    ensures forall i, j :: 0 <= i < |saves| && 0 <= j < |saves| ==>
      Rank(saves, |saves|, i) < max <= Rank(saves, |saves|, j) ==> saves[j].startedAt <= saves[i].startedAt
  {
    var ix := StoreIsNewest(max, saves);
    forall i | 0 <= i < |saves| ensures saves[i] in Store(max, saves) <==> Rank(saves, |saves|, i) < max {
      AtMembers(saves, ix, i);
    }
    forall i, j | 0 <= i < |saves| && 0 <= j < |saves| && Rank(saves, |saves|, i) < max <= Rank(saves, |saves|, j)
      ensures saves[j].startedAt <= saves[i].startedAt
    {
      if saves[i].startedAt < saves[j].startedAt {
        NewerIsKept(saves, |saves|, max, i, j);
      }
    }
  }

  lemma AtMembers(saves: seq<Trace>, ix: seq<nat>, i: nat)
    requires DistinctIds(saves) && i < |saves| && forall b :: 0 <= b < |ix| ==> ix[b] < |saves|
    ensures saves[i] in At(saves, ix) <==> i in ix
  {
    if i in ix {
      var b :| 0 <= b < |ix| && ix[b] == i;
      assert At(saves, ix)[b] == saves[i];
    }
    if saves[i] in At(saves, ix) {
      var b :| 0 <= b < |ix| && At(saves, ix)[b] == saves[i];
      assert saves[ix[b]].id == saves[i].id;
    }
  }

  /** Whatever is saved, repeated ids included, the store never exceeds its bound by more than the eviction
      removes: a save into a store within bounds leaves it within bounds. */
  lemma BoundIsKept(max: nat, ts: seq<Trace>, t: Trace)
    requires DistinctIds(ts) && |ts| <= max
    ensures DistinctIds(Saved(max, ts, t)) && |Saved(max, ts, t)| <= max
  {
    PutKeepsDistinct(ts, t);
    var put := Put(ts, t);
    if |put| == max + 1 {
      OneTooMany(max, put);
    }
  }

  lemma {:induction false} PutKeepsDistinct(ts: seq<Trace>, t: Trace)
    requires DistinctIds(ts)
    ensures DistinctIds(Put(ts, t)) && |ts| <= |Put(ts, t)| <= |ts| + 1
    ensures forall i :: 0 <= i < |Put(ts, t)| ==>
      Put(ts, t)[i].id == t.id || exists j :: 0 <= j < |ts| && ts[j].id == Put(ts, t)[i].id
  {
    if ts != [] {
      PutKeepsDistinct(ts[..|ts| - 1], t);
    }
  }

  // ---------- saving traces again ----------

  function IdsOf(ts: seq<Trace>): set<string> {
    set t | t in ts :: t.id
  }

  /** A trace keeps the start time it was created with. */
  predicate KeepsStart(saves: seq<Trace>) {
    forall u, v :: u in saves && v in saves && u.id == v.id ==> u.startedAt == v.startedAt
  }

  /** Save `i` is the last one of its trace. */
  predicate IsLatest(saves: seq<Trace>, i: int) {
    0 <= i < |saves| && forall j :: i < j < |saves| ==> saves[j].id != saves[i].id
  }

  /** `t` is what was saved last under its id. */
  ghost predicate LatestSave(saves: seq<Trace>, t: Trace) {
    exists i :: IsLatest(saves, i) && saves[i] == t
  }

  ghost predicate AllLatest(saves: seq<Trace>, ts: seq<Trace>) {
    forall t :: t in ts ==> LatestSave(saves, t)
  }

  /** No saved trace outside the store started later than one in it. */
  predicate KeepsNewest(saves: seq<Trace>, ts: seq<Trace>) {
    forall u, t :: u in saves && t in ts && u.id !in IdsOf(ts) ==> u.startedAt <= t.startedAt
  }

  ghost predicate HoldsLatest(max: nat, saves: seq<Trace>, ts: seq<Trace>) {
    && DistinctIds(ts) && AllLatest(saves, ts) && KeepsNewest(saves, ts)
    && |ts| == if |IdsOf(saves)| <= max then |IdsOf(saves)| else max
  }

  lemma IdsSnoc(ts: seq<Trace>, t: Trace)
    ensures IdsOf(ts + [t]) == IdsOf(ts) + {t.id}
  {
    assert forall u :: u in ts + [t] <==> u in ts || u == t;
  }

  lemma DistinctSnoc(ts: seq<Trace>, t: Trace)
    ensures DistinctIds(ts + [t]) <==> DistinctIds(ts) && t.id !in IdsOf(ts)
  {
    var more := ts + [t];
    assert more[|ts|] == t;
    if DistinctIds(more) {
      forall i | 0 <= i < |ts| ensures ts[i].id != t.id {
        assert more[i].id != more[|ts|].id;
      }
      forall i, j | 0 <= i < j < |ts| ensures ts[i].id != ts[j].id {
        assert more[i].id != more[j].id;
      }
    }
    if DistinctIds(ts) && t.id !in IdsOf(ts) {
      forall i | 0 <= i < |ts| ensures ts[i].id != t.id {
        assert ts[i] in ts;
      }
    }
  }

  lemma {:induction false} DistinctCount(ts: seq<Trace>)
    requires DistinctIds(ts)
    ensures |IdsOf(ts)| == |ts|
  {
    if ts != [] {
      var init, last := ts[..|ts| - 1], ts[|ts| - 1];
      assert ts == init + [last];
      DistinctSnoc(init, last);
      DistinctCount(init);
      IdsSnoc(init, last);
    }
  }

  lemma {:induction false} PutReplaces(ts: seq<Trace>, t: Trace, k: nat)
    requires DistinctIds(ts) && k < |ts| && ts[k].id == t.id
    ensures Put(ts, t) == ts[k := t]
  {
    if k < |ts| - 1 {
      PutReplaces(ts[..|ts| - 1], t, k);
      assert ts[k := t] == ts[..|ts| - 1][k := t] + [ts[|ts| - 1]];
    }
  }

  lemma LatestOfMore(saves: seq<Trace>, s: Trace, t: Trace)
    requires LatestSave(saves, t) && t.id != s.id
    ensures LatestSave(saves + [s], t)
  {
    var i :| IsLatest(saves, i) && saves[i] == t;
    assert IsLatest(saves + [s], i);
  }

  lemma NewIsLatest(saves: seq<Trace>, s: Trace)
    ensures LatestSave(saves + [s], s)
  {
    assert IsLatest(saves + [s], |saves|);
  }

  lemma LatestWasSaved(saves: seq<Trace>, ts: seq<Trace>)
    requires AllLatest(saves, ts)
    ensures forall t :: t in ts ==> t in saves
    ensures IdsOf(ts) <= IdsOf(saves)
  {
    forall t | t in ts ensures t in saves {
      var i :| IsLatest(saves, i) && saves[i] == t;
    }
  }

  /** The store still holds latest saves when each of its traces is the new one or another one it held. */
  lemma StillLatest(saves: seq<Trace>, ts: seq<Trace>, s: Trace, out: seq<Trace>)
    requires AllLatest(saves, ts)
    requires forall t :: t in out ==> t == s || (t in ts && t.id != s.id)
    ensures AllLatest(saves + [s], out)
  {
    NewIsLatest(saves, s);
    forall t | t in out ensures LatestSave(saves + [s], t) {
      if t != s { LatestOfMore(saves, s, t); }
    }
  }

  // A save of a trace the store holds replaces it in its place.

  lemma ReplacedMembers(ts: seq<Trace>, s: Trace, k: nat)
    requires DistinctIds(ts) && k < |ts| && ts[k].id == s.id
    ensures DistinctIds(ts[k := s]) && IdsOf(ts[k := s]) == IdsOf(ts)
    ensures forall t :: t in ts[k := s] ==> t == s || (t in ts && t.id != s.id)
  {
    var out := ts[k := s];
    assert forall b :: 0 <= b < |ts| ==> out[b].id == ts[b].id;
    forall id | id in IdsOf(ts) ensures id in IdsOf(out) {
      var b :| 0 <= b < |ts| && ts[b].id == id;
      assert out[b] in out;
    }
    forall t | t in out ensures (t == s || (t in ts && t.id != s.id)) && t.id in IdsOf(ts) {
      var b :| 0 <= b < |out| && out[b] == t;
      assert ts[b] in ts;
    }
  }

  lemma ReplacingKeepsNewest(saves: seq<Trace>, ts: seq<Trace>, s: Trace, k: nat)
    requires KeepsNewest(saves, ts) && KeepsStart(saves + [s]) && DistinctIds(ts) && AllLatest(saves, ts)
    requires k < |ts| && ts[k].id == s.id
    ensures KeepsNewest(saves + [s], ts[k := s])
  {
    var out := ts[k := s];
    ReplacedMembers(ts, s, k);
    LatestWasSaved(saves, ts);
    assert ts[k] in saves + [s] && s in saves + [s];
    forall u, t | u in saves + [s] && t in out && u.id !in IdsOf(out) ensures u.startedAt <= t.startedAt {
      assert s.id in IdsOf(ts) && ts[k] in ts;
      assert u in saves;
    }
  }

  lemma SaveStoredAgain(max: nat, saves: seq<Trace>, ts: seq<Trace>, s: Trace, k: nat)
    requires HoldsLatest(max, saves, ts) && KeepsStart(saves + [s]) && k < |ts| && ts[k].id == s.id
    ensures HoldsLatest(max, saves + [s], Saved(max, ts, s))
  {
    PutReplaces(ts, s, k);
    assert Saved(max, ts, s) == ts[k := s];
    ReplacedMembers(ts, s, k);
    StillLatest(saves, ts, s, ts[k := s]);
    ReplacingKeepsNewest(saves, ts, s, k);
    LatestWasSaved(saves, ts);
    assert ts[k] in ts;
    IdsSnoc(saves, s);
    assert IdsOf(saves + [s]) == IdsOf(saves);
  }

  // A save of a trace the store does not hold, new or evicted before, adds it; then the oldest may have to go.

  lemma StoredIds(max: nat, saves: seq<Trace>, ts: seq<Trace>)
    requires HoldsLatest(max, saves, ts)
    ensures IdsOf(ts) <= IdsOf(saves) && (|ts| < max ==> IdsOf(ts) == IdsOf(saves))
  {
    LatestWasSaved(saves, ts);
    DistinctCount(ts);
    if |ts| < max {
      var rest := IdsOf(saves) - IdsOf(ts);
      assert IdsOf(saves) == IdsOf(ts) + rest;
    }
  }

  lemma NotAmong(ts: seq<Trace>, s: Trace)
    requires s.id !in IdsOf(ts)
    ensures Put(ts, s) == ts + [s]
    ensures forall t :: t in ts + [s] ==> t == s || (t in ts && t.id != s.id)
  {
    forall i | 0 <= i < |ts| ensures ts[i].id != s.id {
      assert ts[i] in ts;
    }
    PutAppends(ts, s);
  }

  lemma SaveWithRoom(max: nat, saves: seq<Trace>, ts: seq<Trace>, s: Trace)
    requires HoldsLatest(max, saves, ts) && s.id !in IdsOf(ts) && |ts| < max
    ensures HoldsLatest(max, saves + [s], Saved(max, ts, s))
  {
    NotAmong(ts, s);
    assert Saved(max, ts, s) == ts + [s];
    DistinctSnoc(ts, s);
    StillLatest(saves, ts, s, ts + [s]);
    StoredIds(max, saves, ts);
    IdsSnoc(saves, s);
    IdsSnoc(ts, s);
    assert forall u :: u in saves + [s] ==> u.id in IdsOf(saves + [s]);
  }

  lemma MembersWithout(full: seq<Trace>, k: nat, t: Trace)
    requires DistinctIds(full) && k < |full|
    ensures t in full[..k] + full[k + 1..] <==> t in full && t.id != full[k].id
  {
    var out := full[..k] + full[k + 1..];
    if t in full && t.id != full[k].id {
      var b :| 0 <= b < |full| && full[b] == t;
      assert out[if b < k then b else b - 1] == t;
    }
    if t in out {
      var b :| 0 <= b < |out| && out[b] == t;
      var c := if b < k then b else b + 1;
      assert full[c] == t && full[c] in full && c != k;
    }
  }

  lemma IdsWithout(full: seq<Trace>, k: nat)
    requires DistinctIds(full) && k < |full|
    ensures IdsOf(full[..k] + full[k + 1..]) == IdsOf(full) - {full[k].id}
  {
    var out := full[..k] + full[k + 1..];
    forall id ensures id in IdsOf(out) <==> id in IdsOf(full) && id != full[k].id {
      if id in IdsOf(out) {
        var t :| t in out && t.id == id;
        MembersWithout(full, k, t);
      }
      if id in IdsOf(full) && id != full[k].id {
        var t :| t in full && t.id == id;
        MembersWithout(full, k, t);
      }
    }
  }

  lemma DistinctWithout(full: seq<Trace>, k: nat)
    requires DistinctIds(full) && k < |full|
    ensures DistinctIds(full[..k] + full[k + 1..]) && |full[..k] + full[k + 1..]| == |full| - 1
  {
    var out := full[..k] + full[k + 1..];
    forall i, j | 0 <= i < j < |out| ensures out[i].id != out[j].id {
      assert out[i] == full[if i < k then i else i + 1] && out[j] == full[if j < k then j else j + 1];
    }
  }

  /** A saved trace that is outside after the eviction of `old` started no later than any that stays. */
  lemma EvictedOrOutside(saves: seq<Trace>, ts: seq<Trace>, s: Trace, gone: Trace, u: Trace, t: Trace)
    requires KeepsNewest(saves, ts) && KeepsStart(saves + [s]) && AllLatest(saves, ts)
    requires gone in ts + [s] && forall v :: v in ts + [s] ==> gone.startedAt <= v.startedAt
    requires u in saves + [s] && (u.id == gone.id || u.id !in IdsOf(ts + [s]))
    requires t in ts + [s] && t != gone
    ensures u.startedAt <= t.startedAt
  {
    LatestWasSaved(saves, ts);
    assert gone in saves + [s];
    if u.id != gone.id {
      IdsSnoc(ts, s);
      assert u in saves && u.id !in IdsOf(ts);
      if t !in ts {
        assert t == s && gone in ts;
      }
    }
  }

  lemma SaveWhenFull(max: nat, saves: seq<Trace>, ts: seq<Trace>, s: Trace)
    requires HoldsLatest(max, saves, ts) && KeepsStart(saves + [s]) && s.id !in IdsOf(ts) && |ts| == max
    ensures HoldsLatest(max, saves + [s], Saved(max, ts, s))
  {
    var full := ts + [s];
    NotAmong(ts, s);
    DistinctSnoc(ts, s);
    OneTooMany(max, full);
    var k := Oldest(full);
    var out := full[..k] + full[k + 1..];
    assert Saved(max, ts, s) == out;
    DistinctWithout(full, k);
    IdsWithout(full, k);
    forall t | t in out ensures t in full && t.id != full[k].id {
      MembersWithout(full, k, t);
    }
    StillLatest(saves, ts, s, out);
    OldestIsOldest(full);
    forall u, t | u in saves + [s] && t in out && u.id !in IdsOf(out) ensures u.startedAt <= t.startedAt {
      EvictedOrOutside(saves, ts, s, full[k], u, t);
    }
    CountGrows(saves, s);
  }

  lemma OldestIsOldest(ts: seq<Trace>)
    requires ts != []
    ensures ts[Oldest(ts)] in ts && forall t :: t in ts ==> ts[Oldest(ts)].startedAt <= t.startedAt
  {
  }

  lemma CountGrows(saves: seq<Trace>, s: Trace)
    ensures |IdsOf(saves)| <= |IdsOf(saves + [s])|
  {
    IdsSnoc(saves, s);
    assert s.id in IdsOf(saves) ==> IdsOf(saves) + {s.id} == IdsOf(saves);
  }

  lemma SaveHoldsLatest(max: nat, saves: seq<Trace>, ts: seq<Trace>, s: Trace)
    requires HoldsLatest(max, saves, ts) && KeepsStart(saves + [s])
    ensures HoldsLatest(max, saves + [s], Saved(max, ts, s))
  {
    if t :| t in ts && t.id == s.id {
      var k :| 0 <= k < |ts| && ts[k] == t;
      SaveStoredAgain(max, saves, ts, s, k);
    } else if |ts| < max {
      SaveWithRoom(max, saves, ts, s);
    } else {
      SaveWhenFull(max, saves, ts, s);
    }
  }

  /** After any sequence of saves, traces saved again included, as long as a trace keeps its start time: the
      store has as many traces as were saved under different ids, but at most max; each is what was saved last
      under its id; and no trace outside started later than one inside. */
  lemma {:induction false} StoreHoldsLatest(max: nat, saves: seq<Trace>)
    requires KeepsStart(saves)
    ensures HoldsLatest(max, saves, Store(max, saves))
  {
    if saves != [] {
      var init, last := saves[..|saves| - 1], saves[|saves| - 1];
      assert saves == init + [last];
      StoreHoldsLatest(max, init);
      SaveHoldsLatest(max, init, Store(max, init), last);
    }
  }
}
