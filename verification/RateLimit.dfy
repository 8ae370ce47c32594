/** The sliding-window rate limiter: its pruned hit lists against the full history. */
module RateLimit {

  /** Hit times per identifier, in ticks of the clock. */
  type Hits = map<string, seq<int>>

  datatype Call = Call(identifier: string, now: int)

  function HitsOf(hits: Hits, identifier: string): seq<int> {
    if identifier in hits then hits[identifier] else []
  }

  /** The times not before `start`, in order. */
  function Kept(times: seq<int>, start: int): seq<int> {
    if times == [] then []
    else
      var last := times[|times| - 1];
      var earlier := Kept(times[..|times| - 1], start);
      if start <= last then earlier + [last] else earlier
  }

  /** What one call of `allow` decides and leaves. */
  function Allowed(limit: nat, window: nat, hits: Hits, c: Call): (bool, Hits) {
    var kept := Kept(HitsOf(hits, c.identifier), c.now - window);
    if limit <= |kept| then (false, hits[c.identifier := kept])
    else (true, hits[c.identifier := kept + [c.now]])
  }

  /** How many allowed calls of the caller its window still holds. */
  function Recent(window: nat, hits: Hits, c: Call): nat {
    |Kept(HitsOf(hits, c.identifier), c.now - window)|
  }

  function RemainingCalls(limit: nat, window: nat, hits: Hits, c: Call): nat {
    var recent := Recent(window, hits, c);
    if limit <= recent then 0 else limit - recent
  }

  class RateLimiter {
    const limit: nat
    const window: nat
    var hits: Hits

    constructor (limit: nat, window: nat)
      requires 1 <= limit && 1 <= window
      ensures this.limit == limit && this.window == window && hits == map[]
    {
      this.limit, this.window, hits := limit, window, map[];
    }

    method Allow(identifier: string, now: int) returns (ok: bool)
      modifies this
      ensures (ok, hits) == Allowed(limit, window, old(hits), Call(identifier, now))
    {
      var kept := Prune(HitsOf(hits, identifier), now - window);
      if |kept| >= limit {
        hits := hits[identifier := kept];
        return false;
      }
      hits := hits[identifier := kept + [now]];
      ok := true;
    }

    method Remaining(identifier: string, now: int) returns (n: nat)
      ensures n == RemainingCalls(limit, window, hits, Call(identifier, now))
    {
      var kept := Prune(HitsOf(hits, identifier), now - window);
      n := if |kept| >= limit then 0 else limit - |kept|;
    }

    method Prune(times: seq<int>, start: int) returns (kept: seq<int>)
      ensures kept == Kept(times, start)
    {
      kept := [];
      for i := 0 to |times|
        invariant kept == Kept(times[..i], start)
      {
        assert times[..i + 1][..i] == times[..i];
        if times[i] >= start {
          kept := kept + [times[i]];
        }
      }
      assert times[..|times|] == times;
    }
  }

  /** The constructor's check: both parameters must be at least one. */
  method Create(limit: int, window: int) returns (limiter: RateLimiter?)
    ensures limiter == null <==> limit < 1 || window < 1
    ensures limiter != null ==>
      fresh(limiter) && limiter.limit == limit && limiter.window == window && limiter.hits == map[]
  {
    if limit < 1 || window < 1 {
      return null;
    }
    limiter := new RateLimiter(limit, window);
  }

  // ---------- whole runs ----------

  function StateAfter(limit: nat, window: nat, calls: seq<Call>): Hits {
    if calls == [] then map[]
    else Allowed(limit, window, StateAfter(limit, window, calls[..|calls| - 1]), calls[|calls| - 1]).1
  }

  /** Whether the last call of a run was allowed. */
  predicate LastAllowed(limit: nat, window: nat, calls: seq<Call>)
    requires calls != []
  {
    Allowed(limit, window, StateAfter(limit, window, calls[..|calls| - 1]), calls[|calls| - 1]).0
  }

  /** The times at which calls of `identifier` were allowed. */
  function AllowedTimes(limit: nat, window: nat, calls: seq<Call>, identifier: string): seq<int> {
    if calls == [] then []
    else
      var c := calls[|calls| - 1];
      var earlier := AllowedTimes(limit, window, calls[..|calls| - 1], identifier);
      if c.identifier == identifier && LastAllowed(limit, window, calls) then earlier + [c.now] else earlier
  }

  // ---------- one identifier on its own ----------

  /** The times of the calls of one identifier. */
  function Nows(calls: seq<Call>, identifier: string): seq<int> {
    if calls == [] then []
    else
      var c := calls[|calls| - 1];
      var earlier := Nows(calls[..|calls| - 1], identifier);
      if c.identifier == identifier then earlier + [c.now] else earlier
  }

  /** The list one call at `now` leaves. */
  function LeftAfter(limit: nat, window: nat, times: seq<int>, now: int): seq<int> {
    var kept := Kept(times, now - window);
    if limit <= |kept| then kept else kept + [now]
  }

  predicate Admits(limit: nat, window: nat, times: seq<int>, now: int) {
    |Kept(times, now - window)| < limit
  }

  /** The list after calls at the times `nows`. */
  function Left(limit: nat, window: nat, nows: seq<int>): seq<int> {
    if nows == [] then [] else LeftAfter(limit, window, Left(limit, window, nows[..|nows| - 1]), nows[|nows| - 1])
  }

  /** Those of the times `nows` at which the call was allowed. */
  function Admitted(limit: nat, window: nat, nows: seq<int>): seq<int> {
    if nows == [] then []
    else
      var init, now := nows[..|nows| - 1], nows[|nows| - 1];
      var earlier := Admitted(limit, window, init);
      if Admits(limit, window, Left(limit, window, init), now) then earlier + [now] else earlier
  }

  /** What one call does to the list and the decision, seen from one identifier. */
  lemma CallStep(limit: nat, window: nat, hits: Hits, c: Call, identifier: string)
    ensures var (ok, after) := Allowed(limit, window, hits, c);
      if c.identifier == identifier
      then HitsOf(after, identifier) == LeftAfter(limit, window, HitsOf(hits, identifier), c.now)
           && ok == Admits(limit, window, HitsOf(hits, identifier), c.now)
      else HitsOf(after, identifier) == HitsOf(hits, identifier)
  {
  }

  lemma LeftSnoc(limit: nat, window: nat, nows: seq<int>, now: int)
    ensures Left(limit, window, nows + [now]) == LeftAfter(limit, window, Left(limit, window, nows), now)
    ensures Admitted(limit, window, nows + [now]) ==
      if Admits(limit, window, Left(limit, window, nows), now) then Admitted(limit, window, nows) + [now]
      else Admitted(limit, window, nows)
  {
    assert (nows + [now])[..|nows|] == nows;
  }

  /** What an identifier's list holds, and which of its calls are allowed, depends on the times of that
      identifier's own calls alone, on any clock. */
  lemma {:induction false} IdentifiersAreIsolated(limit: nat, window: nat, calls: seq<Call>, identifier: string)
    ensures HitsOf(StateAfter(limit, window, calls), identifier) == Left(limit, window, Nows(calls, identifier))
    ensures AllowedTimes(limit, window, calls, identifier) == Admitted(limit, window, Nows(calls, identifier))
  {
    if calls != [] {
      var before, c := calls[..|calls| - 1], calls[|calls| - 1];
      IdentifiersAreIsolated(limit, window, before, identifier);
      CallStep(limit, window, StateAfter(limit, window, before), c, identifier);
      LeftSnoc(limit, window, Nows(before, identifier), c.now);
      assert c.identifier != identifier ==> Nows(calls, identifier) == Nows(before, identifier);
    }
  }

  // ---------- against the naive limiter ----------

  /** The naive limiter forgets nothing: it allows a call when fewer than `limit` of all the calls it ever
      allowed fall into the window. */
  predicate NaiveAdmits(limit: nat, window: nat, nows: seq<int>, now: int)
    decreases |nows|, 1
  {
    |Kept(NaiveAdmitted(limit, window, nows), now - window)| < limit
  }

  function NaiveAdmitted(limit: nat, window: nat, nows: seq<int>): seq<int>
    decreases |nows|, 0
  {
    if nows == [] then []
    else
      var init, now := nows[..|nows| - 1], nows[|nows| - 1];
      var earlier := NaiveAdmitted(limit, window, init);
      if NaiveAdmits(limit, window, init, now) then earlier + [now] else earlier
  }

  lemma NaiveSnoc(limit: nat, window: nat, nows: seq<int>, now: int)
    ensures NaiveAdmitted(limit, window, nows + [now]) ==
      if NaiveAdmits(limit, window, nows, now) then NaiveAdmitted(limit, window, nows) + [now]
      else NaiveAdmitted(limit, window, nows)
  {
    assert (nows + [now])[..|nows|] == nows;
  }

  predicate Ascending(nows: seq<int>) {
    forall i, j :: 0 <= i <= j < |nows| ==> nows[i] <= nows[j]
  }

  lemma {:induction false} KeptOfKept(times: seq<int>, a: int, b: int)
    requires a <= b
    ensures Kept(Kept(times, a), b) == Kept(times, b)
  {
    if times != [] {
      var init, last := times[..|times| - 1], times[|times| - 1];
      KeptOfKept(init, a, b);
      if a <= last {
        KeptSnoc(Kept(init, a), last, b);
      } else {
        assert Kept(times, a) == Kept(init, a);
      }
    }
  }

  lemma KeptSnoc(times: seq<int>, t: int, start: int)
    ensures Kept(times + [t], start) == if start <= t then Kept(times, start) + [t] else Kept(times, start)
  {
    assert (times + [t])[..|times|] == times;
  }

  /** What one call leaves of the list, as far as windows still to come are concerned. */
  lemma KeptAfterCall(limit: nat, window: nat, times: seq<int>, now: int, start: int)
    requires now - window <= start
    ensures Kept(LeftAfter(limit, window, times, now), start) ==
      if Admits(limit, window, times, now) && start <= now then Kept(times, start) + [now] else Kept(times, start)
  {
    var kept := Kept(times, now - window);
    KeptOfKept(times, now - window, start);
    if |kept| < limit {
      assert LeftAfter(limit, window, times, now) == kept + [now];
      KeptSnoc(kept, now, start);
    } else {
      assert LeftAfter(limit, window, times, now) == kept;
    }
  }

  /** Pruning is invisible: what is left of the list and the full list of allowed calls agree on every
      window that can still be asked about. */
  lemma {:induction false} PrunedListsSuffice(limit: nat, window: nat, nows: seq<int>, start: int)
    requires Ascending(nows) && (nows != [] ==> nows[|nows| - 1] - window <= start)
    ensures SameFrom(limit, window, nows, start)
    decreases |nows|
  {
    if nows != [] {
      var init, now := nows[..|nows| - 1], nows[|nows| - 1];
      assert nows == init + [now];
      AscendingPrefix(init, now);
      PrunedListsSuffice(limit, window, init, start);
      PrunedListsSuffice(limit, window, init, now - window);
      OneCallKeepsSame(limit, window, init, now, start);
    }
  }

  /** The pruned list and the full list have the same times from `start` on. */
  predicate SameFrom(limit: nat, window: nat, nows: seq<int>, start: int) {
    Kept(Left(limit, window, nows), start) == Kept(NaiveAdmitted(limit, window, nows), start)
  }

  lemma OneCallKeepsSame(limit: nat, window: nat, nows: seq<int>, now: int, start: int)
    requires now - window <= start
    requires SameFrom(limit, window, nows, start) && SameFrom(limit, window, nows, now - window)
    ensures SameFrom(limit, window, nows + [now], start)
  {
    LeftSnoc(limit, window, nows, now);
    NaiveSnoc(limit, window, nows, now);
    SameAfterCall(limit, window, Left(limit, window, nows), NaiveAdmitted(limit, window, nows), now, start);
  }

  lemma SameAfterCall(limit: nat, window: nat, pruned: seq<int>, full: seq<int>, now: int, start: int)
    requires now - window <= start && Kept(pruned, start) == Kept(full, start)
    ensures Kept(LeftAfter(limit, window, pruned, now), start) ==
      if Admits(limit, window, pruned, now) then Kept(full + [now], start) else Kept(full, start)
  {
    KeptAfterCall(limit, window, pruned, now, start);
    KeptSnoc(full, now, start);
  }

  /** The decision on one more call, by the caller's own earlier calls. */
  lemma LastDecision(limit: nat, window: nat, calls: seq<Call>, c: Call)
    ensures LastAllowed(limit, window, calls + [c])
      <==> Admits(limit, window, Left(limit, window, Nows(calls, c.identifier)), c.now)
  {
    assert (calls + [c])[..|calls|] == calls;
    IdentifiersAreIsolated(limit, window, calls, c.identifier);
    CallStep(limit, window, StateAfter(limit, window, calls), c, c.identifier);
  }

  /** On a clock that never goes back for the caller, the limiter decides every call as the naive one does,
      whatever other identifiers do. */
  lemma RefinesNaiveLimiter(limit: nat, window: nat, calls: seq<Call>, c: Call)
    requires Ascending(Nows(calls, c.identifier) + [c.now])
    ensures LastAllowed(limit, window, calls + [c]) <==> NaiveAdmits(limit, window, Nows(calls, c.identifier), c.now)
  {
    LastDecision(limit, window, calls, c);
    SameDecision(limit, window, Nows(calls, c.identifier), c.now);
  }

  lemma SameDecision(limit: nat, window: nat, nows: seq<int>, now: int)
    requires Ascending(nows + [now])
    ensures Admits(limit, window, Left(limit, window, nows), now) <==> NaiveAdmits(limit, window, nows, now)
  {
    AscendingPrefix(nows, now);
    PrunedListsSuffice(limit, window, nows, now - window);
  }

  lemma AscendingPrefix(nows: seq<int>, now: int)
    requires Ascending(nows + [now])
    ensures Ascending(nows) && (nows != [] ==> nows[|nows| - 1] <= now)
  {
    var all := nows + [now];
    assert forall i :: 0 <= i < |nows| ==> all[i] == nows[i];
    assert all[|nows|] == now;
  }

  lemma {:induction false} SameAdmitted(limit: nat, window: nat, nows: seq<int>)
    requires Ascending(nows)
    ensures Admitted(limit, window, nows) == NaiveAdmitted(limit, window, nows)
  {
    if nows != [] {
      var init, now := nows[..|nows| - 1], nows[|nows| - 1];
      assert nows == init + [now];
      AscendingPrefix(init, now);
      SameAdmitted(limit, window, init);
      SameAdmittedStep(limit, window, init, now);
    }
  }

  lemma SameAdmittedStep(limit: nat, window: nat, nows: seq<int>, now: int)
    requires Ascending(nows + [now]) && Admitted(limit, window, nows) == NaiveAdmitted(limit, window, nows)
    ensures Admitted(limit, window, nows + [now]) == NaiveAdmitted(limit, window, nows + [now])
  {
    SameDecision(limit, window, nows, now);
    LeftSnoc(limit, window, nows, now);
    NaiveSnoc(limit, window, nows, now);
  }

  // ---------- the window bound ----------

  function Between(times: seq<int>, a: int, b: int): seq<int> {
    if times == [] then []
    else
      var last := times[|times| - 1];
      var earlier := Between(times[..|times| - 1], a, b);
      if a <= last <= b then earlier + [last] else earlier
  }

  lemma {:induction false} BetweenIsKept(times: seq<int>, a: int, b: int, start: int)
    requires start <= a
    ensures |Between(times, a, b)| <= |Kept(times, start)|
  {
    if times != [] {
      BetweenIsKept(times[..|times| - 1], a, b, start);
    }
  }

  lemma BetweenSnoc(times: seq<int>, t: int, a: int, b: int)
    ensures Between(times + [t], a, b) == if a <= t <= b then Between(times, a, b) + [t] else Between(times, a, b)
  {
    assert (times + [t])[..|times|] == times;
  }

  lemma {:induction false} NaiveWindowBound(limit: nat, window: nat, nows: seq<int>, a: int)
    ensures |Between(NaiveAdmitted(limit, window, nows), a, a + window)| <= limit
  {
    if nows != [] {
      var init, now := nows[..|nows| - 1], nows[|nows| - 1];
      assert nows == init + [now];
      NaiveWindowBound(limit, window, init, a);
      NaiveSnoc(limit, window, init, now);
      if NaiveAdmits(limit, window, init, now) {
        OneMoreWithinBound(limit, window, NaiveAdmitted(limit, window, init), now, a);
      }
    }
  }

  lemma OneMoreWithinBound(limit: nat, window: nat, times: seq<int>, now: int, a: int)
    requires |Between(times, a, a + window)| <= limit && |Kept(times, now - window)| < limit
    ensures |Between(times + [now], a, a + window)| <= limit
  {
    BetweenSnoc(times, now, a, a + window);
    if a <= now <= a + window {
      BetweenIsKept(times, a, a + window, now - window);
    }
  }

  /** At most `limit` calls of `identifier` were allowed in the closed interval that starts at `a` and is as
      long as the window. */
  predicate BoundHolds(limit: nat, window: nat, calls: seq<Call>, identifier: string, a: int) {
    |Between(AllowedTimes(limit, window, calls, identifier), a, a + window)| <= limit
  }

  /** For every run, every identifier whose own calls see a clock that never goes back, and every closed
      interval as long as the window: at most `limit` calls in it were allowed. */
  lemma WindowBound(limit: nat, window: nat, calls: seq<Call>, identifier: string, a: int)
    requires Ascending(Nows(calls, identifier))
    ensures BoundHolds(limit, window, calls, identifier, a)
  {
    var nows := Nows(calls, identifier);
    IdentifiersAreIsolated(limit, window, calls, identifier);
    SameAdmitted(limit, window, nows);
    NaiveWindowBound(limit, window, nows, a);
  }

  /** The places of the times in the closed interval from `a` to `b`. */
  function Places(times: seq<int>, a: int, b: int): set<int> {
    set i | 0 <= i < |times| && a <= times[i] <= b
  }

  lemma {:induction false} KeptCount(times: seq<int>, start: int, now: int)
    requires forall i :: 0 <= i < |times| ==> times[i] <= now
    ensures |Kept(times, start)| == |Places(times, start, now)|
  {
    if times != [] {
      var init, last := times[..|times| - 1], times[|times| - 1];
      KeptCount(init, start, now);
      PlacesSnoc(init, last, start, now);
      assert times == init + [last];
    }
  }

  lemma PlacesSnoc(times: seq<int>, t: int, a: int, b: int)
    ensures |times| !in Places(times, a, b)
    ensures Places(times + [t], a, b) ==
      if a <= t <= b then Places(times, a, b) + {|times|} else Places(times, a, b)
  {
  }

  lemma {:induction false} AdmittedAreCalls(limit: nat, window: nat, nows: seq<int>, now: int)
    requires forall i :: 0 <= i < |nows| ==> nows[i] <= now
    ensures forall i :: 0 <= i < |Admitted(limit, window, nows)| ==> Admitted(limit, window, nows)[i] <= now
  {
    if nows != [] { AdmittedAreCalls(limit, window, nows[..|nows| - 1], now); }
  }

  /** Exactly when a call is allowed, on a clock that never goes back for the caller: when fewer than `limit`
      of its earlier calls allowed lie in the closed window that ends now. */
  lemma AllowedExactly(limit: nat, window: nat, calls: seq<Call>, c: Call)
    requires Ascending(Nows(calls, c.identifier) + [c.now])
    ensures LastAllowed(limit, window, calls + [c]) <==>
      |Places(AllowedTimes(limit, window, calls, c.identifier), c.now - window, c.now)| < limit
  {
    var times := AllowedTimes(limit, window, calls, c.identifier);
    AllowedTimesAre(limit, window, calls, c.identifier, times);
    LastDecision(limit, window, calls, c);
    AdmitsExactly(limit, window, Nows(calls, c.identifier), c.now);
  }

  lemma AllowedTimesAre(limit: nat, window: nat, calls: seq<Call>, identifier: string, times: seq<int>)
    requires times == AllowedTimes(limit, window, calls, identifier)
    ensures times == Admitted(limit, window, Nows(calls, identifier))
  {
    IdentifiersAreIsolated(limit, window, calls, identifier);
  }

  lemma AdmitsExactly(limit: nat, window: nat, nows: seq<int>, now: int)
    requires Ascending(nows + [now])
    ensures Admits(limit, window, Left(limit, window, nows), now) <==>
      |Places(Admitted(limit, window, nows), now - window, now)| < limit
  {
    AscendingPrefix(nows, now);
    SameDecision(limit, window, nows, now);
    SameAdmitted(limit, window, nows);
    AdmittedCount(limit, window, nows, now);
  }

  lemma AdmittedCount(limit: nat, window: nat, nows: seq<int>, now: int)
    requires Ascending(nows) && (nows != [] ==> nows[|nows| - 1] <= now)
    ensures |Kept(Admitted(limit, window, nows), now - window)|
         == |Places(Admitted(limit, window, nows), now - window, now)|
  {
    AscendingBound(nows, now);
    AdmittedAreCalls(limit, window, nows, now);
    KeptCount(Admitted(limit, window, nows), now - window, now);
  }

  lemma AscendingBound(nows: seq<int>, now: int)
    requires Ascending(nows) && (nows != [] ==> nows[|nows| - 1] <= now)
    ensures forall i :: 0 <= i < |nows| ==> nows[i] <= now
  {
  }

  // ---------- any clock ----------

  predicate Apart(times: seq<int>, window: nat) {
    forall i, j :: 0 <= i < j < |times| ==> times[i] + window < times[j]
  }

  /** With a limit of one the list holds just the last allowed time, and allowed times are more than a
      window apart. */
  predicate OneAtATime(window: nat, nows: seq<int>) {
    var times := Admitted(1, window, nows);
    && Left(1, window, nows) == (if times == [] then [] else [times[|times| - 1]])
    && Apart(times, window)
  }

  /** Whatever the clock does. */
  lemma {:induction false} SingleHit(window: nat, nows: seq<int>)
    ensures OneAtATime(window, nows)
  {
    if nows == [] {
      assert Apart([], window);
    } else {
      var init, now := nows[..|nows| - 1], nows[|nows| - 1];
      SingleHit(window, init);
      SingleHitStep(window, init, now);
      assert init + [now] == nows;
    }
  }

  lemma SingleHitStep(window: nat, nows: seq<int>, now: int)
    requires OneAtATime(window, nows)
    ensures OneAtATime(window, nows + [now])
  {
    LeftSnoc(1, window, nows, now);
    SingleHitCall(window, Left(1, window, nows), Admitted(1, window, nows), now);
  }

  lemma SingleHitCall(window: nat, hits: seq<int>, times: seq<int>, now: int)
    requires hits == (if times == [] then [] else [times[|times| - 1]]) && Apart(times, window)
    ensures Admits(1, window, hits, now) ==>
      LeftAfter(1, window, hits, now) == [now] && Apart(times + [now], window)
    ensures !Admits(1, window, hits, now) ==> LeftAfter(1, window, hits, now) == hits
  {
    SingleHitDecision(window, hits, now);
    if Admits(1, window, hits, now) {
      ApartSnoc(times, now, window);
    }
  }

  lemma ApartSnoc(times: seq<int>, now: int, window: nat)
    requires Apart(times, window) && (times != [] ==> times[|times| - 1] + window < now)
    ensures Apart(times + [now], window)
  {
  }

  lemma KeptOfOne(t: int, start: int)
    ensures Kept([t], start) == if start <= t then [t] else []
  {
    assert [t][..0] == [] && [] + [t] == [t];
  }

  lemma SingleHitDecision(window: nat, hits: seq<int>, now: int)
    requires |hits| <= 1
    ensures Admits(1, window, hits, now) <==> hits == [] || hits[0] + window < now
    ensures LeftAfter(1, window, hits, now) == if Admits(1, window, hits, now) then [now] else hits
  {
    if hits != [] {
      assert hits == [hits[0]];
      KeptOfOne(hits[0], now - window);
    }
  }

  lemma {:induction false} ApartMeansOne(times: seq<int>, a: int, window: nat)
    requires Apart(times, window)
    ensures |Between(times, a, a + window)| <= 1
    ensures times != [] && times[|times| - 1] < a ==> Between(times, a, a + window) == []
  {
    if times != [] {
      ApartMeansOne(times[..|times| - 1], a, window);
    }
  }

  lemma {:induction false} KeptAll(times: seq<int>, start: int)
    requires forall i :: 0 <= i < |times| ==> start <= times[i]
    ensures Kept(times, start) == times
  {
    if times != [] {
      KeptAll(times[..|times| - 1], start);
      assert times == times[..|times| - 1] + [times[|times| - 1]];
    }
  }

  lemma {:induction false} KeptNone(times: seq<int>, start: int)
    requires forall i :: 0 <= i < |times| ==> times[i] < start
    ensures Kept(times, start) == []
  {
    if times != [] { KeptNone(times[..|times| - 1], start); }
  }

  lemma {:induction false} BetweenAll(times: seq<int>, a: int, b: int)
    requires forall i :: 0 <= i < |times| ==> a <= times[i] <= b
    ensures Between(times, a, b) == times
  {
    if times != [] {
      BetweenAll(times[..|times| - 1], a, b);
      assert times == times[..|times| - 1] + [times[|times| - 1]];
    }
  }

  /** No more than `limit` calls within one window, in any order, are all allowed and all kept. */
  lemma {:induction false} BurstIsAdmitted(limit: nat, window: nat, nows: seq<int>, a: int)
    requires |nows| <= limit && forall i :: 0 <= i < |nows| ==> a <= nows[i] <= a + window
    ensures Left(limit, window, nows) == nows
    ensures Admitted(limit, window, nows) == nows
  {
    if nows != [] {
      var init, now := nows[..|nows| - 1], nows[|nows| - 1];
      BurstIsAdmitted(limit, window, init, a);
      BurstStep(limit, window, init, now, a);
      assert nows == init + [now];
    }
  }

  lemma BurstStep(limit: nat, window: nat, nows: seq<int>, now: int, a: int)
    requires Left(limit, window, nows) == nows && Admitted(limit, window, nows) == nows && |nows| < limit
    requires a <= now <= a + window && forall i :: 0 <= i < |nows| ==> a <= nows[i] <= a + window
    ensures Left(limit, window, nows + [now]) == nows + [now] && Admitted(limit, window, nows + [now]) == nows + [now]
  {
    KeptAll(nows, now - window);
    OneMoreKept(limit, window, nows, now);
  }

  lemma OneMoreKept(limit: nat, window: nat, nows: seq<int>, now: int)
    requires Left(limit, window, nows) == nows && Admitted(limit, window, nows) == nows
    requires Kept(nows, now - window) == nows && |nows| < limit
    ensures Left(limit, window, nows + [now]) == nows + [now] && Admitted(limit, window, nows + [now]) == nows + [now]
  {
    LeftSnoc(limit, window, nows, now);
  }

  function Zeros(n: nat): seq<int> {
    seq(n, i => 0)
  }

  /** A full burst, a call one window later that empties the list, and a call for which the clock has
      stepped back to the burst. */
  function SteppedBack(limit: nat, window: nat): seq<int> {
    Zeros(limit) + [window + 1] + [0]
  }

  lemma LateCall(limit: nat, window: nat, burst: seq<int>, late: int)
    requires 1 <= limit && Left(limit, window, burst) == burst && Admitted(limit, window, burst) == burst
    requires forall i :: 0 <= i < |burst| ==> burst[i] < late - window
    ensures Left(limit, window, burst + [late]) == [late] && Admitted(limit, window, burst + [late]) == burst + [late]
  {
    LeftSnoc(limit, window, burst, late);
    ForgetsAll(limit, window, burst, late);
  }

  lemma ForgetsAll(limit: nat, window: nat, times: seq<int>, late: int)
    requires 1 <= limit && forall i :: 0 <= i < |times| ==> times[i] < late - window
    ensures Admits(limit, window, times, late) && LeftAfter(limit, window, times, late) == [late]
  {
    KeptNone(times, late - window);
    assert [] + [late] == [late];
  }

  lemma EarlyCall(limit: nat, window: nat, nows: seq<int>, late: int, now: int)
    requires Admits(limit, window, [late], now)
    requires Left(limit, window, nows) == [late] && Admitted(limit, window, nows) == nows
    ensures Admitted(limit, window, nows + [now]) == nows + [now]
  {
    LeftSnoc(limit, window, nows, now);
  }

  lemma OneHitAdmits(limit: nat, window: nat, late: int, now: int)
    requires 2 <= limit && now - window <= late
    ensures Admits(limit, window, [late], now)
  {
    KeptOfOne(late, now - window);
  }

  lemma SteppedBackIsAdmitted(limit: nat, window: nat, burst: seq<int>)
    requires 2 <= limit && |burst| <= limit && forall i :: 0 <= i < |burst| ==> burst[i] == 0
    ensures Admitted(limit, window, burst + [window + 1] + [0]) == burst + [window + 1] + [0]
  {
    var late: int := window + 1;
    BurstIsAdmitted(limit, window, burst, 0);
    LateCall(limit, window, burst, late);
    OneHitAdmits(limit, window, late, 0);
    EarlyCall(limit, window, burst + [late], late, 0);
  }

  lemma SteppedBackBreaksBound(limit: nat, window: nat)
    requires 2 <= limit
    ensures |Between(SteppedBack(limit, window), 0, window)| == limit + 1
  {
    BetweenAll(Zeros(limit), 0, window);
    BetweenSnoc(Zeros(limit), window + 1, 0, window);
    BetweenSnoc(Zeros(limit) + [window + 1], 0, 0, window);
  }

  function CallsAt(identifier: string, nows: seq<int>): seq<Call> {
    seq(|nows|, i requires 0 <= i < |nows| => Call(identifier, nows[i]))
  }

  lemma {:induction false} NowsOfCallsAt(identifier: string, nows: seq<int>)
    ensures Nows(CallsAt(identifier, nows), identifier) == nows
  {
    if nows != [] {
      var init := nows[..|nows| - 1];
      NowsOfCallsAt(identifier, init);
      assert CallsAt(identifier, nows)[..|nows| - 1] == CallsAt(identifier, init);
    }
  }

  /** On a clock that may step back, a limiter keeps its bound in every run if and only if its limit is one. */
  lemma BoundOnAnyClockIff(limit: nat, window: nat)
    requires 1 <= limit && 1 <= window
    ensures (forall calls, identifier, a :: BoundHolds(limit, window, calls, identifier, a)) <==> limit == 1
  {
    if limit == 1 {
      forall calls, identifier, a ensures BoundHolds(limit, window, calls, identifier, a) {
        IdentifiersAreIsolated(limit, window, calls, identifier);
        SingleHit(window, Nows(calls, identifier));
        ApartMeansOne(AllowedTimes(limit, window, calls, identifier), a, window);
      }
    } else {
      var nows := SteppedBack(limit, window);
      var calls := CallsAt("", nows);
      NowsOfCallsAt("", nows);
      IdentifiersAreIsolated(limit, window, calls, "");
      SteppedBackIsAdmitted(limit, window, Zeros(limit));
      SteppedBackBreaksBound(limit, window);
      assert !BoundHolds(limit, window, calls, "", 0);
    }
  }

  // ---------- remaining ----------

  /** The state after `k` more calls of the same identifier at the same instant. */
  function Burst(limit: nat, window: nat, hits: Hits, c: Call, k: nat): Hits {
    if k == 0 then hits else Allowed(limit, window, Burst(limit, window, hits, c, k - 1), c).1
  }

  lemma CallFills(limit: nat, window: nat, times: seq<int>, now: int)
    ensures var before := |Kept(times, now - window)|;
      |Kept(LeftAfter(limit, window, times, now), now - window)| == if limit <= before then before else before + 1
  {
    KeptAfterCall(limit, window, times, now, now - window);
  }

  /** One call raises the count within its window by one, up to the limit. */
  lemma OneCallFills(limit: nat, window: nat, hits: Hits, c: Call)
    ensures var before := Recent(window, hits, c);
      Recent(window, Allowed(limit, window, hits, c).1, c) == if limit <= before then before else before + 1
  {
    CallStep(limit, window, hits, c, c.identifier);
    CallFills(limit, window, HitsOf(hits, c.identifier), c.now);
  }

  lemma {:induction false} BurstFills(limit: nat, window: nat, hits: Hits, c: Call, k: nat)
    ensures var base, full := Recent(window, hits, c), Recent(window, Burst(limit, window, hits, c, k), c);
      if base + k <= limit then full == base + k else if limit <= base then full == base else full == limit
  {
    if 0 < k {
      BurstFills(limit, window, hits, c, k - 1);
      OneCallFills(limit, window, Burst(limit, window, hits, c, k - 1), c);
    }
  }

  /** `remaining` is exactly the number of further calls at the same instant that would be allowed: of a
      burst of calls, the one after `k` others is allowed if and only if `k` is below it. */
  lemma RemainingIsExact(limit: nat, window: nat, hits: Hits, c: Call, k: nat)
    ensures Allowed(limit, window, Burst(limit, window, hits, c, k), c).0
      <==> k < RemainingCalls(limit, window, hits, c)
  {
    BurstFills(limit, window, hits, c, k);
  }
}
