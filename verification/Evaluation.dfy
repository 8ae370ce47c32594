/** What a plan computes, defined by recursion on dependencies alone, with no scheduling in it. */
module Evaluation {
  import opened Graphs
  import opened Dataflow
  import opened Models
  import opened Protocol

  /** The first attempt from `attempt` on that returns, if one does within the retry bound. */
  ghost function Attempts(cfg: Config, id: Id, payload: Payload, attempt: nat): Option<Payload>
    requires 1 <= attempt <= MAX_STEP_RETRIES
    decreases MAX_STEP_RETRIES - attempt
  {
    match cfg.skill(id, payload, attempt)
    case Returned(result) => Some(result)
    case Raised => if attempt < MAX_STEP_RETRIES then Attempts(cfg, id, payload, attempt + 1) else None
  }

  /** Attempt `k` is the first from `attempt` on that returns. */
  predicate ReturnsFirst(cfg: Config, id: Id, payload: Payload, attempt: nat, k: nat) {
    && attempt <= k && cfg.skill(id, payload, k).Returned?
    && forall j :: attempt <= j < k ==> cfg.skill(id, payload, j) == Raised
  }

  /** Three attempts are made at most, and the first that returns gives the result. */
  lemma AttemptsAreThree(cfg: Config, id: Id, payload: Payload)
    ensures Attempts(cfg, id, payload, 1).Some? <==> exists k: nat :: k <= 3 && ReturnsFirst(cfg, id, payload, 1, k)
    ensures forall k: nat :: k <= 3 && ReturnsFirst(cfg, id, payload, 1, k) ==>
      Attempts(cfg, id, payload, 1) == Some(cfg.skill(id, payload, k).result)
  {
    AttemptsFrom(cfg, id, payload, 1);
  }

  lemma {:induction false} AttemptsFrom(cfg: Config, id: Id, payload: Payload, attempt: nat)
    requires 1 <= attempt <= MAX_STEP_RETRIES
    ensures Attempts(cfg, id, payload, attempt).Some? <==>
      exists k: nat :: k <= MAX_STEP_RETRIES && ReturnsFirst(cfg, id, payload, attempt, k)
    ensures forall k: nat :: k <= MAX_STEP_RETRIES && ReturnsFirst(cfg, id, payload, attempt, k) ==>
      Attempts(cfg, id, payload, attempt) == Some(cfg.skill(id, payload, k).result)
    decreases MAX_STEP_RETRIES - attempt
  {
    if cfg.skill(id, payload, attempt).Returned? {
      assert ReturnsFirst(cfg, id, payload, attempt, attempt);
    } else if attempt < MAX_STEP_RETRIES {
      var next := attempt + 1;
      AttemptsFrom(cfg, id, payload, next);
      forall k: nat | k <= MAX_STEP_RETRIES
        ensures ReturnsFirst(cfg, id, payload, attempt, k) <==> ReturnsFirst(cfg, id, payload, next, k)
      {
      }
      if k: nat :| k <= MAX_STEP_RETRIES && ReturnsFirst(cfg, id, payload, next, k) {
        assert ReturnsFirst(cfg, id, payload, attempt, k);
      }
    }
  }

  /** The result of a grounded step: None when the plan has no such step, when some dependency has no
      result, or when every attempt fails on the payload built from the dependencies' results. */
  ghost function Eval(cfg: Config, id: Id): Option<Payload>
    requires Grounded(cfg.graph, id)
    decreases Depth(cfg.graph, id), 2
  {
    DepsAreShallower(cfg.graph, id);
    if id !in cfg.planned || exists d :: d in cfg.graph.deps[id] && Eval(cfg, d).None? then None
    else Attempts(cfg, id, EvalPayload(cfg, id), 1)
  }

  /** The payload of a step, built from the results its dependencies have. */
  ghost function EvalPayload(cfg: Config, id: Id): Payload
    requires Grounded(cfg.graph, id)
    decreases Depth(cfg.graph, id), 1
  {
    GroundedIsNode(cfg.graph, id);
    Enrich(cfg.capability(id), cfg.base(id), cfg.graph.deps[id], EvalDone(cfg, id))
  }

  /** The results dependencies have. */
  ghost function EvalDone(cfg: Config, id: Id): map<Id, Payload>
    requires Grounded(cfg.graph, id)
    decreases Depth(cfg.graph, id), 0
  {
    DepsAreShallower(cfg.graph, id);
    map d | d in cfg.graph.deps[id] && Eval(cfg, d).Some? :: Eval(cfg, d).value
  }

  /** The evaluated result of `d` has a usable value for `key`. */
  ghost predicate EvalOffers(cfg: Config, d: Id, key: Key) {
    Grounded(cfg.graph, d) && Eval(cfg, d).Some? && key in Eval(cfg, d).value && Eval(cfg, d).value[key] != Null
  }

  lemma EvalOffersIs(cfg: Config, id: Id, d: Id, key: Key)
    requires Grounded(cfg.graph, id) && id in cfg.graph.deps && d in cfg.graph.deps[id]
    ensures Offers(EvalDone(cfg, id), d, key) <==> EvalOffers(cfg, d, key)
    ensures EvalOffers(cfg, d, key) ==> EvalDone(cfg, id)[d] == Eval(cfg, d).value
  {
    DepsAreShallower(cfg.graph, id);
  }

  /** A step's payload carries, for every key but the base payload's own, the value from the last listed
      dependency whose result has one. */
  lemma PayloadCarriesResults(cfg: Config, id: Id, key: Key, i: nat)
    requires Grounded(cfg.graph, id) && id in cfg.graph.deps && i < |cfg.graph.deps[id]|
    requires !key.OtherKey? && key !in {ClientId, ProjectId, StoreArtifact, OutputFormat}
    requires EvalOffers(cfg, cfg.graph.deps[id][i], key)
    requires forall j :: i < j < |cfg.graph.deps[id]| ==> !EvalOffers(cfg, cfg.graph.deps[id][j], key)
    ensures key in EvalPayload(cfg, id)
    ensures EvalPayload(cfg, id)[key] == Eval(cfg, cfg.graph.deps[id][i]).value[key]
  {
    var deps, done := cfg.graph.deps[id], EvalDone(cfg, id);
    forall j | 0 <= j < |deps| ensures Offers(done, deps[j], key) <==> EvalOffers(cfg, deps[j], key) {
      EvalOffersIs(cfg, id, deps[j], key);
    }
    EvalOffersIs(cfg, id, deps[i], key);
    LastOfferWins(cfg.capability(id), cfg.base(id), deps, done, key, i);
  }

  /** What no dependency offers comes from the base payload. */
  lemma PayloadKeepsBase(cfg: Config, id: Id, key: Key)
    requires Grounded(cfg.graph, id) && id in cfg.graph.deps
    requires key != DocumentRepresentation && key != StoreArtifact && key != OutputFormat
    requires
      || key.OtherKey? || key in {ClientId, ProjectId}
      || forall d :: d in cfg.graph.deps[id] ==> !EvalOffers(cfg, d, key)
    ensures SameEntry(EvalPayload(cfg, id), cfg.base(id), key)
  {
    var deps, done := cfg.graph.deps[id], EvalDone(cfg, id);
    forall j | 0 <= j < |deps| ensures Offers(done, deps[j], key) <==> EvalOffers(cfg, deps[j], key) {
      EvalOffersIs(cfg, id, deps[j], key);
    }
    UnofferedKeyIsUntouched(cfg.capability(id), cfg.base(id), deps, done, key);
  }

  lemma NoResultAfterFailedDependency(cfg: Config, id: Id, d: Id)
    requires Grounded(cfg.graph, id) && id in cfg.graph.deps && d in cfg.graph.deps[id]
    requires Grounded(cfg.graph, d) && Eval(cfg, d).None?
    ensures Eval(cfg, id).None?
  {
  }

  lemma EvalIsAttempts(cfg: Config, id: Id)
    requires Grounded(cfg.graph, id) && id in cfg.graph.deps && id in cfg.planned
    requires forall d :: d in cfg.graph.deps[id] ==> Grounded(cfg.graph, d) && Eval(cfg, d).Some?
    ensures Eval(cfg, id) == Attempts(cfg, id, EvalPayload(cfg, id), 1)
  {
  }

  /** `EvalPayload` is what the running system computes once every dependency has completed with the
      result evaluation gives it, whatever other steps have completed by then. */
  lemma PayloadIsEvalPayload(cfg: Config, steps: Steps, id: Id)
    requires Grounded(cfg.graph, id) && id in cfg.graph.deps
    requires forall d :: d in cfg.graph.deps[id] ==>
      Grounded(cfg.graph, d) && Eval(cfg, d).Some? && d in CompletedResults(steps)
      && CompletedResults(steps)[d] == Eval(cfg, d).value
    ensures PayloadFor(cfg, steps, id) == EvalPayload(cfg, id)
  {
    var deps := cfg.graph.deps[id];
    var done := EvalDone(cfg, id);
    forall d | d in deps ensures SameOffer(CompletedResults(steps), done, d) {
      assert d in done && done[d] == CompletedResults(steps)[d];
    }
    EnrichIsLocal(cfg.capability(id), cfg.base(id), deps, CompletedResults(steps), done);
  }

  /** A step that fails although all its dependencies have a result: its own attempts all raised, or
      the plan does not contain it. */
  ghost predicate FailsOnItsOwn(cfg: Config, id: Id)
    requires Grounded(cfg.graph, id)
  {
    DepsAreShallower(cfg.graph, id);
    && (forall d :: d in cfg.graph.deps[id] ==> Eval(cfg, d).Some?)
    && (id !in cfg.planned || Attempts(cfg, id, EvalPayload(cfg, id), 1).None?)
  }

  /** Every failure has a culprit: following dependencies from a step without a result one arrives at a
      step that failed on its own; and conversely nothing downstream of such a step has a result. */
  lemma {:induction false} FailureHasCulprit(cfg: Config, id: Id) returns (chain: seq<Id>)
    requires Grounded(cfg.graph, id) && Eval(cfg, id).None?
    ensures IsChain(cfg.graph, chain) && chain[0] == id
    ensures Grounded(cfg.graph, chain[|chain| - 1]) && FailsOnItsOwn(cfg, chain[|chain| - 1])
    decreases Depth(cfg.graph, id)
  {
    DepsAreShallower(cfg.graph, id);
    if d :| d in cfg.graph.deps[id] && Eval(cfg, d).None? {
      var rest := FailureHasCulprit(cfg, d);
      ChainGrows(cfg.graph, id, rest);
      chain := [id] + rest;
    } else {
      chain := [id];
    }
  }

  /** `chain` leads from `id` along dependencies to a step that fails on its own. */
  ghost predicate LeadsToCulprit(cfg: Config, id: Id, chain: seq<Id>) {
    && IsChain(cfg.graph, chain) && chain[0] == id
    && Grounded(cfg.graph, chain[|chain| - 1]) && FailsOnItsOwn(cfg, chain[|chain| - 1])
  }

  ghost predicate HasCulprit(cfg: Config, id: Id) {
    exists chain :: LeadsToCulprit(cfg, id, chain)
  }

  /** Every node has a fate: evaluation reaches it, or a failure up its dependencies does. */
  ghost predicate Settleable(cfg: Config) {
    forall id :: id in cfg.graph.deps ==> Grounded(cfg.graph, id) || HasCulprit(cfg, id)
  }

  /** Whatever depends on a node with a culprit has one. */
  lemma CulpritIsInherited(cfg: Config, id: Id, d: Id)
    requires id in cfg.graph.deps && d in cfg.graph.deps[id] && HasCulprit(cfg, d)
    ensures HasCulprit(cfg, id)
  {
    var rest :| LeadsToCulprit(cfg, d, rest);
    ChainGrows(cfg.graph, id, rest);
    assert LeadsToCulprit(cfg, id, [id] + rest);
  }

  lemma {:induction false} CulpritSpoilsDependents(cfg: Config, chain: seq<Id>)
    requires IsChain(cfg.graph, chain) && Grounded(cfg.graph, chain[0])
    requires Grounded(cfg.graph, chain[|chain| - 1]) && FailsOnItsOwn(cfg, chain[|chain| - 1])
    ensures Eval(cfg, chain[0]).None?
    decreases |chain|
  {
    if 1 < |chain| {
      ChainTail(cfg.graph, chain);
      DependencyIsShallower(cfg.graph, chain[0], chain[1]);
      CulpritSpoilsDependents(cfg, chain[1..]);
      NoResultAfterFailedDependency(cfg, chain[0], chain[1]);
    }
  }
}
