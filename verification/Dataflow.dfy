/** How results flow along dependencies: the payload of a step is its own base payload
    overlaid with selected keys of the results of its dependencies, in listed order. */
module Dataflow {
  import opened Graphs

  /** The dictionary keys the orchestrator treats specially, and every other string. */
  datatype Key =
    | DocumentAst | BrandProfile | ExtractedContent | Representation | DocumentRepresentation
    | ResearchResult | StrategyResult | PresentationPlan | RenderResult | FileBytes | Filename
    | ArtifactId | SourceArtifactId | KnowledgeResult | ClientIntelligenceResult | AnalyticsResult
    | LearningRules | ClientId | ProjectId | StoreArtifact | OutputFormat
    | OtherKey(name: string)

  /** A JSON-like value; `Opaque` stands for objects whose only visible trait is truthiness. */
  datatype Value = Null | Flag(b: bool) | Text(s: string) | Opaque(tag: nat, truthy: bool)

  type Payload = map<Key, Value>

  const MERGE_KEYS: seq<Key> := [
    DocumentAst, BrandProfile, ExtractedContent, Representation, DocumentRepresentation,
    ResearchResult, StrategyResult, PresentationPlan, RenderResult, FileBytes, Filename,
    ArtifactId, SourceArtifactId, KnowledgeResult, ClientIntelligenceResult, AnalyticsResult,
    LearningRules]

  predicate Truthy(p: Payload, key: Key) {
    key in p &&
    match p[key]
    case Null => false
    case Flag(b) => b
    case Text(s) => s != ""
    case Opaque(_, truthy) => truthy
  }

  /** `p.get(key) is not None` */
  predicate NonNull(p: Payload, key: Key) {
    key in p && p[key] != Null
  }

  function Overlay(p: Payload, result: Payload, keys: seq<Key>): Payload {
    p + (map key | key in keys && NonNull(result, key) :: result[key])
  }

  function MergeResult(keys: seq<Key>, p: Payload, result: Payload): Payload {
    var q := Overlay(p, result, keys);
    if Representation in result && !NonNull(q, DocumentRepresentation)
    then q[DocumentRepresentation := result[Representation]]
    else q
  }

  /** A dependency that has not completed, or completed with an empty result, contributes nothing. */
  function MergeDependency(keys: seq<Key>, p: Payload, d: Id, done: map<Id, Payload>): Payload {
    if d in done && done[d] != map[] then MergeResult(keys, p, done[d]) else p
  }

  function MergeAll(keys: seq<Key>, p: Payload, deps: seq<Id>, done: map<Id, Payload>): Payload {
    if deps == [] then p
    else MergeDependency(keys, MergeAll(keys, p, deps[..|deps| - 1], done), deps[|deps| - 1], done)
  }

  function ApplyDefaults(capability: string, p: Payload): Payload {
    if Truthy(p, ClientId) && Truthy(p, ProjectId) then
      var q := if capability == "document_rendering" then p[StoreArtifact := Flag(true)] else p;
      if capability == "presentation_design" && !Truthy(q, OutputFormat)
      then q[OutputFormat := Text("pptx")]
      else q
    else p
  }

  function Enrich(capability: string, base: Payload, deps: seq<Id>, done: map<Id, Payload>): Payload {
    ApplyDefaults(capability, MergeAll(MERGE_KEYS, base, deps, done))
  }

  /** The orchestrator's loops over dependencies and merge keys compute `Enrich`. */
  method EnrichPayload(capability: string, base: Payload, deps: seq<Id>, done: map<Id, Payload>)
    returns (payload: Payload)
    ensures payload == Enrich(capability, base, deps, done)
  {
    payload := MergeDependencies(MERGE_KEYS, base, deps, done);
    if Truthy(payload, ClientId) && Truthy(payload, ProjectId) {
      if capability == "document_rendering" {
        payload := payload[StoreArtifact := Flag(true)];
      }
      if capability == "presentation_design" && !Truthy(payload, OutputFormat) {
        payload := payload[OutputFormat := Text("pptx")];
      }
    }
  }

  /** The outer loop, over the dependency list. */
  method MergeDependencies(keys: seq<Key>, base: Payload, deps: seq<Id>, done: map<Id, Payload>)
    returns (payload: Payload)
    ensures payload == MergeAll(keys, base, deps, done)
  {
    payload := base;
    for i := 0 to |deps|
      invariant payload == MergeAll(keys, base, deps[..i], done)
    {
      assert deps[..i + 1][..i] == deps[..i];
      if deps[i] in done && done[deps[i]] != map[] {
        var result := done[deps[i]];
        payload := OverlayKeys(payload, result, keys);
        if Representation in result && !NonNull(payload, DocumentRepresentation) {
          payload := payload[DocumentRepresentation := result[Representation]];
        }
      }
    }
    assert deps[..|deps|] == deps;
  }

  /** The inner loop, over the merge keys. */
  method OverlayKeys(p: Payload, result: Payload, keys: seq<Key>) returns (payload: Payload)
    ensures payload == Overlay(p, result, keys)
  {
    payload := p;
    for j := 0 to |keys|
      invariant payload == Overlay(p, result, keys[..j])
    {
      var key := keys[j];
      if key in result && result[key] != Null {
        payload := payload[key := result[key]];
      }
      OverlayOneMore(p, result, keys, j);
    }
    assert keys[..|keys|] == keys;
  }

  lemma OverlayOneMore(p: Payload, result: Payload, keys: seq<Key>, j: nat)
    requires j < |keys|
    ensures Overlay(p, result, keys[..j + 1]) ==
      if NonNull(result, keys[j]) then Overlay(p, result, keys[..j])[keys[j] := result[keys[j]]]
      else Overlay(p, result, keys[..j])
  {
    assert keys[..j + 1] == keys[..j] + [keys[j]];
  }

  /** Dependency `d` offers a usable value for `key`. */
  predicate Offers(done: map<Id, Payload>, d: Id, key: Key) {
    d in done && key in done[d] && done[d][key] != Null
  }

  /** Same entry, or absent from both. */
  predicate SameEntry(p: Payload, q: Payload, key: Key) {
    (key in p <==> key in q) && (key in p ==> p[key] == q[key])
  }

  /** Results that enrichment cannot tell apart when it looks at dependency `d`. */
  ghost predicate SameOffer(done: map<Id, Payload>, done': map<Id, Payload>, d: Id) {
    && (d in done && done[d] != map[] <==> d in done' && done'[d] != map[])
    && (d in done && done[d] != map[] ==> done[d] == done'[d])
  }

  /** Enrichment looks at nothing but the completed results of the listed dependencies. */
  lemma EnrichIsLocal(capability: string, base: Payload, deps: seq<Id>, done: map<Id, Payload>, done': map<Id, Payload>)
    requires forall d :: d in deps ==> SameOffer(done, done', d)
    ensures Enrich(capability, base, deps, done) == Enrich(capability, base, deps, done')
  {
    MergeAllIsLocal(MERGE_KEYS, base, deps, done, done');
  }

  lemma {:induction false} MergeAllIsLocal(keys: seq<Key>, base: Payload, deps: seq<Id>,
                                           done: map<Id, Payload>, done': map<Id, Payload>)
    requires forall d :: d in deps ==> SameOffer(done, done', d)
    ensures MergeAll(keys, base, deps, done) == MergeAll(keys, base, deps, done')
  {
    if deps != [] {
      MergeAllIsLocal(keys, base, deps[..|deps| - 1], done, done');
      assert deps[|deps| - 1] in deps;
    }
  }

  /** Which keys are carried from dependencies: all the orchestrator knows but those the defaults look at or
      set, and no others. */
  lemma CarriedKeys(key: Key)
    ensures key in MERGE_KEYS <==> !key.OtherKey? && key !in {ClientId, ProjectId, StoreArtifact, OutputFormat}
  {
    if !key.OtherKey? && key !in {ClientId, ProjectId, StoreArtifact, OutputFormat} {
      if key in {DocumentAst, BrandProfile, ExtractedContent, Representation, DocumentRepresentation,
                 RenderResult, FileBytes, Filename}
      {
        ContentKeys(key);
      } else {
        ResultKeys(key);
      }
    } else {
      OtherKeysAreNotMerged(key);
    }
  }

  lemma OtherKeysAreNotMerged(key: Key)
    requires key.OtherKey? || key in {ClientId, ProjectId, StoreArtifact, OutputFormat}
    ensures key !in MERGE_KEYS
  {
  }

  lemma ContentKeys(key: Key)
    requires key in {DocumentAst, BrandProfile, ExtractedContent, Representation, DocumentRepresentation,
                     RenderResult, FileBytes, Filename}
    ensures key in MERGE_KEYS
  {
  }

  lemma ResultKeys(key: Key)
    requires key in {ResearchResult, StrategyResult, PresentationPlan, ArtifactId, SourceArtifactId,
                     KnowledgeResult, ClientIntelligenceResult, AnalyticsResult, LearningRules}
    ensures key in MERGE_KEYS
  {
  }

  /** What counts as false: no entry, null, false, the empty string, and objects that are. */
  lemma FalsyValues(p: Payload, key: Key)
    ensures !Truthy(p, key) <==>
      key !in p || p[key] in {Null, Flag(false), Text("")} || (p[key].Opaque? && !p[key].truthy)
  {
  }

  /** The keys the defaults look at or set are not merge keys. */
  lemma DefaultsAreNotMerged()
    ensures ClientId !in MERGE_KEYS && ProjectId !in MERGE_KEYS
    ensures StoreArtifact !in MERGE_KEYS && OutputFormat !in MERGE_KEYS
  {
  }

  lemma DefaultsLeaveOtherKeys(capability: string, p: Payload, key: Key)
    requires key != StoreArtifact && key != OutputFormat
    ensures SameEntry(ApplyDefaults(capability, p), p, key)
  {
  }

  /** For every merge key but the document representation: the last listed dependency with a
      non-null value decides. */
  lemma LastOfferWins(capability: string, base: Payload, deps: seq<Id>, done: map<Id, Payload>, key: Key, i: nat)
    requires !key.OtherKey? && key !in {ClientId, ProjectId, StoreArtifact, OutputFormat}
    requires i < |deps| && Offers(done, deps[i], key)
    requires forall j :: i < j < |deps| ==> !Offers(done, deps[j], key)
    ensures key in Enrich(capability, base, deps, done)
    ensures Enrich(capability, base, deps, done)[key] == done[deps[i]][key]
  {
    CarriedKeys(key);
    LastOfferWinsInMerge(MERGE_KEYS, base, deps, done, key, i);
    DefaultsLeaveOtherKeys(capability, MergeAll(MERGE_KEYS, base, deps, done), key);
  }

  lemma {:induction false} LastOfferWinsInMerge(keys: seq<Key>, base: Payload, deps: seq<Id>,
                                                done: map<Id, Payload>, key: Key, i: nat)
    requires key in keys
    requires i < |deps| && Offers(done, deps[i], key)
    requires forall j :: i < j < |deps| ==> !Offers(done, deps[j], key)
    ensures NonNull(MergeAll(keys, base, deps, done), key)
    ensures MergeAll(keys, base, deps, done)[key] == done[deps[i]][key]
  {
    var last := |deps| - 1;
    if i < last {
      LastOfferWinsInMerge(keys, base, deps[..last], done, key, i);
      NoOfferKeeps(keys, MergeAll(keys, base, deps[..last], done), deps[last], done, key);
    } else {
      OfferWins(keys, MergeAll(keys, base, deps[..last], done), deps[last], done, key);
    }
  }

  lemma OfferWins(keys: seq<Key>, p: Payload, d: Id, done: map<Id, Payload>, key: Key)
    requires key in keys && Offers(done, d, key)
    ensures NonNull(MergeDependency(keys, p, d, done), key)
    ensures MergeDependency(keys, p, d, done)[key] == done[d][key]
  {
  }

  lemma NoOfferKeeps(keys: seq<Key>, p: Payload, d: Id, done: map<Id, Payload>, key: Key)
    requires NonNull(p, key) && !Offers(done, d, key)
    ensures NonNull(MergeDependency(keys, p, d, done), key)
    ensures MergeDependency(keys, p, d, done)[key] == p[key]
  {
  }

  /** A key no dependency offers keeps whatever the base payload says about it; only the document
      representation and the two rendering defaults can appear on their own. */
  lemma UnofferedKeyIsUntouched(capability: string, base: Payload, deps: seq<Id>, done: map<Id, Payload>, key: Key)
    requires
      || key.OtherKey? || key in {ClientId, ProjectId}
      || forall i :: 0 <= i < |deps| ==> !Offers(done, deps[i], key)
    requires key != DocumentRepresentation && key != StoreArtifact && key != OutputFormat
    ensures SameEntry(Enrich(capability, base, deps, done), base, key)
  {
    CarriedKeys(key);
    UnofferedInMerge(MERGE_KEYS, base, deps, done, key);
    DefaultsLeaveOtherKeys(capability, MergeAll(MERGE_KEYS, base, deps, done), key);
  }

  lemma {:induction false} UnofferedInMerge(keys: seq<Key>, base: Payload, deps: seq<Id>, done: map<Id, Payload>,
                                            key: Key)
    requires key !in keys || forall i :: 0 <= i < |deps| ==> !Offers(done, deps[i], key)
    requires key != DocumentRepresentation
    ensures SameEntry(MergeAll(keys, base, deps, done), base, key)
  {
    if deps != [] {
      UnofferedInMerge(keys, base, deps[..|deps| - 1], done, key);
    }
  }

  /** The value of the first listed dependency that offers `key`. */
  function FirstOffer(deps: seq<Id>, done: map<Id, Payload>, key: Key): Option<Value> {
    if deps == [] then None
    else
      var earlier := FirstOffer(deps[..|deps| - 1], done, key);
      var d := deps[|deps| - 1];
      if earlier.None? && Offers(done, d, key) then Some(done[d][key]) else earlier
  }

  lemma {:induction false} FirstOfferIsFirst(deps: seq<Id>, done: map<Id, Payload>, key: Key)
    ensures FirstOffer(deps, done, key).None? <==> forall i :: 0 <= i < |deps| ==> !Offers(done, deps[i], key)
    ensures FirstOffer(deps, done, key).Some? ==>
      exists i :: && 0 <= i < |deps| && Offers(done, deps[i], key)
                  && FirstOffer(deps, done, key) == Some(done[deps[i]][key])
                  && forall j :: 0 <= j < i ==> !Offers(done, deps[j], key)
  {
    if deps != [] {
      var last := |deps| - 1;
      var init := deps[..last];
      FirstOfferIsFirst(init, done, key);
      assert forall i :: 0 <= i < last ==> init[i] == deps[i];
      if FirstOffer(init, done, key).Some? {
        var i :| && 0 <= i < |init| && Offers(done, init[i], key)
                 && FirstOffer(init, done, key) == Some(done[init[i]][key])
                 && forall j :: 0 <= j < i ==> !Offers(done, init[j], key);
        assert Offers(done, deps[i], key);
      }
    }
  }

  /** Dependency `d` has an entry for `key`, null or not. */
  predicate HasKey(done: map<Id, Payload>, d: Id, key: Key) {
    d in done && key in done[d]
  }

  /** Without an explicit document representation from any dependency, a non-null base value stays,
      and otherwise the first non-null plain `representation` is promoted, if there is one; if all plain ones
      are null, so is the entry. (With an
      explicit one, `LastOfferWins` applies, even over a plain `representation` listed later.) */
  lemma RepresentationIsPromoted(capability: string, base: Payload, deps: seq<Id>, done: map<Id, Payload>)
    requires forall i :: 0 <= i < |deps| ==> !Offers(done, deps[i], DocumentRepresentation)
    ensures var p := Enrich(capability, base, deps, done);
      if NonNull(base, DocumentRepresentation) then SameEntry(p, base, DocumentRepresentation)
      else match FirstOffer(deps, done, Representation)
        case Some(v) => DocumentRepresentation in p && p[DocumentRepresentation] == v
        case None =>
          if DocumentRepresentation in base || exists i :: 0 <= i < |deps| && HasKey(done, deps[i], Representation)
          then DocumentRepresentation in p && p[DocumentRepresentation] == Null
          else DocumentRepresentation !in p
  {
    PromotionInMerge(MERGE_KEYS, base, deps, done);
  }

  lemma {:induction false} PromotionInMerge(keys: seq<Key>, base: Payload, deps: seq<Id>, done: map<Id, Payload>)
    requires forall i :: 0 <= i < |deps| ==> !Offers(done, deps[i], DocumentRepresentation)
    ensures var p := MergeAll(keys, base, deps, done);
      if NonNull(base, DocumentRepresentation) then SameEntry(p, base, DocumentRepresentation)
      else match FirstOffer(deps, done, Representation)
        case Some(v) => NonNull(p, DocumentRepresentation) && p[DocumentRepresentation] == v
        case None =>
          if DocumentRepresentation in base || exists i :: 0 <= i < |deps| && HasKey(done, deps[i], Representation)
          then DocumentRepresentation in p && p[DocumentRepresentation] == Null
          else DocumentRepresentation !in p
  {
    FirstOfferIsFirst(deps, done, Representation);
    if deps != [] {
      PromotionInMerge(keys, base, deps[..|deps| - 1], done);
      FirstOfferIsFirst(deps[..|deps| - 1], done, Representation);
      assert !Offers(done, deps[|deps| - 1], DocumentRepresentation);
    }
  }

  /** The rendering defaults depend on the base payload's client and project alone, and the output format
      only fills a gap. */
  lemma RenderingDefaults(capability: string, base: Payload, deps: seq<Id>, done: map<Id, Payload>)
    ensures var p := Enrich(capability, base, deps, done);
      var inProject := Truthy(base, ClientId) && Truthy(base, ProjectId);
      && (if inProject && capability == "document_rendering" then StoreArtifact in p && p[StoreArtifact] == Flag(true)
          else SameEntry(p, base, StoreArtifact))
      && (if inProject && capability == "presentation_design" && !Truthy(base, OutputFormat)
          then OutputFormat in p && p[OutputFormat] == Text("pptx")
          else SameEntry(p, base, OutputFormat))
  {
    DefaultsAreNotMerged();
    UnofferedInMerge(MERGE_KEYS, base, deps, done, ClientId);
    UnofferedInMerge(MERGE_KEYS, base, deps, done, ProjectId);
    UnofferedInMerge(MERGE_KEYS, base, deps, done, StoreArtifact);
    UnofferedInMerge(MERGE_KEYS, base, deps, done, OutputFormat);
    DefaultsDependOnProject(capability, base, MergeAll(MERGE_KEYS, base, deps, done));
  }

  lemma DefaultsDependOnProject(capability: string, base: Payload, merged: Payload)
    requires SameEntry(merged, base, ClientId) && SameEntry(merged, base, ProjectId)
    requires SameEntry(merged, base, StoreArtifact) && SameEntry(merged, base, OutputFormat)
    ensures var p := ApplyDefaults(capability, merged);
      var inProject := Truthy(base, ClientId) && Truthy(base, ProjectId);
      && (if inProject && capability == "document_rendering" then StoreArtifact in p && p[StoreArtifact] == Flag(true)
          else SameEntry(p, base, StoreArtifact))
      && (if inProject && capability == "presentation_design" && !Truthy(base, OutputFormat)
          then OutputFormat in p && p[OutputFormat] == Text("pptx")
          else SameEntry(p, base, OutputFormat))
  {
  }
}
