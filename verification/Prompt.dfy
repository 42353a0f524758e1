/**
 The prompt projection of a decision context, what its trust split guarantees,
 and the context fingerprint. SHA-256 and canonical JSON are parameters.
 */
module Prompt {
  import opened Common
  import opened Projections
  import opened Packing
  import opened Budget
  import opened PromptTree
  import opened Fingerprints
  import opened Sides

  datatype ObservationView = ObservationView(
    obsType: string, status: string, stepId: string, nodeId: string, failureCode: string,
    failureReason: string, outputSummary: string)

  datatype WorkItem = WorkItem(stepId: string, stepType: string)

  datatype CriticRecommendation = CriticRecommendation(
    recommendation: string, confidence: Number, semanticFailureType: string, reasonSummary: string)

  /** The fields of a decision context that the prompt can show. */
  datatype DecisionContext = DecisionContext(
    decisionType: DecisionType,
    planVersion: int,
    goal: string,
    goalType: string,
    currentStepId: string,
    currentNodeId: string,
    observation: Option<ObservationView>,
    executionEvidence: seq<EvidenceRef>,
    trajectorySummary: map<string, Val>,
    completedWorkSummary: seq<WorkItem>,
    remainingObjectives: seq<string>,
    budgetSnapshot: map<string, Val>,
    truncated: bool,
    criticRecommendation: Option<CriticRecommendation>
  )

  function Sys(s: string): Val {
    Str(System, s)
  }

  function Text(s: string): Val {
    Str(Free, s)
  }

  function DecisionName(d: DecisionType): string {
    match d case Critic => "critic" case SemanticReplan => "semantic_replan" case Assessment => "assessment"
  }

  function TrustName(t: TrustClass): string {
    match t
    case T0System => "T0_SYSTEM"
    case T1Tool => "T1_TOOL"
    case T2Agent => "T2_AGENT"
    case T3Knowledge => "T3_KNOWLEDGE"
    case T4External => "T4_EXTERNAL"
  }

  function ObservationNode(o: Option<ObservationView>): Val {
    var obs := if o.Some? then o.value else ObservationView("", "", "", "", "", "", "");
    Dict(map[
      "type" := Sys(obs.obsType), "status" := Sys(obs.status), "stepId" := Sys(obs.stepId),
      "nodeId" := Sys(obs.nodeId), "failureCode" := Sys(obs.failureCode),
      "failureReason" := Text(obs.failureReason), "outputSummary" := Text(obs.outputSummary)])
  }

  function EvidenceNode(e: EvidenceRef): Val {
    Dict(map[
      "evidenceId" := Sys(e.evidenceId), "sourceType" := Sys(e.sourceType),
      "trustClass" := Sys(TrustName(e.trustClass)), "summary" := Text(e.summary)])
  }

  function WorkNode(w: WorkItem): Val {
    Dict(map["stepId" := Sys(w.stepId), "stepType" := Sys(w.stepType)])
  }

  function RecommendationNode(r: Option<CriticRecommendation>): Val {
    var rec := if r.Some? then r.value else CriticRecommendation("", FloatNumber(ZERO), "", "");
    Dict(map[
      "recommendation" := Sys(rec.recommendation), "confidence" := Scalar(rec.confidence),
      "semanticFailureType" := Text(rec.semanticFailureType), "reasonSummary" := Text(rec.reasonSummary)])
  }

  function EvidenceNodes(es: seq<EvidenceRef>): Val {
    List(seq(|es|, i requires 0 <= i < |es| => EvidenceNode(es[i])))
  }

  function WorkNodes(ws: seq<WorkItem>): Val {
    List(seq(|ws|, i requires 0 <= i < |ws| => WorkNode(ws[i])))
  }

  function TextNodes(os: seq<string>): Val {
    List(seq(|os|, i requires 0 <= i < |os| => Text(os[i])))
  }

  const PROMPT_FIELDS: set<string> := {
    "decisionType", "planVersion", "goal", "goalType", "currentStepId", "currentNodeId", "observation",
    "executionEvidence", "trajectorySummary", "completedWorkSummary", "remainingObjectives", "budgetSnapshot", "truncated"
  }

  function Entry(ctx: DecisionContext, k: string): Val {
    if k == "goal" then Text(ctx.goal)
    else if k == "observation" then ObservationNode(ctx.observation)
    else if k == "executionEvidence" then EvidenceNodes(ctx.executionEvidence)
    else if k == "remainingObjectives" then TextNodes(ctx.remainingObjectives)
    else if k == "criticRecommendation" then RecommendationNode(ctx.criticRecommendation)
    else if k == "trajectorySummary" then Dict(ctx.trajectorySummary)
    else if k == "budgetSnapshot" then Dict(ctx.budgetSnapshot)
    else if k == "completedWorkSummary" then WorkNodes(ctx.completedWorkSummary)
    else if k == "decisionType" then Sys(DecisionName(ctx.decisionType))
    else if k == "planVersion" then Scalar(IntNumber(ctx.planVersion))
    else if k == "goalType" then Sys(ctx.goalType)
    else if k == "currentStepId" then Sys(ctx.currentStepId)
    else if k == "currentNodeId" then Sys(ctx.currentNodeId)
    else Scalar(BoolValue(ctx.truncated))
  }

  function PromptFields(ctx: DecisionContext): set<string> {
    if ctx.decisionType == SemanticReplan then PROMPT_FIELDS + {"criticRecommendation"} else PROMPT_FIELDS
  }

  function Payload(ctx: DecisionContext): map<string, Val> {
    map k | k in PromptFields(ctx) :: Entry(ctx, k)
  }

  function PromptProjection(ctx: DecisionContext): Val {
    Dict(Payload(ctx))
  }

  // ---- the split of a prompt --------------------------------------------------

  /** The texts of outside origin in the prompt, and where they stand. */
  ghost predicate IsOutsideText(ctx: DecisionContext, path: seq<Step>, s: string) {
    || (path == [Key("goal")] && s == ctx.goal)
    || (ctx.observation.Some? && path == [Key("observation"), Key("failureReason")] && s == ctx.observation.value.failureReason)
    || (ctx.observation.Some? && path == [Key("observation"), Key("outputSummary")] && s == ctx.observation.value.outputSummary)
    || (exists i: nat :: i < |ctx.executionEvidence|
          && path == [Key("executionEvidence"), Idx(i), Key("summary")] && s == ctx.executionEvidence[i].summary)
    || (exists i: nat :: i < |ctx.remainingObjectives|
          && path == [Key("remainingObjectives"), Idx(i)] && s == ctx.remainingObjectives[i])
    || (ctx.decisionType == SemanticReplan && ctx.criticRecommendation.Some?
          && path == [Key("criticRecommendation"), Key("reasonSummary")] && s == ctx.criticRecommendation.value.reasonSummary)
    || (ctx.decisionType == SemanticReplan && ctx.criticRecommendation.Some?
          && path == [Key("criticRecommendation"), Key("semanticFailureType")]
          && s == ctx.criticRecommendation.value.semanticFailureType)
  }

  lemma AtField(v: Val, k: string, rest: seq<Step>)
    requires v.Dict? && k in v.fields
    ensures At(v, [Key(k)] + rest) == At(v.fields[k], rest)
  {
    assert ([Key(k)] + rest)[1..] == rest;
  }

  lemma AtItem(v: Val, i: nat, rest: seq<Step>)
    requires v.List? && i < |v.items|
    ensures At(v, [Idx(i)] + rest) == At(v.items[i], rest)
  {
    assert ([Idx(i)] + rest)[1..] == rest;
  }

  lemma OutsideTextIsMarked(ctx: DecisionContext, path: seq<Step>, s: string)
    requires IsOutsideText(ctx, path, s)
    ensures At(PromptProjection(ctx), path) == Some(Text(s))
  {
    var prompt := PromptProjection(ctx);
    var k := path[0].k;
    assert path == [Key(k)] + path[1..];
    AtField(prompt, k, path[1..]);
    var node := Entry(ctx, k);
    if node.List? {
      var i := path[1].i;
      assert path[1..] == [Idx(i)] + path[2..];
      AtItem(node, i, path[2..]);
      if |path| > 2 {
        assert path[2..] == [Key("summary")] + [];
        AtField(node.items[i], "summary", []);
      }
    } else if node.Dict? {
      assert path[1..] == [Key(path[1].k)] + [];
      AtField(node, path[1].k, []);
    }
  }

  /** Outside text is shown in the untrusted half, where it stood, and its place in the trusted half is free of text. */
  lemma OutsideTextStaysUntrusted(ctx: DecisionContext, path: seq<Step>, s: string)
    requires IsOutsideText(ctx, path, s)
    ensures var h := Walk(PromptProjection(ctx));
            && h.untrusted.Some? && At(h.untrusted.value, path) == Some(Plain(s))
            && (h.trusted.Some? ==> !(At(h.trusted.value, path).Some? && At(h.trusted.value, path).value.Str?))
  {
    OutsideTextIsMarked(ctx, path, s);
    var v := PromptProjection(ctx);
    UntrustedLeavesKeepPath(v, path, Free, s);
    var h := Walk(v);
    if h.trusted.Some? && At(h.trusted.value, path).Some? && At(h.trusted.value, path).value.Str? {
      var leaf := At(h.trusted.value, path).value;
      TrustedLeavesAreSystem(v, path, leaf.marker, leaf.s);
    }
  }

  lemma FlatItemsSeparable(items: seq<Val>)
    requires forall i | 0 <= i < |items| :: Separable(items[i])
    requires forall i, k | 0 <= i < |items| && items[i].Dict? && k in items[i].fields :: items[i].fields[k].Str?
    ensures Separable(List(items))
  {
  }

  lemma EvidenceNodesSeparable(es: seq<EvidenceRef>)
    ensures Separable(EvidenceNodes(es))
  {
    FlatItemsSeparable(EvidenceNodes(es).items);
  }

  lemma WorkNodesSeparable(ws: seq<WorkItem>)
    ensures Separable(WorkNodes(ws))
  {
    FlatItemsSeparable(WorkNodes(ws).items);
  }

  lemma TextNodesSeparable(os: seq<string>)
    ensures Separable(TextNodes(os))
  {
    FlatItemsSeparable(TextNodes(os).items);
  }

  lemma FixedEntriesSeparable(ctx: DecisionContext, k: string)
    requires k != "trajectorySummary" && k != "budgetSnapshot"
    ensures Separable(Entry(ctx, k))
  {
    EvidenceNodesSeparable(ctx.executionEvidence);
    WorkNodesSeparable(ctx.completedWorkSummary);
    TextNodesSeparable(ctx.remainingObjectives);
  }

  /** Splitting a prompt loses nothing exactly when its two free-form summaries can be split without loss. */
  lemma PromptSplitLosesNothingIff(ctx: DecisionContext)
    ensures Rebuilt(PromptProjection(ctx)) == Norm(PromptProjection(ctx))
            <==> Separable(Dict(ctx.trajectorySummary)) && Separable(Dict(ctx.budgetSnapshot))
  {
    SplitLosesNothingIff(PromptProjection(ctx));
    var payload := Payload(ctx);
    forall k | k in payload && k != "trajectorySummary" && k != "budgetSnapshot"
      ensures Separable(payload[k])
    {
      FixedEntriesSeparable(ctx, k);
    }
    assert payload["trajectorySummary"] == Dict(ctx.trajectorySummary);
    assert payload["budgetSnapshot"] == Dict(ctx.budgetSnapshot);
  }

  // ---- the fingerprint ---------------------------------------------------------

  function ContextFingerprint(h: string -> string, canon: Val -> string, ctx: DecisionContext): string {
    h(canon(Fingerprint(h, PromptProjection(ctx))))
  }

  lemma SameFingerprintSameTree(h: string -> string, canon: Val -> string, a: DecisionContext, b: DecisionContext)
    requires Injective(h) && Injective(canon)
    ensures ContextFingerprint(h, canon, a) == ContextFingerprint(h, canon, b)
            <==> Fingerprint(h, PromptProjection(a)) == Fingerprint(h, PromptProjection(b))
  {
    var fa, fb := Fingerprint(h, PromptProjection(a)), Fingerprint(h, PromptProjection(b));
    assert h(canon(fa)) == h(canon(fb)) ==> canon(fa) == canon(fb);
  }

  /** The two summaries are the only parts of a prompt whose shape is not fixed. */
  ghost predicate SummariesAlike(same: (Val, Val) -> bool, a: DecisionContext, b: DecisionContext) {
    same(Dict(a.trajectorySummary), Dict(b.trajectorySummary)) && same(Dict(a.budgetSnapshot), Dict(b.budgetSnapshot))
  }

  ghost predicate SummariesSeparable(ctx: DecisionContext) {
    Separable(Dict(ctx.trajectorySummary)) && Separable(Dict(ctx.budgetSnapshot))
  }

  predicate IsSummary(k: string) {
    k == "trajectorySummary" || k == "budgetSnapshot"
  }

  lemma ObservationsSameKinds(a: Option<ObservationView>, b: Option<ObservationView>)
    ensures SameKinds(ObservationNode(a), ObservationNode(b))
  {
    var v, w := ObservationNode(a), ObservationNode(b);
    forall k | k in v.fields && k in w.fields
      ensures v.fields[k].Str? && w.fields[k].Str? && v.fields[k].marker == w.fields[k].marker
    {
    }
  }

  lemma RecommendationsSameKinds(a: Option<CriticRecommendation>, b: Option<CriticRecommendation>)
    ensures SameKinds(RecommendationNode(a), RecommendationNode(b))
  {
    var v, w := RecommendationNode(a), RecommendationNode(b);
    forall k | k in v.fields && k in w.fields
      ensures (v.fields[k].Scalar? && w.fields[k].Scalar?)
           || (v.fields[k].Str? && w.fields[k].Str? && v.fields[k].marker == w.fields[k].marker)
    {
    }
  }

  lemma EvidenceSameKinds(a: EvidenceRef, b: EvidenceRef)
    ensures SameKinds(EvidenceNode(a), EvidenceNode(b))
  {
    var v, w := EvidenceNode(a), EvidenceNode(b);
    forall k | k in v.fields && k in w.fields
      ensures v.fields[k].Str? && w.fields[k].Str? && v.fields[k].marker == w.fields[k].marker
    {
    }
  }

  lemma WorkSameKinds(a: WorkItem, b: WorkItem)
    ensures SameKinds(WorkNode(a), WorkNode(b))
  {
    var v, w := WorkNode(a), WorkNode(b);
    forall k | k in v.fields && k in w.fields
      ensures v.fields[k].Str? && w.fields[k].Str? && v.fields[k].marker == w.fields[k].marker
    {
    }
  }

  lemma EvidenceListsSameKinds(a: seq<EvidenceRef>, b: seq<EvidenceRef>)
    ensures SameKinds(EvidenceNodes(a), EvidenceNodes(b))
  {
    forall i | 0 <= i < |a| && i < |b| { EvidenceSameKinds(a[i], b[i]); }
  }

  lemma WorkListsSameKinds(a: seq<WorkItem>, b: seq<WorkItem>)
    ensures SameKinds(WorkNodes(a), WorkNodes(b))
  {
    forall i | 0 <= i < |a| && i < |b| { WorkSameKinds(a[i], b[i]); }
  }

  lemma TextListsSameKinds(a: seq<string>, b: seq<string>)
    ensures SameKinds(TextNodes(a), TextNodes(b))
  {
  }

  lemma FixedEntriesSameKinds(a: DecisionContext, b: DecisionContext, k: string)
    requires !IsSummary(k)
    ensures SameKinds(Entry(a, k), Entry(b, k))
  {
    if k == "observation" {
      ObservationsSameKinds(a.observation, b.observation);
    } else if k == "criticRecommendation" {
      RecommendationsSameKinds(a.criticRecommendation, b.criticRecommendation);
    } else if k == "executionEvidence" {
      EvidenceListsSameKinds(a.executionEvidence, b.executionEvidence);
    } else if k == "completedWorkSummary" {
      WorkListsSameKinds(a.completedWorkSummary, b.completedWorkSummary);
    } else if k == "remainingObjectives" {
      TextListsSameKinds(a.remainingObjectives, b.remainingObjectives);
    }
  }

  lemma SummaryEntries(ctx: DecisionContext)
    ensures "trajectorySummary" in Payload(ctx) && Payload(ctx)["trajectorySummary"] == Dict(ctx.trajectorySummary)
    ensures "budgetSnapshot" in Payload(ctx) && Payload(ctx)["budgetSnapshot"] == Dict(ctx.budgetSnapshot)
    ensures "truncated" in Payload(ctx) && Payload(ctx)["truncated"] == Scalar(BoolValue(ctx.truncated))
  {
  }

  lemma PromptsSameKinds(a: DecisionContext, b: DecisionContext)
    requires SummariesAlike(SameKinds, a, b)
    ensures SameKinds(PromptProjection(a), PromptProjection(b))
  {
    var p, q := Payload(a), Payload(b);
    SummaryEntries(a);
    SummaryEntries(b);
    forall k | k in p && k in q
      ensures SameKinds(p[k], q[k])
    {
      if !IsSummary(k) {
        FixedEntriesSameKinds(a, b, k);
      }
    }
  }

  lemma PromptSeparable(ctx: DecisionContext)
    requires SummariesSeparable(ctx)
    ensures Separable(PromptProjection(ctx))
  {
    var p := Payload(ctx);
    SummaryEntries(ctx);
    forall k | k in p
      ensures Separable(p[k])
    {
      if !IsSummary(k) {
        FixedEntriesSeparable(ctx, k);
      }
    }
  }

  // ---- only the summaries can have gaps --------------------------------------------

  predicate IsLeaf(v: Val) {
    v.Str? || v.Scalar? || v.EnumVal?
  }

  predicate IsRecord(v: Val) {
    v.Dict? && v.fields != map[] && forall k | k in v.fields :: IsLeaf(v.fields[k])
  }

  /** Leaves, dicts of leaves, and lists of either leave nothing out. */
  predicate IsPlainEntry(v: Val) {
    || IsLeaf(v) || IsRecord(v)
    || (v.List? && forall i | 0 <= i < |v.items| :: IsLeaf(v.items[i]) || IsRecord(v.items[i]))
  }

  lemma RecordsSameGaps(v: Val, w: Val)
    requires (IsLeaf(v) || IsRecord(v)) && (IsLeaf(w) || IsRecord(w))
    ensures !Gone(v) && !Gone(w) && SameGaps(v, w)
  {
    if v.Dict? {
      var k :| k in v.fields;
      assert IsLeaf(v.fields[k]) && !Gone(v.fields[k]);
    }
    if w.Dict? {
      var k :| k in w.fields;
      assert IsLeaf(w.fields[k]) && !Gone(w.fields[k]);
    }
  }

  lemma PlainEntriesSameGaps(v: Val, w: Val)
    requires IsPlainEntry(v) && IsPlainEntry(w)
    ensures !Gone(v) && !Gone(w) && SameGaps(v, w)
  {
    if v.List? && w.List? {
      forall i | 0 <= i < |v.items| && i < |w.items|
        ensures SameGaps(v.items[i], w.items[i])
      {
        RecordsSameGaps(v.items[i], w.items[i]);
      }
    } else if !v.List? && !w.List? {
      RecordsSameGaps(v, w);
    } else if v.List? {
      RecordsSameGaps(w, w);
    } else {
      RecordsSameGaps(v, v);
    }
  }

  lemma NodesArePlain(ctx: DecisionContext)
    ensures IsRecord(ObservationNode(ctx.observation)) && IsRecord(RecommendationNode(ctx.criticRecommendation))
  {
    assert "type" in ObservationNode(ctx.observation).fields;
    assert "confidence" in RecommendationNode(ctx.criticRecommendation).fields;
  }

  lemma ListsArePlain(ctx: DecisionContext)
    ensures IsPlainEntry(EvidenceNodes(ctx.executionEvidence))
    ensures IsPlainEntry(WorkNodes(ctx.completedWorkSummary))
    ensures IsPlainEntry(TextNodes(ctx.remainingObjectives))
  {
    forall e: EvidenceRef
      ensures IsRecord(EvidenceNode(e))
    {
      assert "summary" in EvidenceNode(e).fields;
    }
    forall w: WorkItem
      ensures IsRecord(WorkNode(w))
    {
      assert "stepId" in WorkNode(w).fields;
    }
  }

  lemma FixedEntriesArePlain(ctx: DecisionContext, k: string)
    requires !IsSummary(k)
    ensures IsPlainEntry(Entry(ctx, k))
  {
    NodesArePlain(ctx);
    ListsArePlain(ctx);
  }

  lemma FixedEntriesSameGaps(a: DecisionContext, b: DecisionContext, k: string)
    requires !IsSummary(k)
    ensures !Gone(Entry(a, k)) && !Gone(Entry(b, k)) && SameGaps(Entry(a, k), Entry(b, k))
  {
    FixedEntriesArePlain(a, k);
    FixedEntriesArePlain(b, k);
    PlainEntriesSameGaps(Entry(a, k), Entry(b, k));
  }

  /**
   Dicts with a lasting entry leave out the same exactly when no entry of only one is left out
   and the common ones agree.
   */
  lemma LastingDictsSameGapsIff(p: map<string, Val>, q: map<string, Val>, k: string)
    requires k in p && k in q && !Gone(p[k]) && !Gone(q[k])
    requires forall j | (j in p && j !in q) :: !Gone(p[j])
    requires forall j | (j in q && j !in p) :: !Gone(q[j])
    ensures SameGaps(Dict(p), Dict(q)) <==> forall j | j in p && j in q :: SameGaps(p[j], q[j])
  {
  }

  /** Two prompts leave out the same exactly when their summaries do. */
  lemma PromptsSameGapsIff(a: DecisionContext, b: DecisionContext)
    ensures SameGaps(PromptProjection(a), PromptProjection(b)) <==> SummariesAlike(SameGaps, a, b)
  {
    var p, q := Payload(a), Payload(b);
    SummaryEntries(a);
    SummaryEntries(b);
    forall k | !IsSummary(k)
      ensures !Gone(Entry(a, k)) && !Gone(Entry(b, k)) && SameGaps(Entry(a, k), Entry(b, k))
    {
      FixedEntriesSameGaps(a, b, k);
    }
    LastingDictsSameGapsIff(p, q, "truncated");
  }

  // ---- what the fingerprint says about what is shown -----------------------------------

  /**
   Two contexts have the same fingerprint exactly when the model is shown the same
   two halves and the summaries leave out the same: the fingerprint hashes None
   values and empty dicts, which are not shown.
   */
  lemma SameFingerprintIffSamePrompt(h: string -> string, canon: Val -> string, a: DecisionContext, b: DecisionContext)
    requires Injective(h) && Injective(canon)
    requires SummariesAlike(SameKinds, a, b) && SummariesSeparable(a) && SummariesSeparable(b)
    ensures ContextFingerprint(h, canon, a) == ContextFingerprint(h, canon, b)
            <==> Walk(PromptProjection(a)) == Walk(PromptProjection(b)) && SummariesAlike(SameGaps, a, b)
  {
    SameFingerprintSameTree(h, canon, a, b);
    PromptsSameKinds(a, b);
    PromptSeparable(a);
    PromptSeparable(b);
    PromptsSameGapsIff(a, b);
    FingerprintIsHalvesAndGaps(h, PromptProjection(a), PromptProjection(b));
  }

  /**
   Whatever the summaries hold, as long as their strings are of the same kinds, equal
   fingerprints mean the same prompt.
   */
  lemma SameFingerprintShowsTheSame(h: string -> string, canon: Val -> string, a: DecisionContext, b: DecisionContext)
    requires Injective(h) && Injective(canon) && SummariesAlike(SameKinds, a, b)
    requires ContextFingerprint(h, canon, a) == ContextFingerprint(h, canon, b)
    ensures Walk(PromptProjection(a)) == Walk(PromptProjection(b))
  {
    SameFingerprintSameTree(h, canon, a, b);
    PromptsSameKinds(a, b);
    FingerprintPinsTree(h, PromptProjection(a), PromptProjection(b));
  }

  lemma FixedEntriesShownAlike(h: string -> string, a: DecisionContext, b: DecisionContext, k: string)
    requires Injective(h) && !IsSummary(k) && Fingerprint(h, Entry(a, k)) == Fingerprint(h, Entry(b, k))
    ensures Walk(Entry(a, k)) == Walk(Entry(b, k))
  {
    FixedEntriesSameKinds(a, b, k);
    FingerprintPinsTree(h, Entry(a, k), Entry(b, k));
  }

  lemma PayloadsShownAlikeIff(h: string -> string, a: DecisionContext, b: DecisionContext)
    requires Injective(h) && Fingerprint(h, Dict(Payload(a))) == Fingerprint(h, Dict(Payload(b)))
    ensures Walk(Dict(Payload(a))) == Walk(Dict(Payload(b)))
       <==> SummariesAlike((v, w) => Walk(v) == Walk(w), a, b)
  {
    var p, q := Payload(a), Payload(b);
    FingerprintFields(h, p, q);
    SummaryEntries(a);
    SummaryEntries(b);
    forall k | k in p && !IsSummary(k)
      ensures Walk(p[k]) == Walk(q[k])
    {
      FixedEntriesShownAlike(h, a, b, k);
    }
    SummariesDecide(p, q);
  }

  lemma SummariesDecide(p: map<string, Val>, q: map<string, Val>)
    requires p.Keys == q.Keys && "trajectorySummary" in p && "budgetSnapshot" in p
    requires forall k | k in p && !IsSummary(k) :: Walk(p[k]) == Walk(q[k])
    ensures Walk(Dict(p)) == Walk(Dict(q))
       <==> Walk(p["trajectorySummary"]) == Walk(q["trajectorySummary"]) && Walk(p["budgetSnapshot"]) == Walk(q["budgetSnapshot"])
  {
    SameHalvesSameParts(p, q);
  }

  lemma SummariesHashedAlike(h: string -> string, a: DecisionContext, b: DecisionContext)
    requires Fingerprint(h, Dict(Payload(a))) == Fingerprint(h, Dict(Payload(b)))
    ensures SummariesAlike((v, w) => Fingerprint(h, v) == Fingerprint(h, w), a, b)
  {
    FingerprintFields(h, Payload(a), Payload(b));
    SummaryEntries(a);
    SummaryEntries(b);
  }

  /**
   Contexts with one fingerprint, whose summaries hold free text at the same places:
   the model is shown the same exactly when no string of a summary changed sides,
   which the fingerprint does not tell.
   */
  lemma ShownAlikeIffSummariesKeepSides(h: string -> string, canon: Val -> string, a: DecisionContext, b: DecisionContext)
    requires Injective(h) && Injective(canon) && SummariesAlike(SameTextPlaces, a, b)
    requires ContextFingerprint(h, canon, a) == ContextFingerprint(h, canon, b)
    ensures Walk(PromptProjection(a)) == Walk(PromptProjection(b)) <==> SummariesAlike(SameSides, a, b)
  {
    SameFingerprintSameTree(h, canon, a, b);
    SummariesHashedAlike(h, a, b);
    PayloadsShownAlikeIff(h, a, b);
    ShownAlikeIffSameSides(h, Dict(a.trajectorySummary), Dict(b.trajectorySummary));
    ShownAlikeIffSameSides(h, Dict(a.budgetSnapshot), Dict(b.budgetSnapshot));
  }

  // ---- contexts as the assembler builds them ---------------------------------------------------

  /** The trajectory metrics; each may be missing. */
  datatype Trajectory = Trajectory(
    revisionCount: Option<int>, replanCount: Option<int>, recoveryAttempts: Option<int>, budgetExhaustions: Option<int>,
    loopStops: Option<int>, toolDenials: Option<int>, trajectoryLength: Option<int>, finalOutcome: Option<string>)

  function Metric(o: Option<int>): Val {
    if o.Some? then Scalar(IntNumber(o.value)) else Null
  }

  const TRAJECTORY_FIELDS: set<string> := {
    "revisionCount", "replanCount", "recoveryAttempts", "budgetExhaustions", "loopStops", "toolDenials",
    "trajectoryLength", "finalOutcome"
  }

  function TrajectoryField(t: Trajectory, k: string): Val {
    if k == "revisionCount" then Metric(t.revisionCount)
    else if k == "replanCount" then Metric(t.replanCount)
    else if k == "recoveryAttempts" then Metric(t.recoveryAttempts)
    else if k == "budgetExhaustions" then Metric(t.budgetExhaustions)
    else if k == "loopStops" then Metric(t.loopStops)
    else if k == "toolDenials" then Metric(t.toolDenials)
    else if k == "trajectoryLength" then Metric(t.trajectoryLength)
    else if t.finalOutcome.Some? then Plain(t.finalOutcome.value)
    else Null
  }

  /** Without a trajectory, an empty dict; otherwise every field, with None for a missing metric. */
  function TrajectorySummary(t: Option<Trajectory>): map<string, Val> {
    if t.None? then map[] else map k | k in TRAJECTORY_FIELDS :: TrajectoryField(t.value, k)
  }

  function Whole(n: int): Val {
    Scalar(IntNumber(n))
  }

  function LimitsNode(m: Limits): Val {
    Dict(map[
      "maxSteps" := Whole(m.maxSteps), "maxReplans" := Whole(m.maxReplans), "maxRetries" := Whole(m.maxRetries),
      "maxToolCalls" := Whole(m.maxToolCalls), "maxLlmCalls" := Whole(m.maxLlmCalls), "maxCriticCalls" := Whole(m.maxCriticCalls),
      "maxAssessments" := Whole(m.maxAssessments), "maxTotalSeconds" := Whole(m.maxTotalSeconds)])
  }

  /** `clocked` gives the float that holds the elapsed seconds. */
  function UsageNode(u: Usage, clocked: real -> Float): Val {
    Dict(map[
      "stepsUsed" := Whole(u.stepsUsed), "replansUsed" := Whole(u.replansUsed), "retriesUsed" := Whole(u.retriesUsed),
      "toolCallsUsed" := Whole(u.toolCallsUsed), "llmCallsUsed" := Whole(u.llmCallsUsed),
      "criticCallsUsed" := Whole(u.criticCallsUsed), "assessmentCallsUsed" := Whole(u.assessmentCallsUsed),
      "activeElapsedSeconds" := Scalar(FloatNumber(clocked(u.activeElapsedSeconds)))])
  }

  function RemainingNode(m: Limits, u: Usage): Val {
    Dict(map[
      "stepsUsed" := Whole(Max(0, m.maxSteps - u.stepsUsed)), "replansUsed" := Whole(Max(0, m.maxReplans - u.replansUsed)),
      "retriesUsed" := Whole(Max(0, m.maxRetries - u.retriesUsed)),
      "toolCallsUsed" := Whole(Max(0, m.maxToolCalls - u.toolCallsUsed)),
      "llmCallsUsed" := Whole(Max(0, m.maxLlmCalls - u.llmCallsUsed)),
      "criticCallsUsed" := Whole(Max(0, m.maxCriticCalls - u.criticCallsUsed)),
      "assessmentCallsUsed" := Whole(Max(0, m.maxAssessments - u.assessmentCallsUsed))])
  }

  function BudgetSnapshot(l: Option<LineageValue>, clocked: real -> Float): map<string, Val> {
    if l.None? then map[]
    else map[
      "limits" := LimitsNode(l.value.limits), "usage" := UsageNode(l.value.usage, clocked),
      "remaining" := RemainingNode(l.value.limits, l.value.usage)]
  }

  /** A context whose summaries come from this trajectory and this lineage. */
  predicate AssembledFrom(ctx: DecisionContext, t: Option<Trajectory>, l: Option<LineageValue>, clocked: real -> Float) {
    ctx.trajectorySummary == TrajectorySummary(t) && ctx.budgetSnapshot == BudgetSnapshot(l, clocked)
  }

  predicate IsNumberRecord(v: Val) {
    IsRecord(v) && forall k | k in v.fields :: v.fields[k].Scalar?
  }

  /** One field is an outcome, the others are numbers; any of them may be None. */
  lemma TrajectoryFieldKind(t: Trajectory, k: string)
    ensures var v := TrajectoryField(t, k);
            v.Null? || (if k in TRAJECTORY_FIELDS && k != "finalOutcome" then v.Scalar? else v.Str? && v.marker == Unmarked)
  {
  }

  lemma TrajectoriesSameKinds(s: Option<Trajectory>, t: Option<Trajectory>)
    ensures SameKinds(Dict(TrajectorySummary(s)), Dict(TrajectorySummary(t)))
    ensures Listless(Dict(TrajectorySummary(s)))
  {
    var p, q := TrajectorySummary(s), TrajectorySummary(t);
    forall k | k in p
      ensures Listless(p[k]) && (k in q ==> SameKinds(p[k], q[k]))
    {
      TrajectoryFieldKind(s.value, k);
      if k in q {
        TrajectoryFieldKind(t.value, k);
      }
    }
  }

  lemma BudgetNodesAreNumbers(l: LineageValue, clocked: real -> Float)
    ensures IsNumberRecord(LimitsNode(l.limits)) && IsNumberRecord(UsageNode(l.usage, clocked))
    ensures IsNumberRecord(RemainingNode(l.limits, l.usage))
  {
    assert "maxSteps" in LimitsNode(l.limits).fields;
    assert "stepsUsed" in UsageNode(l.usage, clocked).fields;
    assert "stepsUsed" in RemainingNode(l.limits, l.usage).fields;
  }

  lemma SnapshotOfRecords(l: Option<LineageValue>, clocked: real -> Float)
    ensures forall k | k in BudgetSnapshot(l, clocked) :: IsNumberRecord(BudgetSnapshot(l, clocked)[k])
    ensures l.Some? ==> BudgetSnapshot(l, clocked).Keys == {"limits", "usage", "remaining"}
  {
    if l.Some? {
      BudgetNodesAreNumbers(l.value, clocked);
    }
  }

  lemma NumberRecordsSameKinds(v: Val, w: Val)
    requires IsNumberRecord(v) && IsNumberRecord(w)
    ensures SameKinds(v, w) && Listless(v) && SameGaps(v, w) && !Gone(v)
  {
    RecordsSameGaps(v, w);
  }

  lemma SnapshotsSameKinds(l: Option<LineageValue>, m: Option<LineageValue>, clocked: real -> Float)
    ensures SameKinds(Dict(BudgetSnapshot(l, clocked)), Dict(BudgetSnapshot(m, clocked)))
    ensures Listless(Dict(BudgetSnapshot(l, clocked)))
    ensures SameGaps(Dict(BudgetSnapshot(l, clocked)), Dict(BudgetSnapshot(m, clocked))) <==> (l.None? <==> m.None?)
    ensures Walk(Dict(BudgetSnapshot(l, clocked))).trusted.Some? <==> l.Some?
  {
    var p, q := BudgetSnapshot(l, clocked), BudgetSnapshot(m, clocked);
    SnapshotOfRecords(l, clocked);
    SnapshotOfRecords(m, clocked);
    forall k | k in p
      ensures Listless(p[k]) && !Gone(p[k]) && (k in q ==> SameKinds(p[k], q[k]) && SameGaps(p[k], q[k]))
    {
      NumberRecordsSameKinds(p[k], p[k]);
      if k in q {
        NumberRecordsSameKinds(p[k], q[k]);
      }
    }
    SnapshotIsShown(l, clocked);
    SnapshotNotGone(l, clocked);
    SnapshotNotGone(m, clocked);
  }

  lemma SnapshotIsShown(l: Option<LineageValue>, clocked: real -> Float)
    ensures Walk(Dict(BudgetSnapshot(l, clocked))).trusted.Some? <==> l.Some?
  {
    var p := BudgetSnapshot(l, clocked);
    HalvesPresent(Dict(p));
    if l.Some? {
      SnapshotOfRecords(l, clocked);
      var u := p["limits"];
      var k :| k in u.fields;
      assert HasTrusted(u.fields[k]);
      assert HasTrusted(u);
    }
  }

  lemma SnapshotNotGone(l: Option<LineageValue>, clocked: real -> Float)
    ensures Gone(Dict(BudgetSnapshot(l, clocked))) <==> l.None?
  {
    SnapshotIsShown(l, clocked);
    GoneMeansNothingLeft(Dict(BudgetSnapshot(l, clocked)));
    HalvesPresent(Dict(BudgetSnapshot(l, clocked)));
  }

  lemma TrajectoryShownAlike(s: Trajectory, t: Trajectory, k: string)
    requires Walk(TrajectoryField(s, k)) == Walk(TrajectoryField(t, k))
    ensures TrajectoryField(s, k) == TrajectoryField(t, k)
  {
  }

  lemma TrajectoriesSameGapsIff(s: Option<Trajectory>, t: Option<Trajectory>)
    requires Walk(Dict(TrajectorySummary(s))) == Walk(Dict(TrajectorySummary(t)))
    ensures SameGaps(Dict(TrajectorySummary(s)), Dict(TrajectorySummary(t))) <==> (s.None? <==> t.None?)
  {
    var p, q := TrajectorySummary(s), TrajectorySummary(t);
    if s.Some? && t.Some? {
      forall k | k in p
        ensures p[k] == q[k]
      {
        SameHalvesSamePart(p, q, k);
        TrajectoryShownAlike(s.value, t.value, k);
      }
      assert p == q;
      SameGapsWithItself(Dict(p));
    } else if s.Some? {
      assert "finalOutcome" in p;
    } else if t.Some? {
      assert "finalOutcome" in q;
    }
  }

  /**
   For the contexts the assembler builds, the fingerprint identifies what the model
   is shown but for one case: one run has no trajectory, the other one without a
   single metric.
   */
  lemma AssembledFingerprintIff(
      h: string -> string, canon: Val -> string, a: DecisionContext, b: DecisionContext,
      s: Option<Trajectory>, t: Option<Trajectory>, l: Option<LineageValue>, m: Option<LineageValue>, clocked: real -> Float)
    requires Injective(h) && Injective(canon)
    requires AssembledFrom(a, s, l, clocked) && AssembledFrom(b, t, m, clocked)
    ensures ContextFingerprint(h, canon, a) == ContextFingerprint(h, canon, b)
            <==> Walk(PromptProjection(a)) == Walk(PromptProjection(b)) && (s.None? <==> t.None?)
  {
    TrajectoriesSameKinds(s, t);
    SnapshotsSameKinds(l, m, clocked);
    AssembledIsSeparable(a, s, l, clocked);
    AssembledIsSeparable(b, t, m, clocked);
    SameFingerprintIffSamePrompt(h, canon, a, b);
    if Walk(PromptProjection(a)) == Walk(PromptProjection(b)) {
      AssembledSameGapsIff(a, b, s, t, l, m, clocked);
    }
  }

  lemma AssembledIsSeparable(ctx: DecisionContext, t: Option<Trajectory>, l: Option<LineageValue>, clocked: real -> Float)
    requires AssembledFrom(ctx, t, l, clocked)
    ensures SummariesSeparable(ctx)
  {
    TrajectoriesSameKinds(t, t);
    SnapshotsSameKinds(l, l, clocked);
    ListlessIsSeparable(Dict(ctx.trajectorySummary));
    ListlessIsSeparable(Dict(ctx.budgetSnapshot));
  }

  lemma AssembledSameGapsIff(
      a: DecisionContext, b: DecisionContext, s: Option<Trajectory>, t: Option<Trajectory>,
      l: Option<LineageValue>, m: Option<LineageValue>, clocked: real -> Float)
    requires AssembledFrom(a, s, l, clocked) && AssembledFrom(b, t, m, clocked)
    requires Walk(Dict(Payload(a))) == Walk(Dict(Payload(b)))
    ensures SummariesAlike(SameGaps, a, b) <==> (s.None? <==> t.None?)
  {
    SummaryEntries(a);
    SummaryEntries(b);
    SameHalvesSamePart(Payload(a), Payload(b), "trajectorySummary");
    SameHalvesSamePart(Payload(a), Payload(b), "budgetSnapshot");
    TrajectoriesSameGapsIff(s, t);
    SnapshotsSameKinds(l, m, clocked);
    SnapshotIsShown(m, clocked);
  }

  // ---- the conditions are needed ------------------------------------------------------------

  lemma PayloadWithTrajectory(ctx: DecisionContext, m: map<string, Val>)
    ensures Payload(ctx.(trajectorySummary := m)) == Payload(ctx)["trajectorySummary" := Dict(m)]
  {
  }

  lemma FieldIsHashed(h: string -> string, p: map<string, Val>, k: string, v: Val, w: Val)
    ensures Fingerprint(h, Dict(p[k := v])) == Fingerprint(h, Dict(p[k := w])) <==> Fingerprint(h, v) == Fingerprint(h, w)
  {
    if Fingerprint(h, Dict(p[k := v])) == Fingerprint(h, Dict(p[k := w])) {
      FingerprintFields(h, p[k := v], p[k := w]);
      assert p[k := v][k] == v && p[k := w][k] == w;
    } else {
      SameFieldsSameFingerprint(h, p[k := v], p[k := w]);
    }
  }

  lemma TrajectoryIsHashed(h: string -> string, ctx: DecisionContext, m: map<string, Val>, n: map<string, Val>)
    ensures Fingerprint(h, PromptProjection(ctx.(trajectorySummary := m))) == Fingerprint(h, PromptProjection(ctx.(trajectorySummary := n)))
            <==> Fingerprint(h, Dict(m)) == Fingerprint(h, Dict(n))
  {
    PayloadWithTrajectory(ctx, m);
    PayloadWithTrajectory(ctx, n);
    FieldIsHashed(h, Payload(ctx), "trajectorySummary", Dict(m), Dict(n));
  }

  lemma SameFieldsSameFingerprint(h: string -> string, a: map<string, Val>, b: map<string, Val>)
    requires a.Keys == b.Keys
    ensures (forall k | k in a :: Fingerprint(h, a[k]) == Fingerprint(h, b[k])) ==> Fingerprint(h, Dict(a)) == Fingerprint(h, Dict(b))
  {
  }

  lemma FieldIsShown(p: map<string, Val>, k: string, v: Val, w: Val)
    ensures Walk(Dict(p[k := v])) == Walk(Dict(p[k := w])) <==> Walk(v) == Walk(w)
  {
    SameHalvesSameParts(p[k := v], p[k := w]);
    assert p[k := v][k] == v && p[k := w][k] == w;
  }

  lemma TrajectoryIsShown(ctx: DecisionContext, m: map<string, Val>, n: map<string, Val>)
    ensures Walk(PromptProjection(ctx.(trajectorySummary := m))) == Walk(PromptProjection(ctx.(trajectorySummary := n)))
            <==> Walk(Dict(m)) == Walk(Dict(n))
  {
    PayloadWithTrajectory(ctx, m);
    PayloadWithTrajectory(ctx, n);
    FieldIsShown(Payload(ctx), "trajectorySummary", Dict(m), Dict(n));
  }

  function Outcome(v: Val): map<string, Val> {
    map["finalOutcome" := v]
  }

  lemma NoneIsNotShown()
    ensures Walk(Dict(Outcome(Null))) == Walk(Dict(map[]))
  {
    HalvesFromParts(Outcome(Null));
    HalvesFromParts(map[]);
    assert Trusteds(Parts(Outcome(Null))) == map[] && Untrusteds(Parts(Outcome(Null))) == map[];
  }

  lemma MissingKeyIsHashed(h: string -> string, v: Val)
    ensures Fingerprint(h, Dict(Outcome(v))) != Fingerprint(h, Dict(map[]))
  {
    assert "finalOutcome" in Fingerprint(h, Dict(Outcome(v))).fields;
  }

  /** Whether an outcome is None or missing is hashed, but the model is shown the same prompt. */
  lemma NoneIsHashedNotShown(h: string -> string, canon: Val -> string, ctx: DecisionContext)
    requires Injective(h) && Injective(canon)
    ensures var a, b := ctx.(trajectorySummary := Outcome(Null)), ctx.(trajectorySummary := map[]);
            && Walk(PromptProjection(a)) == Walk(PromptProjection(b))
            && ContextFingerprint(h, canon, a) != ContextFingerprint(h, canon, b)
  {
    NoneIsNotShown();
    MissingKeyIsHashed(h, Null);
    TrajectoryIsShown(ctx, Outcome(Null), map[]);
    TrajectoryIsHashed(h, ctx, Outcome(Null), map[]);
    SameFingerprintSameTree(h, canon, ctx.(trajectorySummary := Outcome(Null)), ctx.(trajectorySummary := map[]));
  }

  /** Whether a value is an enum or a plain string is not hashed, but it decides in which half the model is shown it. */
  lemma EnumCrossesUnseen(h: string -> string, canon: Val -> string, ctx: DecisionContext, s: string)
    requires Injective(h) && Injective(canon)
    ensures var a, b := ctx.(trajectorySummary := Outcome(EnumVal(s))), ctx.(trajectorySummary := Outcome(Plain(s)));
            && ContextFingerprint(h, canon, a) == ContextFingerprint(h, canon, b)
            && Walk(PromptProjection(a)) != Walk(PromptProjection(b))
  {
    SameFieldsSameFingerprint(h, Outcome(EnumVal(s)), Outcome(Plain(s)));
    SameHalvesSameParts(Outcome(EnumVal(s)), Outcome(Plain(s)));
    assert Outcome(EnumVal(s))["finalOutcome"] == EnumVal(s) && Outcome(Plain(s))["finalOutcome"] == Plain(s);
    TrajectoryIsShown(ctx, Outcome(EnumVal(s)), Outcome(Plain(s)));
    TrajectoryIsHashed(h, ctx, Outcome(EnumVal(s)), Outcome(Plain(s)));
    SameFingerprintSameTree(h, canon, ctx.(trajectorySummary := Outcome(EnumVal(s))), ctx.(trajectorySummary := Outcome(Plain(s))));
  }

  /** A system string may spell out the hash of a text. */
  lemma FingerprintCanBeSpelledOut(h: string -> string)
    ensures var v, w := Text(""), Sys("h:" + h(""));
            Fingerprint(h, v) == Fingerprint(h, w) && Walk(v) != Walk(w)
  {
  }
}
