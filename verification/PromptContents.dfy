/**
 What a prompt says: every identifier, status and number of a decision context stands
 at its own place, and the model is shown it in the half it belongs to.
 */
module PromptContents {
  import opened Common
  import opened Packing
  import opened Budget
  import opened PromptTree
  import opened Prompt

  // ---- identifiers and codes ------------------------------------------------------------

  ghost predicate IsObservationText(o: ObservationView, path: seq<Step>, s: string) {
    || (path == [Key("observation"), Key("type")] && s == o.obsType)
    || (path == [Key("observation"), Key("status")] && s == o.status)
    || (path == [Key("observation"), Key("stepId")] && s == o.stepId)
    || (path == [Key("observation"), Key("nodeId")] && s == o.nodeId)
    || (path == [Key("observation"), Key("failureCode")] && s == o.failureCode)
  }

  /** The texts that come from the system itself, outside the evidence, and where they stand. */
  ghost predicate IsSystemText(ctx: DecisionContext, path: seq<Step>, s: string) {
    || (path == [Key("decisionType")]
        && s == match ctx.decisionType
                case Critic => "critic" case SemanticReplan => "semantic_replan" case Assessment => "assessment")
    || (path == [Key("goalType")] && s == ctx.goalType)
    || (path == [Key("currentStepId")] && s == ctx.currentStepId)
    || (path == [Key("currentNodeId")] && s == ctx.currentNodeId)
    || (ctx.observation.Some? && IsObservationText(ctx.observation.value, path, s))
    || (ctx.decisionType == SemanticReplan && ctx.criticRecommendation.Some?
        && path == [Key("criticRecommendation"), Key("recommendation")] && s == ctx.criticRecommendation.value.recommendation)
  }

  /** The steps already completed. */
  ghost predicate IsWorkText(ctx: DecisionContext, path: seq<Step>, s: string) {
    exists i: nat | i < |ctx.completedWorkSummary| ::
      || (path == [Key("completedWorkSummary"), Idx(i), Key("stepId")] && s == ctx.completedWorkSummary[i].stepId)
      || (path == [Key("completedWorkSummary"), Idx(i), Key("stepType")] && s == ctx.completedWorkSummary[i].stepType)
  }

  /** What identifies an evidence entry. */
  ghost predicate IsEvidenceLabel(ctx: DecisionContext, path: seq<Step>, s: string) {
    exists i: nat | i < |ctx.executionEvidence| ::
      || (path == [Key("executionEvidence"), Idx(i), Key("evidenceId")] && s == ctx.executionEvidence[i].evidenceId)
      || (path == [Key("executionEvidence"), Idx(i), Key("sourceType")] && s == ctx.executionEvidence[i].sourceType)
      || (path == [Key("executionEvidence"), Idx(i), Key("trustClass")]
          && s == match ctx.executionEvidence[i].trustClass
                  case T0System => "T0_SYSTEM" case T1Tool => "T1_TOOL" case T2Agent => "T2_AGENT"
                  case T3Knowledge => "T3_KNOWLEDGE" case T4External => "T4_EXTERNAL")
  }

  lemma AtPair(v: Val, k: string, j: string)
    requires v.Dict? && k in v.fields && v.fields[k].Dict? && j in v.fields[k].fields
    ensures At(v, [Key(k), Key(j)]) == Some(v.fields[k].fields[j])
  {
    AtField(v, k, [Key(j)]);
    AtField(v.fields[k], j, []);
    assert [Key(k)] + [Key(j)] == [Key(k), Key(j)] && [Key(j)] + [] == [Key(j)];
  }

  lemma AtOne(v: Val, k: string)
    requires v.Dict? && k in v.fields
    ensures At(v, [Key(k)]) == Some(v.fields[k])
  {
    AtField(v, k, []);
    assert [Key(k)] + [] == [Key(k)];
  }

  lemma ObservationTextIsMarked(ctx: DecisionContext, path: seq<Step>, s: string)
    requires ctx.observation.Some? && IsObservationText(ctx.observation.value, path, s)
    ensures At(PromptProjection(ctx), path) == Some(Sys(s))
  {
    AtPair(PromptProjection(ctx), "observation", path[1].k);
  }

  lemma SystemTextIsMarked(ctx: DecisionContext, path: seq<Step>, s: string)
    requires IsSystemText(ctx, path, s)
    ensures At(PromptProjection(ctx), path) == Some(Sys(s))
  {
    if |path| == 1 {
      AtOne(PromptProjection(ctx), path[0].k);
    } else if path[0] == Key("criticRecommendation") {
      AtPair(PromptProjection(ctx), "criticRecommendation", "recommendation");
    } else {
      ObservationTextIsMarked(ctx, path, s);
    }
  }

  lemma AtInList(v: Val, k: string, i: nat, j: string)
    requires v.Dict? && k in v.fields && v.fields[k].List? && i < |v.fields[k].items|
    requires v.fields[k].items[i].Dict? && j in v.fields[k].items[i].fields
    ensures At(v, [Key(k), Idx(i), Key(j)]) == Some(v.fields[k].items[i].fields[j])
  {
    AtField(v, k, [Idx(i), Key(j)]);
    AtItem(v.fields[k], i, [Key(j)]);
    AtOne(v.fields[k].items[i], j);
    assert [Key(k)] + [Idx(i), Key(j)] == [Key(k), Idx(i), Key(j)] && [Idx(i)] + [Key(j)] == [Idx(i), Key(j)];
  }

  lemma WorkIsMarked(ctx: DecisionContext, path: seq<Step>, s: string)
    requires IsWorkText(ctx, path, s)
    ensures At(PromptProjection(ctx), path) == Some(Sys(s))
  {
    AtInList(PromptProjection(ctx), "completedWorkSummary", path[1].i, path[2].k);
  }

  // ---- in which half they are shown --------------------------------------------------------

  /** No list on the way holds untrusted text. */
  predicate Unmixed(v: Val, path: seq<Step>) {
    path != [] ==>
      match (v, path[0])
      case (Dict(fields), Key(k)) => k in fields ==> Unmixed(fields[k], path[1..])
      case (List(_), Idx(_)) => !HasUntrusted(v)
      case _ => true
  }

  predicate IsTrustedLeaf(v: Val) {
    v.Scalar? || v.EnumVal? || (v.Str? && v.marker == System)
  }

  /** How a leaf is shown: a system string or an enum value as plain text, a number as it is. */
  function Shown(v: Val): Val {
    match v
    case Str(_, s) => Plain(s)
    case EnumVal(s) => Plain(s)
    case _ => v
  }

  /**
   A system string, an enum value or a number reaches the trusted half at its own place, unless
   it stands in a list that holds untrusted text.
   */
  lemma {:induction false} TrustedLeavesKeepPath(v: Val, path: seq<Step>, leaf: Val)
    requires At(v, path) == Some(leaf) && IsTrustedLeaf(leaf) && Unmixed(v, path)
    ensures Walk(v).trusted.Some? && At(Walk(v).trusted.value, path) in [Some(Shown(leaf)), Some(leaf)]
    decreases |path|
  {
    match v
    case Dict(fields) =>
      TrustedLeavesKeepPath(fields[path[0].k], path[1..], leaf);
      DictHalves(fields);
    case List(_) => HalvesPresent(v);
    case _ =>
  }

  /** In a list with untrusted text the whole item is shown in the untrusted half, with its labels. */
  lemma LabelIsRenderedWithItsItem(v: Val, k: string, i: nat, j: string, s: string)
    requires v.Dict? && k in v.fields && v.fields[k].List? && i < |v.fields[k].items| && HasUntrusted(v.fields[k])
    requires v.fields[k].items[i].Dict? && j in v.fields[k].items[i].fields && v.fields[k].items[i].fields[j] == Str(System, s)
    ensures Walk(v).untrusted.Some? && At(Walk(v).untrusted.value, [Key(k), Idx(i), Key(j)]) == Some(Plain(s))
  {
    var items := v.fields[k].items;
    HalvesPresent(v.fields[k]);
    DictHalves(v.fields);
    DictHalves(items[i].fields);
    assert Walk(Str(System, s)) == Halves(Some(Plain(s)), None);
    var shown := Walk(v).untrusted.value;
    assert shown.fields[k] == Walk(v.fields[k]).untrusted.value && shown.fields[k].items[i] == RenderItem(Walk(items[i]));
    AtInList(shown, k, i, j);
  }

  lemma EvidenceHoldsText(ctx: DecisionContext, i: nat)
    requires i < |ctx.executionEvidence|
    ensures HasUntrusted(EvidenceNodes(ctx.executionEvidence))
  {
    var node := EvidenceNodes(ctx.executionEvidence).items[i];
    assert "summary" in node.fields && HasUntrusted(node.fields["summary"]);
    assert HasUntrusted(node);
  }

  lemma WorkHoldsNoText(ws: seq<WorkItem>)
    ensures !HasUntrusted(WorkNodes(ws))
  {
    forall w: WorkItem
      ensures !HasUntrusted(WorkNode(w))
    {
    }
  }

  /** What the system says of itself is shown in the trusted half, at its own place. */
  lemma SystemTextIsTrusted(ctx: DecisionContext, path: seq<Step>, s: string)
    requires IsSystemText(ctx, path, s) || IsWorkText(ctx, path, s)
    ensures var h := Walk(PromptProjection(ctx));
            h.trusted.Some? && At(h.trusted.value, path) in [Some(Plain(s)), Some(Sys(s))]
  {
    if IsSystemText(ctx, path, s) {
      SystemTextIsMarked(ctx, path, s);
    } else {
      WorkIsMarked(ctx, path, s);
      WorkHoldsNoText(ctx.completedWorkSummary);
      assert path[1..][0] == path[1];
    }
    TrustedLeavesKeepPath(PromptProjection(ctx), path, Sys(s));
  }

  /** The labels of an evidence entry are shown beside its text, in the untrusted half. */
  lemma EvidenceLabelsStandByTheirText(ctx: DecisionContext, path: seq<Step>, s: string)
    requires IsEvidenceLabel(ctx, path, s)
    ensures var h := Walk(PromptProjection(ctx));
            h.untrusted.Some? && At(h.untrusted.value, path) == Some(Plain(s))
  {
    var i, j := path[1].i, path[2].k;
    EvidenceHoldsText(ctx, i);
    assert path == [Key("executionEvidence"), Idx(i), Key(j)];
    LabelIsRenderedWithItsItem(PromptProjection(ctx), "executionEvidence", i, j, s);
  }

  // ---- numbers ---------------------------------------------------------------------------------

  /**
   A prompt has these entries and no others; the plan version, the truncation flag and the
   confidence are shown as they are.
   */
  lemma PromptEntries(ctx: DecisionContext)
    ensures var prompt := PromptProjection(ctx);
            && prompt.fields.Keys
               == {"decisionType", "planVersion", "goal", "goalType", "currentStepId", "currentNodeId", "observation",
                   "executionEvidence", "trajectorySummary", "completedWorkSummary", "remainingObjectives", "budgetSnapshot",
                   "truncated"} + (if ctx.decisionType == SemanticReplan then {"criticRecommendation"} else {})
            && prompt.fields["planVersion"] == Scalar(IntNumber(ctx.planVersion))
            && prompt.fields["truncated"] == Scalar(BoolValue(ctx.truncated))
            && prompt.fields["trajectorySummary"] == Dict(ctx.trajectorySummary)
            && prompt.fields["budgetSnapshot"] == Dict(ctx.budgetSnapshot)
  {
  }

  lemma RecommendationIsShown(ctx: DecisionContext)
    requires ctx.decisionType == SemanticReplan
    ensures At(PromptProjection(ctx), [Key("criticRecommendation"), Key("confidence")])
         == Some(Scalar(if ctx.criticRecommendation.Some? then ctx.criticRecommendation.value.confidence else FloatNumber(ZERO)))
  {
    AtPair(PromptProjection(ctx), "criticRecommendation", "confidence");
  }

  /** The plan version, the truncation flag and the confidence are shown in the trusted half. */
  lemma NumbersAreTrusted(ctx: DecisionContext)
    ensures var h := Walk(PromptProjection(ctx));
            && h.trusted.Some?
            && At(h.trusted.value, [Key("planVersion")]) == Some(Scalar(IntNumber(ctx.planVersion)))
            && At(h.trusted.value, [Key("truncated")]) == Some(Scalar(BoolValue(ctx.truncated)))
            && (ctx.decisionType == SemanticReplan && ctx.criticRecommendation.Some? ==>
                  At(h.trusted.value, [Key("criticRecommendation"), Key("confidence")])
                  == Some(Scalar(ctx.criticRecommendation.value.confidence)))
  {
    var prompt := PromptProjection(ctx);
    AtOne(prompt, "planVersion");
    AtOne(prompt, "truncated");
    TrustedLeavesKeepPath(prompt, [Key("planVersion")], Scalar(IntNumber(ctx.planVersion)));
    TrustedLeavesKeepPath(prompt, [Key("truncated")], Scalar(BoolValue(ctx.truncated)));
    if ctx.decisionType == SemanticReplan && ctx.criticRecommendation.Some? {
      RecommendationIsShown(ctx);
      TrustedLeavesKeepPath(prompt, [Key("criticRecommendation"), Key("confidence")], Scalar(ctx.criticRecommendation.value.confidence));
    }
  }

  /** Without an observation, or a recommendation, the prompt has the same entries, all of them empty. */
  lemma MissingRecordsAreEmpty(ctx: DecisionContext, k: string)
    ensures ctx.observation.None? && k in ["type", "status", "stepId", "nodeId", "failureCode"] ==>
              At(PromptProjection(ctx), [Key("observation"), Key(k)]) == Some(Sys(""))
    ensures ctx.observation.None? && k in ["failureReason", "outputSummary"] ==>
              At(PromptProjection(ctx), [Key("observation"), Key(k)]) == Some(Text(""))
    ensures ctx.decisionType == SemanticReplan && ctx.criticRecommendation.None?
            && k in ["semanticFailureType", "reasonSummary"] ==>
              At(PromptProjection(ctx), [Key("criticRecommendation"), Key(k)]) == Some(Text(""))
    ensures ctx.decisionType == SemanticReplan && ctx.criticRecommendation.None? ==>
              At(PromptProjection(ctx), [Key("criticRecommendation"), Key("recommendation")]) == Some(Sys(""))
  {
    var prompt := PromptProjection(ctx);
    if k in ["type", "status", "stepId", "nodeId", "failureCode", "failureReason", "outputSummary"] {
      AtPair(prompt, "observation", k);
    }
    if ctx.decisionType == SemanticReplan {
      AtPair(prompt, "criticRecommendation", "recommendation");
      if k in ["semanticFailureType", "reasonSummary"] {
        AtPair(prompt, "criticRecommendation", k);
      }
    }
  }

  predicate IsLimit(m: Limits, k: string, n: int) {
    || (k == "maxSteps" && n == m.maxSteps) || (k == "maxReplans" && n == m.maxReplans)
    || (k == "maxRetries" && n == m.maxRetries) || (k == "maxToolCalls" && n == m.maxToolCalls)
    || (k == "maxLlmCalls" && n == m.maxLlmCalls) || (k == "maxCriticCalls" && n == m.maxCriticCalls)
    || (k == "maxAssessments" && n == m.maxAssessments) || (k == "maxTotalSeconds" && n == m.maxTotalSeconds)
  }

  /** A counter, what was used of it, and what it may reach. */
  predicate IsCounter(l: LineageValue, k: string, used: int, limit: int) {
    || (k == "stepsUsed" && used == l.usage.stepsUsed && limit == l.limits.maxSteps)
    || (k == "replansUsed" && used == l.usage.replansUsed && limit == l.limits.maxReplans)
    || (k == "retriesUsed" && used == l.usage.retriesUsed && limit == l.limits.maxRetries)
    || (k == "toolCallsUsed" && used == l.usage.toolCallsUsed && limit == l.limits.maxToolCalls)
    || (k == "llmCallsUsed" && used == l.usage.llmCallsUsed && limit == l.limits.maxLlmCalls)
    || (k == "criticCallsUsed" && used == l.usage.criticCallsUsed && limit == l.limits.maxCriticCalls)
    || (k == "assessmentCallsUsed" && used == l.usage.assessmentCallsUsed && limit == l.limits.maxAssessments)
  }

  lemma LimitIsShown(m: Limits, k: string, n: int)
    requires IsLimit(m, k, n)
    ensures LimitsNode(m).Dict? && k in LimitsNode(m).fields && LimitsNode(m).fields[k] == Scalar(IntNumber(n))
  {
  }

  lemma UsedIsShown(l: LineageValue, k: string, used: int, limit: int, clocked: real -> Float)
    requires IsCounter(l, k, used, limit)
    ensures var node := UsageNode(l.usage, clocked); node.Dict? && k in node.fields && node.fields[k] == Scalar(IntNumber(used))
  {
  }

  lemma LeftIsShown(l: LineageValue, k: string, used: int, limit: int)
    requires IsCounter(l, k, used, limit)
    ensures var node := RemainingNode(l.limits, l.usage);
            && node.Dict? && k in node.fields
            && node.fields[k] == Scalar(IntNumber(if used < limit then limit - used else 0))
  {
  }

  /**
   The budget a prompt shows is the lineage's: every limit, every counter, and what is left of
   it, never less than nothing.
   */
  lemma BudgetIsShown(l: LineageValue, clocked: real -> Float, k: string, n: int, used: int, limit: int)
    ensures var snapshot := Dict(BudgetSnapshot(Some(l), clocked));
            && (IsLimit(l.limits, k, n) ==> At(snapshot, [Key("limits"), Key(k)]) == Some(Scalar(IntNumber(n))))
            && (IsCounter(l, k, used, limit) ==>
                  && At(snapshot, [Key("usage"), Key(k)]) == Some(Scalar(IntNumber(used)))
                  && At(snapshot, [Key("remaining"), Key(k)]) == Some(Scalar(IntNumber(if used < limit then limit - used else 0))))
            && At(snapshot, [Key("usage"), Key("activeElapsedSeconds")])
               == Some(Scalar(FloatNumber(clocked(l.usage.activeElapsedSeconds))))
  {
    var snapshot := Dict(BudgetSnapshot(Some(l), clocked));
    if IsLimit(l.limits, k, n) {
      LimitIsShown(l.limits, k, n);
      AtPair(snapshot, "limits", k);
    }
    if IsCounter(l, k, used, limit) {
      UsedIsShown(l, k, used, limit, clocked);
      LeftIsShown(l, k, used, limit);
      AtPair(snapshot, "usage", k);
      AtPair(snapshot, "remaining", k);
    }
    AtPair(snapshot, "usage", "activeElapsedSeconds");
  }

  predicate IsMetric(t: Trajectory, k: string, n: Option<int>) {
    || (k == "revisionCount" && n == t.revisionCount) || (k == "replanCount" && n == t.replanCount)
    || (k == "recoveryAttempts" && n == t.recoveryAttempts) || (k == "budgetExhaustions" && n == t.budgetExhaustions)
    || (k == "loopStops" && n == t.loopStops) || (k == "toolDenials" && n == t.toolDenials)
    || (k == "trajectoryLength" && n == t.trajectoryLength)
  }

  lemma MetricIsNamed(t: Trajectory, k: string, n: Option<int>)
    requires IsMetric(t, k, n)
    ensures k in TRAJECTORY_FIELDS && TrajectoryField(t, k) == if n.Some? then Scalar(IntNumber(n.value)) else Null
  {
  }

  /**
   The trajectory a prompt shows: every metric under its name, the outcome as a plain text, and
   None for what is missing.
   */
  lemma TrajectoryIsShownByName(t: Trajectory, k: string, n: Option<int>)
    ensures var summary := TrajectorySummary(Some(t));
            && (IsMetric(t, k, n) ==> k in summary && summary[k] == if n.Some? then Scalar(IntNumber(n.value)) else Null)
            && "finalOutcome" in summary
            && summary["finalOutcome"] == (if t.finalOutcome.Some? then Plain(t.finalOutcome.value) else Null)
  {
    if IsMetric(t, k, n) {
      MetricIsNamed(t, k, n);
    }
  }
}
