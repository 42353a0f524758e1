/**
 Recall: the plan an intent leads to, the candidates the plan fetches, and the
 filter that decides which of them an agent may see.
 */
module Recall {
  import opened Common
  import opened Projections
  import opened Sorting
  import opened WriteGate
  import opened MemoryItems

  // ---- planning ------------------------------------------------------------------------------

  datatype Intent = FreshEvent | ContinueEvent | CorrectionIntent | PreviousDecisionQuery | MemoryQuery | Ambiguous

  datatype Plan = Plan(
    intent: Intent, sessionId: string, eventThreadId: string,
    requestedTypes: seq<MemoryType>, requestedKeys: seq<string>,
    includeRunSummaries: bool, includeProposals: bool, includeHistoricalThreads: bool,
    maxItems: nat, runSummaryLimit: Option<nat>, reasons: seq<string>)

  const DEFAULT_MAX_ITEMS: nat := 20

  function NewPlan(intent: Intent, sessionId: string, activeThreadId: string): Plan {
    Plan(intent, sessionId, activeThreadId, [], [], false, false, false, DEFAULT_MAX_ITEMS, None, [])
  }

  const ROAD := "\U{8DEF}"
  const SCHOOL := "\U{5B66}\U{6821}"
  const HOSPITAL := "\U{533B}\U{9662}"

  function HintKeys(hint: string): seq<string> {
    (if Contains(hint, ROAD) then ["road.name"] else [])
    + (if Contains(hint, SCHOOL) then ["school.nearby"] else [])
    + (if Contains(hint, HOSPITAL) then ["hospital.nearby"] else [])
  }

  function KeysOfHints(hints: seq<string>): seq<string> {
    if hints == [] then [] else KeysOfHints(Init(hints)) + HintKeys(Last(hints))
  }

  /** What each intent fills into a plan. */
  function FillIn(intent: Intent, hints: seq<string>, plan: Plan): Plan {
    match intent
    case FreshEvent => plan.(
      requestedTypes := [], includeRunSummaries := false, includeProposals := false, includeHistoricalThreads := false,
      maxItems := 0, reasons := plan.reasons + ["fresh_event_no_recall"])
    case ContinueEvent => plan.(
      requestedTypes := [SessionGoal, StableFact, Constraint, ConfirmedDecision, UnresolvedIssue, UserCorrection],
      includeRunSummaries := true, includeProposals := false, maxItems := 20, runSummaryLimit := Some(3),
      reasons := plan.reasons + ["continue_event_recall_current_thread"])
    case CorrectionIntent => plan.(
      requestedTypes := [SessionGoal, StableFact, UserCorrection], requestedKeys := plan.requestedKeys + KeysOfHints(hints),
      includeRunSummaries := true, runSummaryLimit := Some(1), reasons := plan.reasons + ["correction_recall_targeted"])
    case PreviousDecisionQuery => plan.(
      requestedTypes := [ConfirmedDecision, Proposal, UnresolvedIssue], includeProposals := true,
      includeRunSummaries := true, runSummaryLimit := Some(3), reasons := plan.reasons + ["decision_query_recall"])
    case MemoryQuery => plan.(
      requestedTypes := [RunSummary], includeRunSummaries := true, includeHistoricalThreads := true,
      maxItems := 10, reasons := plan.reasons + ["memory_query_recall_historical"])
    case Ambiguous => plan.(
      requestedTypes := [], maxItems := 0, reasons := plan.reasons + ["ambiguous_no_recall"])
  }

  /** The plan each intent leads to, starting from a new plan. */
  function PlanFor(intent: Intent, hints: seq<string>, sessionId: string, activeThreadId: string): Plan {
    FillIn(intent, hints, NewPlan(intent, sessionId, activeThreadId))
  }

  /** The plan object the planner fills in. */
  class MemoryRecallPlan {
    var intent: Intent
    var sessionId: string
    var eventThreadId: string
    var requestedTypes: seq<MemoryType>
    var requestedKeys: seq<string>
    var includeRunSummaries: bool
    var includeProposals: bool
    var includeHistoricalThreads: bool
    var maxItems: nat
    var runSummaryLimit: Option<nat>
    var reasons: seq<string>

    function View(): Plan
      reads this
    {
      Plan(intent, sessionId, eventThreadId, requestedTypes, requestedKeys, includeRunSummaries, includeProposals,
           includeHistoricalThreads, maxItems, runSummaryLimit, reasons)
    }

    constructor (intent: Intent, sessionId: string, eventThreadId: string)
      ensures View() == NewPlan(intent, sessionId, eventThreadId)
    {
      this.intent, this.sessionId, this.eventThreadId := intent, sessionId, eventThreadId;
      requestedTypes, requestedKeys := [], [];
      includeRunSummaries, includeProposals, includeHistoricalThreads := false, false, false;
      maxItems, runSummaryLimit, reasons := DEFAULT_MAX_ITEMS, None, [];
    }
  }

  method PlanFresh(plan: MemoryRecallPlan)
    modifies plan
    ensures plan.View() == FillIn(FreshEvent, [], old(plan.View()))
  {
    plan.requestedTypes := [];
    plan.includeRunSummaries := false;
    plan.includeProposals := false;
    plan.includeHistoricalThreads := false;
    plan.maxItems := 0;
    plan.reasons := plan.reasons + ["fresh_event_no_recall"];
  }

  method PlanContinue(plan: MemoryRecallPlan)
    modifies plan
    ensures plan.View() == FillIn(ContinueEvent, [], old(plan.View()))
  {
    plan.requestedTypes := [SessionGoal, StableFact, Constraint, ConfirmedDecision, UnresolvedIssue, UserCorrection];
    plan.includeRunSummaries := true;
    plan.includeProposals := false;
    plan.maxItems := 20;
    plan.runSummaryLimit := Some(3);
    plan.reasons := plan.reasons + ["continue_event_recall_current_thread"];
  }

  method PlanCorrection(plan: MemoryRecallPlan, hints: seq<string>)
    modifies plan
    ensures plan.View() == FillIn(CorrectionIntent, hints, old(plan.View()))
  {
    plan.requestedTypes := [SessionGoal, StableFact, UserCorrection];
    RequestHintedKeys(plan, hints);
    plan.includeRunSummaries := true;
    plan.runSummaryLimit := Some(1);
    plan.reasons := plan.reasons + ["correction_recall_targeted"];
  }

  method RequestHintedKeys(plan: MemoryRecallPlan, hints: seq<string>)
    modifies plan`requestedKeys
    ensures plan.requestedKeys == old(plan.requestedKeys) + KeysOfHints(hints)
  {
    ghost var was := plan.requestedKeys;
    for i := 0 to |hints|
      modifies plan`requestedKeys
      invariant plan.requestedKeys == was + KeysOfHints(hints[..i])
    {
      assert Init(hints[..i + 1]) == hints[..i];
      RequestKeysOf(plan, hints[i]);
    }
    assert hints[..|hints|] == hints;
  }

  method RequestKeysOf(plan: MemoryRecallPlan, hint: string)
    modifies plan`requestedKeys
    ensures plan.requestedKeys == old(plan.requestedKeys) + HintKeys(hint)
  {
    if Contains(hint, ROAD) {
      plan.requestedKeys := plan.requestedKeys + ["road.name"];
    }
    if Contains(hint, SCHOOL) {
      plan.requestedKeys := plan.requestedKeys + ["school.nearby"];
    }
    if Contains(hint, HOSPITAL) {
      plan.requestedKeys := plan.requestedKeys + ["hospital.nearby"];
    }
  }

  method PlanDecisionQuery(plan: MemoryRecallPlan)
    modifies plan
    ensures plan.View() == FillIn(PreviousDecisionQuery, [], old(plan.View()))
  {
    plan.requestedTypes := [ConfirmedDecision, Proposal, UnresolvedIssue];
    plan.includeProposals := true;
    plan.includeRunSummaries := true;
    plan.runSummaryLimit := Some(3);
    plan.reasons := plan.reasons + ["decision_query_recall"];
  }

  method PlanMemoryQuery(plan: MemoryRecallPlan)
    modifies plan
    ensures plan.View() == FillIn(MemoryQuery, [], old(plan.View()))
  {
    plan.requestedTypes := [RunSummary];
    plan.includeRunSummaries := true;
    plan.includeHistoricalThreads := true;
    plan.maxItems := 10;
    plan.reasons := plan.reasons + ["memory_query_recall_historical"];
  }

  method PlanAmbiguous(plan: MemoryRecallPlan)
    modifies plan
    ensures plan.View() == FillIn(Ambiguous, [], old(plan.View()))
  {
    plan.requestedTypes := [];
    plan.maxItems := 0;
    plan.reasons := plan.reasons + ["ambiguous_no_recall"];
  }

  method BuildPlan(intent: Intent, hints: seq<string>, sessionId: string, activeThreadId: string)
    returns (plan: MemoryRecallPlan)
    ensures fresh(plan) && plan.View() == PlanFor(intent, hints, sessionId, activeThreadId)
  {
    plan := new MemoryRecallPlan(intent, sessionId, activeThreadId);
    match intent {
      case FreshEvent => PlanFresh(plan);
      case ContinueEvent => PlanContinue(plan);
      case CorrectionIntent => PlanCorrection(plan, hints);
      case PreviousDecisionQuery => PlanDecisionQuery(plan);
      case MemoryQuery => PlanMemoryQuery(plan);
      case Ambiguous => PlanAmbiguous(plan);
    }
  }

  // ---- the filter -------------------------------------------------------------------------------

  datatype Rejection =
    | RejectedStatus | SupersededStatus | ExpiredStatus | InvalidTtl | WrongEventThread | LegacyUnscoped
    | CurrentInputOverride | DynamicField | ProposalNotConfirmed | IntentNotAllowed | TooMany

  datatype Verdict = Accepted | RejectedFor(reason: Rejection)

  function EventField(memoryKey: string): Option<string> {
    if memoryKey == "road.name" then Some("roadName")
    else if memoryKey == "school.nearby" then Some("nearbySchool")
    else if memoryKey == "hospital.nearby" then Some("nearbyHospital")
    else if memoryKey == "road.is_main" then Some("isMainRoad")
    else None
  }

  const UNNAMED := "\U{672A}\U{547D}\U{540D}"
  const UNNAMED_ROAD := UNNAMED + "\U{8DEF}\U{6BB5}"
  const UNKNOWN_ROAD := "\U{672A}\U{77E5}\U{8DEF}\U{6BB5}"

  /** The current input says something about the field: it is neither empty nor a placeholder. */
  predicate Meaningful(v: Json) {
    v != JNull && v != JStr("") && v != JBool(false)
    && v != JStr(UNKNOWN_ROAD) && v != JStr(UNNAMED_ROAD) && v != JStr(UNNAMED)
  }

  predicate Overridden(item: Item, event: Fields) {
    var field := EventField(item.memoryKey);
    && field.Some? && field.value in event
    && Meaningful(event[field.value])
    && Get(item.value, "value") != JNull && event[field.value] != Get(item.value, "value")
  }

  predicate IsFact(t: MemoryType) {
    t == StableFact || t == ConfirmedDecision
  }

  function FilterItem(item: Item, plan: Plan, event: Fields, clock: string): Verdict {
    if item.status == Rejected then RejectedFor(RejectedStatus)
    else if item.status == Superseded then RejectedFor(SupersededStatus)
    else if item.status == Expired then RejectedFor(ExpiredStatus)
    else if item.validUntil.Some? && item.validUntil.value != "" && Due(item, clock) then RejectedFor(InvalidTtl)
    else if plan.eventThreadId != "" && item.eventThreadId != "" && item.eventThreadId != plan.eventThreadId
            && !plan.includeHistoricalThreads then RejectedFor(WrongEventThread)
    else if item.eventThreadId == "" && IsFact(item.memoryType) then RejectedFor(LegacyUnscoped)
    else if item.memoryType == StableFact && Overridden(item, event) then RejectedFor(CurrentInputOverride)
    else if exists f | f in DYNAMIC_FIELDS :: f in item.value then RejectedFor(DynamicField)
    else if item.memoryType == Proposal && !plan.includeProposals then RejectedFor(ProposalNotConfirmed)
    else if item.memoryType == RunSummary && !plan.includeRunSummaries then RejectedFor(IntentNotAllowed)
    else if plan.requestedTypes != [] && item.memoryType !in plan.requestedTypes then RejectedFor(IntentNotAllowed)
    else Accepted
  }

  // ---- retrieval ------------------------------------------------------------------------------------

  const KEY_LIMIT: nat := 10

  function ByTypes(rows: seq<Item>, session: string, types: seq<MemoryType>, limit: nat): seq<Item> {
    if types == [] then [] else ByTypes(rows, session, Init(types), limit) + Query(rows, session, Some(Last(types)), "", limit)
  }

  /** Appends the items whose id is not listed yet. */
  function AddNew(listed: seq<Item>, items: seq<Item>): seq<Item> {
    if items == [] then listed
    else
      var prior := AddNew(listed, Init(items));
      if Has(prior, Last(items).id) then prior else prior + [Last(items)]
  }

  function ByKeys(listed: seq<Item>, rows: seq<Item>, session: string, keys: seq<string>): seq<Item> {
    if keys == [] then listed
    else AddNew(ByKeys(listed, rows, session, Init(keys)), Query(rows, session, None, Last(keys), KEY_LIMIT))
  }

  function Candidates(rows: seq<Item>, plan: Plan, session: string): seq<Item> {
    ByKeys(ByTypes(rows, session, plan.requestedTypes, plan.maxItems * 2), rows, session, plan.requestedKeys)
  }

  datatype RejectedItem = RejectedItem(item: Item, reason: Rejection)

  function AcceptedOf(items: seq<Item>, plan: Plan, event: Fields, clock: string): seq<Item> {
    if items == [] then []
    else
      AcceptedOf(Init(items), plan, event, clock)
      + (if FilterItem(Last(items), plan, event, clock).Accepted? then [Last(items)] else [])
  }

  function FilteredOut(items: seq<Item>, plan: Plan, event: Fields, clock: string): seq<RejectedItem> {
    if items == [] then []
    else
      FilteredOut(Init(items), plan, event, clock)
      + (match FilterItem(Last(items), plan, event, clock)
         case Accepted => []
         case RejectedFor(reason) => [RejectedItem(Last(items), reason)])
  }

  function Overflow(items: seq<Item>): seq<RejectedItem> {
    seq(|items|, i requires 0 <= i < |items| => RejectedItem(items[i], TooMany))
  }

  function Drop<T>(n: nat, xs: seq<T>): seq<T> {
    if |xs| <= n then [] else xs[n..]
  }

  function Selected(rows: seq<Item>, plan: Plan, session: string, event: Fields, clock: string): seq<Item> {
    Take(plan.maxItems, AcceptedOf(Candidates(rows, plan, session), plan, event, clock))
  }

  function RejectedFrom(rows: seq<Item>, plan: Plan, session: string, event: Fields, clock: string): seq<RejectedItem> {
    var candidates := Candidates(rows, plan, session);
    FilteredOut(candidates, plan, event, clock) + Overflow(Drop(plan.maxItems, AcceptedOf(candidates, plan, event, clock)))
  }

  method Fetch(rows: seq<Item>, plan: Plan, session: string) returns (candidates: seq<Item>)
    ensures candidates == Candidates(rows, plan, session)
  {
    candidates := [];
    var types, keys := plan.requestedTypes, plan.requestedKeys;
    for i := 0 to |types|
      invariant candidates == ByTypes(rows, session, types[..i], plan.maxItems * 2)
    {
      assert Init(types[..i + 1]) == types[..i];
      candidates := candidates + Query(rows, session, Some(types[i]), "", plan.maxItems * 2);
    }
    assert types[..|types|] == types;
    ghost var byType := candidates;
    for k := 0 to |keys|
      invariant candidates == ByKeys(byType, rows, session, keys[..k])
    {
      assert Init(keys[..k + 1]) == keys[..k];
      candidates := AppendUnlisted(candidates, Query(rows, session, None, keys[k], KEY_LIMIT));
    }
    assert keys[..|keys|] == keys;
  }

  method AppendUnlisted(listed: seq<Item>, items: seq<Item>) returns (all: seq<Item>)
    ensures all == AddNew(listed, items)
  {
    all := listed;
    for i := 0 to |items|
      invariant all == AddNew(listed, items[..i])
    {
      assert Init(items[..i + 1]) == items[..i];
      if !Has(all, items[i].id) {
        all := all + [items[i]];
      }
    }
    assert items[..|items|] == items;
  }

  method Retrieve(rows: seq<Item>, plan: Plan, event: Fields, session: string, clock: string)
    returns (candidates: seq<Item>, selected: seq<Item>, rejected: seq<RejectedItem>)
    ensures candidates == Candidates(rows, plan, session)
    ensures selected == Selected(rows, plan, session, event, clock)
    ensures rejected == RejectedFrom(rows, plan, session, event, clock)
  {
    candidates := Fetch(rows, plan, session);
    selected, rejected := [], [];
    for i := 0 to |candidates|
      invariant selected == AcceptedOf(candidates[..i], plan, event, clock)
      invariant rejected == FilteredOut(candidates[..i], plan, event, clock)
    {
      assert Init(candidates[..i + 1]) == candidates[..i];
      var verdict := FilterItem(candidates[i], plan, event, clock);
      if verdict.RejectedFor? {
        rejected := rejected + [RejectedItem(candidates[i], verdict.reason)];
      } else {
        selected := selected + [candidates[i]];
      }
    }
    assert candidates[..|candidates|] == candidates;
    if |selected| > plan.maxItems {
      var overflow := selected[plan.maxItems..];
      selected := selected[..plan.maxItems];
      ghost var filtered := rejected;
      for i := 0 to |overflow|
        invariant rejected == filtered + Overflow(overflow[..i])
      {
        assert Overflow(overflow[..i + 1]) == Overflow(overflow[..i]) + [RejectedItem(overflow[i], TooMany)];
        rejected := rejected + [RejectedItem(overflow[i], TooMany)];
      }
      assert overflow[..|overflow|] == overflow;
    }
  }
}
