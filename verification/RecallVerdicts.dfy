/**
 Who is recalled: what the filter accepts and why it rejects the rest, told from the
 item, the intent and the current event alone, and what becomes of it in a retrieval.
 */
module RecallVerdicts {
  import opened Common
  import opened Projections
  import opened Sorting
  import opened WriteGate
  import opened MemoryItems
  import opened Recall
  import opened RecallSafety

  // ---- what each intent asks for -----------------------------------------------------------

  predicate AsksFor(intent: Intent, t: MemoryType) {
    match t
    case SessionGoal => intent == ContinueEvent || intent == CorrectionIntent
    case StableFact => intent == ContinueEvent || intent == CorrectionIntent
    case Constraint => intent == ContinueEvent
    case ConfirmedDecision => intent == ContinueEvent || intent == PreviousDecisionQuery
    case UnresolvedIssue => intent == ContinueEvent || intent == PreviousDecisionQuery
    case UserCorrection => intent == ContinueEvent || intent == CorrectionIntent
    case RunSummary => intent == MemoryQuery
    case Proposal => intent == PreviousDecisionQuery
    case TemporaryFact => false
  }

  /** A fresh event and an ambiguous input recall nothing. */
  predicate RecallsNothing(intent: Intent) {
    intent == FreshEvent || intent == Ambiguous
  }

  predicate Mentions(hints: seq<string>, word: string) {
    exists h | h in hints :: Contains(h, word)
  }

  predicate StandsAt(s: string, part: string, i: nat) {
    i + |part| <= |s| && s[i..i + |part|] == part
  }

  /** A text contains a part that stands somewhere in it. */
  lemma {:induction false} ContainsIff(s: string, part: string)
    ensures Contains(s, part) <==> exists i: nat :: StandsAt(s, part, i)
  {
    if part <= s {
      assert StandsAt(s, part, 0);
    } else if s != [] {
      ContainsIff(s[1..], part);
      if i: nat :| StandsAt(s[1..], part, i) {
        assert StandsAt(s, part, i + 1);
      }
      if i: nat :| StandsAt(s, part, i) {
        assert i > 0 && s[1..][i - 1..i - 1 + |part|] == part;
        assert StandsAt(s[1..], part, i - 1);
      }
    }
  }

  lemma {:induction false} KeysOfHintsIff(hints: seq<string>)
    ensures forall key :: key in KeysOfHints(hints)
              <==> || (key == "road.name" && Mentions(hints, ROAD))
                   || (key == "school.nearby" && Mentions(hints, SCHOOL))
                   || (key == "hospital.nearby" && Mentions(hints, HOSPITAL))
  {
    if hints != [] {
      KeysOfHintsIff(Init(hints));
      MentionsSnoc(hints, ROAD);
      MentionsSnoc(hints, SCHOOL);
      MentionsSnoc(hints, HOSPITAL);
    }
  }

  lemma MentionsSnoc(hints: seq<string>, word: string)
    requires hints != []
    ensures Mentions(hints, word) <==> Mentions(Init(hints), word) || Contains(Last(hints), word)
  {
    assert hints == Init(hints) + [Last(hints)];
    assert Last(hints) in hints && forall h | h in Init(hints) :: h in hints;
  }

  /**
   The plan of an intent: the types it asks for and in which order, how many items, and for a
   correction the keys its hints name.
   */
  lemma PlanAsksFor(intent: Intent, hints: seq<string>, session: string, thread: string)
    ensures var plan := PlanFor(intent, hints, session, thread);
            && (forall t :: t in plan.requestedTypes <==> AsksFor(intent, t))
            && (plan.requestedTypes == [] <==> RecallsNothing(intent))
            && plan.maxItems == (if RecallsNothing(intent) then 0 else if intent == MemoryQuery then 10 else 20)
            && (intent == ContinueEvent ==>
                  plan.requestedTypes == [SessionGoal, StableFact, Constraint, ConfirmedDecision, UnresolvedIssue, UserCorrection])
            && (intent == CorrectionIntent ==> plan.requestedTypes == [SessionGoal, StableFact, UserCorrection])
            && (intent == PreviousDecisionQuery ==> plan.requestedTypes == [ConfirmedDecision, Proposal, UnresolvedIssue])
            && (intent != CorrectionIntent ==> plan.requestedKeys == [])
            && plan.intent == intent && plan.sessionId == session && plan.eventThreadId == thread
  {
  }

  /**
   Proposals are for a query about decisions, other threads for a memory query, run summaries
   for every intent that recalls at all.
   */
  lemma PlanIncludes(intent: Intent, hints: seq<string>, session: string, thread: string)
    ensures var plan := PlanFor(intent, hints, session, thread);
            && (plan.includeProposals <==> intent == PreviousDecisionQuery)
            && (plan.includeHistoricalThreads <==> intent == MemoryQuery)
            && (plan.includeRunSummaries <==> !RecallsNothing(intent))
            && plan.runSummaryLimit == (if intent == CorrectionIntent then Some(1)
                                        else if intent == ContinueEvent || intent == PreviousDecisionQuery then Some(3) else None)
            && plan.reasons == [if intent == FreshEvent then "fresh_event_no_recall"
                                else if intent == ContinueEvent then "continue_event_recall_current_thread"
                                else if intent == CorrectionIntent then "correction_recall_targeted"
                                else if intent == PreviousDecisionQuery then "decision_query_recall"
                                else if intent == MemoryQuery then "memory_query_recall_historical"
                                else "ambiguous_no_recall"]
  {
  }

  lemma CorrectionAsksForKeys(hints: seq<string>, session: string, thread: string)
    ensures var keys := PlanFor(CorrectionIntent, hints, session, thread).requestedKeys;
            forall key :: key in keys
              <==> || (key == "road.name" && Mentions(hints, ROAD))
                   || (key == "school.nearby" && Mentions(hints, SCHOOL))
                   || (key == "hospital.nearby" && Mentions(hints, HOSPITAL))
  {
    KeysOfHintsIff(hints);
    assert [] + KeysOfHints(hints) == KeysOfHints(hints);
  }

  // ---- what the filter accepts ----------------------------------------------------------------

  predicate Past(item: Item, clock: string) {
    item.validUntil.Some? && item.validUntil.value != "" && StrBefore(item.validUntil.value, clock)
  }

  /** The current event names the fact's field with a value that means something, and another one. */
  predicate Contradicted(item: Item, event: Fields) {
    exists field |
      (item.memoryKey, field) in [("road.name", "roadName"), ("school.nearby", "nearbySchool"),
                                  ("hospital.nearby", "nearbyHospital"), ("road.is_main", "isMainRoad")] ::
      && field in event
      && event[field] !in [JNull, JStr(""), JBool(false), JStr(UNKNOWN_ROAD), JStr(UNNAMED_ROAD), JStr(UNNAMED)]
      && "value" in item.value && item.value["value"] != JNull && item.value["value"] != event[field]
  }

  predicate HasDynamicField(item: Item) {
    || "avgSpeed" in item.value || "queueLength" in item.value || "duration" in item.value || "weather" in item.value
    || "signalState" in item.value || "trafficFlow" in item.value || "pedestrianCount" in item.value
    || "laneAvailability" in item.value || "accidentStatus" in item.value
  }

  lemma ContradictedIsOverridden(item: Item, event: Fields)
    ensures Overridden(item, event) <==> Contradicted(item, event)
  {
  }

  lemma HasDynamicFieldIff(item: Item)
    ensures HasDynamicField(item) <==> exists f | f in DYNAMIC_FIELDS :: f in item.value
  {
  }

  /**
   For every plan that can be built with an active thread, a fact or decision is accepted
   exactly when it is live and not past its expiry, belongs to that thread, carries no
   dynamic field, is not contradicted by the current event, and is of a type asked for.
   */
  lemma FactIsAcceptedIff(
      item: Item, intent: Intent, hints: seq<string>, session: string, thread: string, event: Fields, clock: string)
    requires thread != "" && item.memoryType in [StableFact, ConfirmedDecision]
    ensures FilterItem(item, PlanFor(intent, hints, session, thread), event, clock) == Accepted
            <==> && item.status in [Candidate, Active, Confirmed] && !Past(item, clock) && item.eventThreadId == thread
                 && !(item.memoryType == StableFact && Contradicted(item, event)) && !HasDynamicField(item)
                 && (AsksFor(intent, item.memoryType) || RecallsNothing(intent))
  {
    ContradictedIsOverridden(item, event);
    HasDynamicFieldIff(item);
    PlanAsksFor(intent, hints, session, thread);
  }

  /**
   Any other item may also have no thread, or for a memory query another one; a proposal is
   for a query about decisions, a run summary for an intent that recalls at all.
   */
  lemma OtherItemIsAcceptedIff(
      item: Item, intent: Intent, hints: seq<string>, session: string, thread: string, event: Fields, clock: string)
    requires thread != "" && item.memoryType !in [StableFact, ConfirmedDecision]
    ensures FilterItem(item, PlanFor(intent, hints, session, thread), event, clock) == Accepted
            <==> && item.status in [Candidate, Active, Confirmed] && !Past(item, clock)
                 && (item.eventThreadId in ["", thread] || intent == MemoryQuery) && !HasDynamicField(item)
                 && (item.memoryType == Proposal ==> intent == PreviousDecisionQuery)
                 && (item.memoryType == RunSummary ==> !RecallsNothing(intent))
                 && (AsksFor(intent, item.memoryType) || RecallsNothing(intent))
  {
    HasDynamicFieldIff(item);
    PlanAsksFor(intent, hints, session, thread);
  }

  /** A rejection names the first of these causes that applies, in this order, under any plan. */
  lemma RejectionNamesFirstCause(item: Item, plan: Plan, event: Fields, clock: string)
    ensures var verdict := FilterItem(item, plan, event, clock);
            var live := item.status in [Candidate, Active, Confirmed] && !Past(item, clock);
            var elsewhere := plan.eventThreadId != "" && item.eventThreadId !in ["", plan.eventThreadId]
                             && !plan.includeHistoricalThreads;
            var unscoped := item.eventThreadId == "" && item.memoryType in [StableFact, ConfirmedDecision];
            var scoped := live && !elsewhere && !unscoped;
            var contradicted := item.memoryType == StableFact && Contradicted(item, event);
            var unconfirmed := item.memoryType == Proposal && !plan.includeProposals;
            var clean := scoped && !contradicted && !HasDynamicField(item);
            && (verdict == RejectedFor(RejectedStatus) <==> item.status == Rejected)
            && (verdict == RejectedFor(SupersededStatus) <==> item.status == Superseded)
            && (verdict == RejectedFor(ExpiredStatus) <==> item.status == Expired)
            && (verdict == RejectedFor(InvalidTtl) <==> item.status in [Candidate, Active, Confirmed] && Past(item, clock))
            && (verdict == RejectedFor(WrongEventThread) <==> live && elsewhere)
            && (verdict == RejectedFor(LegacyUnscoped) <==> live && !elsewhere && unscoped)
            && (verdict == RejectedFor(CurrentInputOverride) <==> scoped && contradicted)
            && (verdict == RejectedFor(DynamicField) <==> scoped && !contradicted && HasDynamicField(item))
            && (verdict == RejectedFor(ProposalNotConfirmed) <==> clean && unconfirmed)
            && (verdict == RejectedFor(IntentNotAllowed)
                <==> && clean && !unconfirmed
                     && (|| (item.memoryType == RunSummary && !plan.includeRunSummaries)
                         || (plan.requestedTypes != [] && item.memoryType !in plan.requestedTypes)))
  {
    ContradictedIsOverridden(item, event);
    HasDynamicFieldIff(item);
  }

  // ---- what becomes of the accepted -------------------------------------------------------------

  function Accepts(plan: Plan, event: Fields, clock: string): Item -> bool {
    (r: Item) => FilterItem(r, plan, event, clock).Accepted?
  }

  lemma {:induction false} AcceptedIsFiltered(items: seq<Item>, plan: Plan, event: Fields, clock: string)
    ensures AcceptedOf(items, plan, event, clock) == Filter(Accepts(plan, event, clock), items)
  {
    if items != [] {
      AcceptedIsFiltered(Init(items), plan, event, clock);
    }
  }

  lemma FilterAround(p: Item -> bool, before: seq<Item>, x: Item, after: seq<Item>)
    ensures Filter(p, before + [x] + after) == Filter(p, before) + (if p(x) then [x] else []) + Filter(p, after)
  {
    FilterAppend(p, before + [x], after);
    assert Init(before + [x]) == before;
  }

  lemma TakenIff(passed: seq<Item>, limit: nat, n: nat)
    requires DistinctIds(passed) && n < |passed|
    ensures passed[n] in Take(limit, passed) <==> n < limit
  {
    var taken := Take(limit, passed);
    assert forall k | 0 <= k < |taken| :: taken[k] == passed[k] && taken[k] in taken;
    if passed[n] in taken {
      var k :| 0 <= k < |taken| && taken[k] == passed[n];
    }
  }

  /** An element that passes stands behind as many as passed before it. */
  lemma PassedAt(p: Item -> bool, items: seq<Item>, i: nat)
    requires i < |items| && p(items[i])
    ensures Count(p, items[..i]) < Count(p, items) && Filter(p, items)[Count(p, items[..i])] == items[i]
  {
    assert items == items[..i] + [items[i]] + items[i + 1..];
    FilterAround(p, items[..i], items[i], items[i + 1..]);
  }

  lemma TakenPassed(p: Item -> bool, items: seq<Item>, limit: nat)
    ensures forall r | r in Take(limit, Filter(p, items)) :: p(r)
  {
    FilterMembers(p, items);
    assert forall r | r in Take(limit, Filter(p, items)) :: r in Filter(p, items);
  }

  lemma SelectedIsTaken(p: Item -> bool, items: seq<Item>, limit: nat, i: nat)
    requires DistinctIds(items) && i < |items|
    ensures items[i] in Take(limit, Filter(p, items)) <==> p(items[i]) && Count(p, items[..i]) < limit
  {
    TakenPassed(p, items, limit);
    if p(items[i]) {
      PassedAt(p, items, i);
      FilterKeepsDistinctIds(p, items);
      TakenIff(Filter(p, items), limit, Count(p, items[..i]));
    }
  }

  /** A candidate is selected exactly when it is accepted and fewer accepted candidates than the limit stand before it. */
  lemma CandidateIsSelectedIff(rows: seq<Item>, plan: Plan, session: string, event: Fields, clock: string, i: nat)
    requires DistinctIds(Candidates(rows, plan, session)) && i < |Candidates(rows, plan, session)|
    ensures var candidates := Candidates(rows, plan, session);
            candidates[i] in Selected(rows, plan, session, event, clock)
            <==> && FilterItem(candidates[i], plan, event, clock) == Accepted
                 && Count((r: Item) => FilterItem(r, plan, event, clock) == Accepted, candidates[..i]) < plan.maxItems
  {
    var candidates := Candidates(rows, plan, session);
    AcceptedIsFiltered(candidates, plan, event, clock);
    SelectedIsTaken(Accepts(plan, event, clock), candidates, plan.maxItems, i);
    SameFilter(Accepts(plan, event, clock), (r: Item) => FilterItem(r, plan, event, clock) == Accepted, candidates[..i]);
  }

  lemma {:induction false} SameFilter(p: Item -> bool, q: Item -> bool, items: seq<Item>)
    requires forall r :: p(r) == q(r)
    ensures Filter(p, items) == Filter(q, items)
  {
    if items != [] {
      SameFilter(p, q, Init(items));
    }
  }

  // ---- who is a candidate ---------------------------------------------------------------------------

  lemma {:induction false} ByTypesMembers(rows: seq<Item>, session: string, types: seq<MemoryType>, limit: nat)
    ensures forall r :: r in ByTypes(rows, session, types, limit)
              <==> exists t | t in types :: r in Query(rows, session, Some(t), "", limit)
  {
    if types != [] {
      ByTypesMembers(rows, session, Init(types), limit);
      assert types == Init(types) + [Last(types)];
      assert Last(types) in types && forall t :: t in types <==> t in Init(types) || t == Last(types);
    }
  }

  lemma {:induction false} AddNewMembers(listed: seq<Item>, items: seq<Item>, rows: seq<Item>)
    requires DistinctIds(rows) && (forall r | r in listed || r in items :: r in rows)
    ensures forall r :: r in AddNew(listed, items) <==> r in listed || r in items
  {
    if items != [] {
      var prior := AddNew(listed, Init(items));
      assert items == Init(items) + [Last(items)] && Last(items) in items;
      AddNewMembers(listed, Init(items), rows);
      if Has(prior, Last(items).id) {
        var x :| x in prior && x.id == Last(items).id;
        SameIdSameRow(rows, x, Last(items));
      }
    }
  }

  lemma {:induction false} ByKeysMembers(listed: seq<Item>, rows: seq<Item>, session: string, keys: seq<string>)
    requires DistinctIds(rows) && forall r | r in listed :: r in rows
    ensures forall r :: r in ByKeys(listed, rows, session, keys)
              <==> r in listed || exists k | k in keys :: r in Query(rows, session, None, k, KEY_LIMIT)
    ensures forall r | r in ByKeys(listed, rows, session, keys) :: r in rows
  {
    if keys != [] {
      var k := Last(keys);
      ByKeysMembers(listed, rows, session, Init(keys));
      QueryMembers(rows, session, None, k, KEY_LIMIT);
      AddNewMembers(ByKeys(listed, rows, session, Init(keys)), Query(rows, session, None, k, KEY_LIMIT), rows);
      assert keys == Init(keys) + [k] && k in keys && forall j :: j in keys <==> j in Init(keys) || j == k;
    }
  }

  /**
   The candidates are the newest rows of every type asked for, twice as many as can be
   selected, and the ten newest of every key.
   */
  lemma CandidateIff(rows: seq<Item>, plan: Plan, session: string, r: Item)
    requires DistinctIds(rows)
    ensures r in Candidates(rows, plan, session)
            <==> || (exists t | t in plan.requestedTypes :: r in Query(rows, session, Some(t), "", 2 * plan.maxItems))
                 || (exists k | k in plan.requestedKeys :: r in Query(rows, session, None, k, 10))
  {
    var byType := ByTypes(rows, session, plan.requestedTypes, plan.maxItems * 2);
    ByTypesMembers(rows, session, plan.requestedTypes, plan.maxItems * 2);
    forall x | x in byType
      ensures x in rows
    {
      var t :| t in plan.requestedTypes && x in Query(rows, session, Some(t), "", plan.maxItems * 2);
      QueryMembers(rows, session, Some(t), "", plan.maxItems * 2);
    }
    ByKeysMembers(byType, rows, session, plan.requestedKeys);
  }

  /** Nothing is cut off: no type has more live rows than are fetched, and no more are accepted than fit. */
  ghost predicate NothingCutOff(rows: seq<Item>, plan: Plan, session: string, event: Fields, clock: string) {
    && (forall t | t in plan.requestedTypes :: |Query(rows, session, Some(t), "", 2 * plan.maxItems)| < 2 * plan.maxItems)
    && |AcceptedOf(Candidates(rows, plan, session), plan, event, clock)| <= plan.maxItems
  }

  /** If nothing is cut off, what is recalled is what is stored for the session, of a type asked for, and accepted. */
  lemma RecalledIffAccepted(
      rows: seq<Item>, intent: Intent, hints: seq<string>, session: string, thread: string, event: Fields, clock: string, r: Item)
    requires DistinctIds(rows) && NothingCutOff(rows, PlanFor(intent, hints, session, thread), session, event, clock)
    ensures var plan := PlanFor(intent, hints, session, thread);
            r in Selected(rows, plan, session, event, clock)
            <==> && r in rows && r.sessionId == session && AsksFor(intent, r.memoryType)
                 && FilterItem(r, plan, event, clock) == Accepted
  {
    var plan := PlanFor(intent, hints, session, thread);
    var candidates := Candidates(rows, plan, session);
    PlanAsksFor(intent, hints, session, thread);
    AcceptedIsFiltered(candidates, plan, event, clock);
    FilterMembers(Accepts(plan, event, clock), candidates);
    CandidatesComeFromSession(rows, plan, session, r);
    AcceptedIsOfRequestedType(r, plan, event, clock);
    if AsksFor(intent, r.memoryType) {
      RequestedRowIsCandidate(rows, plan, session, r);
    }
  }

  lemma AcceptedIsOfRequestedType(r: Item, plan: Plan, event: Fields, clock: string)
    ensures FilterItem(r, plan, event, clock) == Accepted ==>
              LiveStatus(r.status) && (plan.requestedTypes == [] || r.memoryType in plan.requestedTypes)
  {
  }

  /**
   If nothing is cut off, a recall in an active thread finds exactly the thread's facts and
   decisions: those stored for the session, live, not past their expiry, without dynamic
   field, not contradicted, and of a type the intent asks for.
   */
  lemma FactIsRecalledIff(
      rows: seq<Item>, intent: Intent, hints: seq<string>, session: string, thread: string, event: Fields, clock: string, r: Item)
    requires DistinctIds(rows) && thread != "" && r.memoryType in [StableFact, ConfirmedDecision]
    requires NothingCutOff(rows, PlanFor(intent, hints, session, thread), session, event, clock)
    ensures r in Selected(rows, PlanFor(intent, hints, session, thread), session, event, clock)
            <==> && r in rows && r.sessionId == session && r.eventThreadId == thread
                 && r.status in [Candidate, Active, Confirmed] && !Past(r, clock) && !HasDynamicField(r)
                 && !(r.memoryType == StableFact && Contradicted(r, event)) && AsksFor(intent, r.memoryType)
  {
    RecalledIffAccepted(rows, intent, hints, session, thread, event, clock, r);
    FactIsAcceptedIff(r, intent, hints, session, thread, event, clock);
  }

  /** Of any other type it finds those of the thread and of none, and for a memory query those of every thread. */
  lemma OtherItemIsRecalledIff(
      rows: seq<Item>, intent: Intent, hints: seq<string>, session: string, thread: string, event: Fields, clock: string, r: Item)
    requires DistinctIds(rows) && thread != "" && r.memoryType !in [StableFact, ConfirmedDecision]
    requires NothingCutOff(rows, PlanFor(intent, hints, session, thread), session, event, clock)
    ensures r in Selected(rows, PlanFor(intent, hints, session, thread), session, event, clock)
            <==> && r in rows && r.sessionId == session && (r.eventThreadId in ["", thread] || intent == MemoryQuery)
                 && r.status in [Candidate, Active, Confirmed] && !Past(r, clock) && !HasDynamicField(r)
                 && AsksFor(intent, r.memoryType)
  {
    RecalledIffAccepted(rows, intent, hints, session, thread, event, clock, r);
    OtherItemIsAcceptedIff(r, intent, hints, session, thread, event, clock);
  }

  /** Every rejected item carries the verdict of the filter, or that there were too many. */
  lemma {:induction false} RejectedItemsCarryTheirCause(rows: seq<Item>, plan: Plan, session: string, event: Fields, clock: string)
    ensures forall x | x in RejectedFrom(rows, plan, session, event, clock) ::
              || FilterItem(x.item, plan, event, clock) == RejectedFor(x.reason)
              || (x.reason == TooMany && FilterItem(x.item, plan, event, clock) == Accepted)
  {
    var candidates := Candidates(rows, plan, session);
    var accepted := AcceptedOf(candidates, plan, event, clock);
    FilteredOutMembers(candidates, plan, event, clock);
    AcceptedMembers(candidates, plan, event, clock);
    assert forall r | r in Drop(plan.maxItems, accepted) :: r in accepted;
  }

  lemma {:induction false} FilteredOutMembers(items: seq<Item>, plan: Plan, event: Fields, clock: string)
    ensures forall x | x in FilteredOut(items, plan, event, clock) ::
              FilterItem(x.item, plan, event, clock) == RejectedFor(x.reason)
  {
    if items != [] {
      FilteredOutMembers(Init(items), plan, event, clock);
    }
  }

  lemma CandidatesComeFromSession(rows: seq<Item>, plan: Plan, session: string, r: Item)
    requires DistinctIds(rows)
    ensures r in Candidates(rows, plan, session) ==>
              r in rows && r.sessionId == session && (plan.requestedTypes != [] || plan.requestedKeys != [])
  {
    CandidateIff(rows, plan, session, r);
    if t :| t in plan.requestedTypes && r in Query(rows, session, Some(t), "", 2 * plan.maxItems) {
      QueryMembers(rows, session, Some(t), "", 2 * plan.maxItems);
    } else if k :| k in plan.requestedKeys && r in Query(rows, session, None, k, 10) {
      QueryMembers(rows, session, None, k, 10);
    }
  }

  lemma RequestedRowIsCandidate(rows: seq<Item>, plan: Plan, session: string, r: Item)
    requires DistinctIds(rows) && r.memoryType in plan.requestedTypes
    requires |Query(rows, session, Some(r.memoryType), "", 2 * plan.maxItems)| < 2 * plan.maxItems
    ensures r in rows && r.sessionId == session && r.status in [Candidate, Active, Confirmed] ==>
              r in Candidates(rows, plan, session)
  {
    CandidateIff(rows, plan, session, r);
    QueryTakesNewest(rows, session, Some(r.memoryType), "", 2 * plan.maxItems);
  }
}
