/**
 What recall guarantees: facts and decisions never leave their event thread, every
 candidate is accounted for once, and a replaced fact is not recalled again.
 */
module RecallSafety {
  import opened Common
  import opened Projections
  import opened Sorting
  import opened WriteGate
  import opened MemoryItems
  import M = MemoryRuns
  import MC = MemoryContent
  import S = MemorySlots
  import opened Recall

  // ---- selection -------------------------------------------------------------------------------

  lemma {:induction false} AcceptedMembers(items: seq<Item>, plan: Plan, event: Fields, clock: string)
    ensures forall r | r in AcceptedOf(items, plan, event, clock) ::
              r in items && FilterItem(r, plan, event, clock).Accepted?
  {
    if items != [] {
      AcceptedMembers(Init(items), plan, event, clock);
      assert items == Init(items) + [Last(items)];
    }
  }

  lemma SelectedMembers(rows: seq<Item>, plan: Plan, session: string, event: Fields, clock: string)
    ensures forall r | r in Selected(rows, plan, session, event, clock) ::
              r in Candidates(rows, plan, session) && FilterItem(r, plan, event, clock).Accepted?
  {
    AcceptedMembers(Candidates(rows, plan, session), plan, event, clock);
    var accepted := AcceptedOf(Candidates(rows, plan, session), plan, event, clock);
    forall r | r in Take(plan.maxItems, accepted)
      ensures r in accepted
    {
    }
  }

  lemma NothingRequestedNothingFetched(rows: seq<Item>, plan: Plan, session: string)
    requires plan.requestedTypes == [] && plan.requestedKeys == []
    ensures Candidates(rows, plan, session) == []
  {
  }

  lemma AcceptedStaysInThread(item: Item, intent: Intent, hints: seq<string>, session: string, thread: string, event: Fields, clock: string)
    requires thread != "" && intent != FreshEvent && intent != Ambiguous
    requires FilterItem(item, PlanFor(intent, hints, session, thread), event, clock).Accepted?
    ensures item.eventThreadId == thread
         || (item.eventThreadId == "" && !IsFact(item.memoryType))
         || (intent == MemoryQuery && item.memoryType == RunSummary)
  {
    var plan := PlanFor(intent, hints, session, thread);
    if intent == MemoryQuery {
      assert item.memoryType in plan.requestedTypes;
    } else {
      assert !plan.includeHistoricalThreads && plan.eventThreadId == thread;
    }
  }

  /**
   For every plan that can be built with an active thread, each selected fact or
   decision belongs to that thread; anything selected from another thread is a run
   summary asked for by a memory query.
   */
  lemma FactsStayInTheirThread(
      rows: seq<Item>, intent: Intent, hints: seq<string>, session: string, thread: string, event: Fields, clock: string, r: Item)
    requires thread != "" && r in Selected(rows, PlanFor(intent, hints, session, thread), session, event, clock)
    ensures IsFact(r.memoryType) ==> r.eventThreadId == thread
    ensures r.eventThreadId == thread || r.eventThreadId == "" || (intent == MemoryQuery && r.memoryType == RunSummary)
  {
    var plan := PlanFor(intent, hints, session, thread);
    SelectedMembers(rows, plan, session, event, clock);
    if intent == FreshEvent || intent == Ambiguous {
      NothingRequestedNothingFetched(rows, plan, session);
    } else {
      AcceptedStaysInThread(r, intent, hints, session, thread, event, clock);
    }
  }

  // ---- candidates have distinct ids ----------------------------------------------------------------

  ghost predicate DistinctIds(items: seq<Item>) {
    forall i, j | 0 <= i < j < |items| :: items[i].id != items[j].id
  }

  lemma {:induction false} InsertKeepsDistinctIds(x: Item, items: seq<Item>)
    requires DistinctIds(items) && !Has(items, x.id)
    ensures DistinctIds(Insert(NewerFirst, x, items))
  {
    if items != [] {
      assert items == Init(items) + [Last(items)];
      if NewerFirst(Last(items), x) {
        assert forall i | 0 <= i < |items| :: items[i] in items;
      } else {
        InsertKeepsDistinctIds(x, Init(items));
        InsertPermutes(NewerFirst, x, Init(items));
        PermutationMembers(Insert(NewerFirst, x, Init(items)), Init(items) + [x]);
        LastIsApart(Insert(NewerFirst, x, Init(items)), items, x);
      }
    }
  }

  lemma LastIsApart(inserted: seq<Item>, items: seq<Item>, x: Item)
    requires items != [] && DistinctIds(items) && !Has(items, x.id) && DistinctIds(inserted)
    requires forall r | r in inserted :: r in Init(items) + [x]
    ensures DistinctIds(inserted + [Last(items)])
  {
    assert Last(items) in items;
    forall i | 0 <= i < |inserted|
      ensures inserted[i].id != Last(items).id
    {
      assert inserted[i] in Init(items) + [x];
      if inserted[i] != x {
        var k :| 0 <= k < |items| - 1 && items[k] == inserted[i];
      }
    }
  }

  lemma {:induction false} SortKeepsDistinctIds(items: seq<Item>)
    requires DistinctIds(items)
    ensures DistinctIds(Sort(NewerFirst, items))
  {
    if items != [] {
      SortKeepsDistinctIds(Init(items));
      SortPermutes(NewerFirst, Init(items));
      PermutationMembers(Sort(NewerFirst, Init(items)), Init(items));
      InsertKeepsDistinctIds(Last(items), Sort(NewerFirst, Init(items)));
    }
  }

  lemma {:induction false} FilterKeepsDistinctIds(p: Item -> bool, items: seq<Item>)
    requires DistinctIds(items)
    ensures DistinctIds(Filter(p, items))
  {
    if items != [] {
      FilterKeepsDistinctIds(p, Init(items));
      FilterMembers(p, Init(items));
      forall r | r in Filter(p, Init(items))
        ensures r.id != Last(items).id
      {
        var k :| 0 <= k < |items| - 1 && items[k] == r;
      }
    }
  }

  lemma QueryHasDistinctIds(rows: seq<Item>, session: string, memoryType: Option<MemoryType>, memoryKey: string, limit: nat)
    requires DistinctIds(rows)
    ensures DistinctIds(Query(rows, session, memoryType, memoryKey, limit))
  {
    var matching := Matching(rows, session, memoryType, memoryKey);
    FilterKeepsDistinctIds(Matcher(session, memoryType, memoryKey), rows);
    SortKeepsDistinctIds(matching);
  }

  lemma JoinDistinctIds(xs: seq<Item>, ys: seq<Item>)
    requires DistinctIds(xs) && DistinctIds(ys)
    requires forall x, y | x in xs && y in ys :: x.id != y.id
    ensures DistinctIds(xs + ys)
  {
    assert forall i | 0 <= i < |xs| :: xs[i] in xs;
    assert forall j | 0 <= j < |ys| :: ys[j] in ys;
  }

  lemma SameIdSameRow(rows: seq<Item>, x: Item, y: Item)
    requires DistinctIds(rows) && x in rows && y in rows && x.id == y.id
    ensures x == y
  {
    var i :| 0 <= i < |rows| && rows[i] == x;
    var j :| 0 <= j < |rows| && rows[j] == y;
  }

  lemma {:induction false} ByTypesHasDistinctIds(rows: seq<Item>, session: string, types: seq<MemoryType>, limit: nat)
    requires DistinctIds(rows) && Distinct(types)
    ensures DistinctIds(ByTypes(rows, session, types, limit))
    ensures forall r | r in ByTypes(rows, session, types, limit) :: r in rows && r.memoryType in types
  {
    if types != [] {
      var prior, latest := ByTypes(rows, session, Init(types), limit), Query(rows, session, Some(Last(types)), "", limit);
      ByTypesHasDistinctIds(rows, session, Init(types), limit);
      QueryHasDistinctIds(rows, session, Some(Last(types)), "", limit);
      QueryMembers(rows, session, Some(Last(types)), "", limit);
      forall x, y | x in prior && y in latest
        ensures x.id != y.id
      {
        assert x.memoryType in Init(types) && y.memoryType == Last(types);
        if x.id == y.id {
          SameIdSameRow(rows, x, y);
        }
      }
      JoinDistinctIds(prior, latest);
    }
  }

  lemma {:induction false} AddNewKeepsDistinctIds(listed: seq<Item>, items: seq<Item>)
    requires DistinctIds(listed)
    ensures DistinctIds(AddNew(listed, items))
  {
    if items != [] {
      AddNewKeepsDistinctIds(listed, Init(items));
    }
  }

  lemma {:induction false} ByKeysKeepsDistinctIds(listed: seq<Item>, rows: seq<Item>, session: string, keys: seq<string>)
    requires DistinctIds(listed)
    ensures DistinctIds(ByKeys(listed, rows, session, keys))
  {
    if keys != [] {
      ByKeysKeepsDistinctIds(listed, rows, session, Init(keys));
      AddNewKeepsDistinctIds(ByKeys(listed, rows, session, Init(keys)), Query(rows, session, None, Last(keys), KEY_LIMIT));
    }
  }

  lemma PlannedTypesDiffer(intent: Intent, hints: seq<string>, session: string, thread: string)
    ensures Distinct(PlanFor(intent, hints, session, thread).requestedTypes)
  {
  }

  // ---- every candidate is accounted for once ----------------------------------------------------------

  function ItemsOf(rejected: seq<RejectedItem>): seq<Item> {
    seq(|rejected|, i requires 0 <= i < |rejected| => rejected[i].item)
  }

  lemma VerdictPartitions(accepted: seq<Item>, filtered: seq<RejectedItem>, items: seq<Item>, verdict: Verdict)
    requires items != [] && multiset(accepted) + multiset(ItemsOf(filtered)) == multiset(Init(items))
    ensures multiset(accepted + (if verdict.Accepted? then [Last(items)] else []))
            + multiset(ItemsOf(filtered + (match verdict
                                           case Accepted => []
                                           case RejectedFor(reason) => [RejectedItem(Last(items), reason)])))
         == multiset(items)
  {
    SplitLast(items);
    match verdict {
      case Accepted =>
        assert filtered + [] == filtered;
      case RejectedFor(reason) =>
        assert accepted + [] == accepted;
        assert ItemsOf(filtered + [RejectedItem(Last(items), reason)]) == ItemsOf(filtered) + [Last(items)];
    }
  }

  lemma {:induction false} FilterPartitions(items: seq<Item>, plan: Plan, event: Fields, clock: string)
    ensures multiset(AcceptedOf(items, plan, event, clock)) + multiset(ItemsOf(FilteredOut(items, plan, event, clock)))
         == multiset(items)
  {
    if items != [] {
      FilterPartitions(Init(items), plan, event, clock);
      var accepted, filtered := AcceptedOf(Init(items), plan, event, clock), FilteredOut(Init(items), plan, event, clock);
      VerdictPartitions(accepted, filtered, items, FilterItem(Last(items), plan, event, clock));
    }
  }

  lemma OverflowItems(filtered: seq<RejectedItem>, over: seq<Item>)
    ensures ItemsOf(filtered + Overflow(over)) == ItemsOf(filtered) + over
  {
  }

  lemma TakeDrop<T>(n: nat, xs: seq<T>)
    ensures Take(n, xs) + Drop(n, xs) == xs
  {
  }

  /**
   Selected and rejected items together are the candidates, each listed once; the
   candidates have distinct ids, and no more than the plan's limit are selected.
   */
  lemma RecallPartitionsCandidates(
      rows: seq<Item>, intent: Intent, hints: seq<string>, session: string, thread: string, event: Fields, clock: string)
    requires DistinctIds(rows)
    ensures var plan := PlanFor(intent, hints, session, thread);
            var candidates := Candidates(rows, plan, session);
            var selected := Selected(rows, plan, session, event, clock);
            && multiset(candidates) == multiset(selected) + multiset(ItemsOf(RejectedFrom(rows, plan, session, event, clock)))
            && DistinctIds(candidates)
            && |selected| <= plan.maxItems
  {
    var plan := PlanFor(intent, hints, session, thread);
    PlannedTypesDiffer(intent, hints, session, thread);
    ByTypesHasDistinctIds(rows, session, plan.requestedTypes, plan.maxItems * 2);
    ByKeysKeepsDistinctIds(ByTypes(rows, session, plan.requestedTypes, plan.maxItems * 2), rows, session, plan.requestedKeys);
    CandidatesSplit(Candidates(rows, plan, session), plan, event, clock);
  }

  lemma CandidatesSplit(candidates: seq<Item>, plan: Plan, event: Fields, clock: string)
    ensures var accepted := AcceptedOf(candidates, plan, event, clock);
            var rejected := FilteredOut(candidates, plan, event, clock) + Overflow(Drop(plan.maxItems, accepted));
            multiset(candidates) == multiset(Take(plan.maxItems, accepted)) + multiset(ItemsOf(rejected))
  {
    var accepted := AcceptedOf(candidates, plan, event, clock);
    FilterPartitions(candidates, plan, event, clock);
    OverflowItems(FilteredOut(candidates, plan, event, clock), Drop(plan.maxItems, accepted));
    TakeDrop(plan.maxItems, accepted);
  }

  // ---- replaced facts are forgotten --------------------------------------------------------------------

  lemma ThreadlessFactIsRejected(r: Item, plan: Plan, event: Fields, clock: string)
    requires IsFact(r.memoryType) && r.eventThreadId == ""
    ensures FilterItem(r, plan, event, clock).RejectedFor?
  {
  }

  /**
   In any history, a stable fact the user corrected is never selected, by any plan:
   corrections are stored without an event thread, even the first value of a key.
   */
  lemma CorrectedFactIsNeverRecalled(
      trace: seq<seq<Item>>, steps: seq<M.Step>, plan: Plan, session: string, event: Fields, clock: string, r: Item)
    requires M.AnyHistory(trace, steps) && MC.Each(MC.CorrectedFactThreadless(), trace[0])
    requires r in Last(trace) && r.memoryType == StableFact && r.source == FromUserCorrection
    ensures r !in Selected(Last(trace), plan, session, event, clock)
  {
    MC.CorrectedFactsAreThreadless(trace, steps);
    assert MC.CorrectedFactThreadless()(r);
    SelectedMembers(Last(trace), plan, session, event, clock);
    ThreadlessFactIsRejected(r, plan, event, clock);
  }

  /** In any history, a row that replaced a fact or decision is never selected, by any plan. */
  lemma ReplacementIsNeverRecalled(
      trace: seq<seq<Item>>, steps: seq<M.Step>, plan: Plan, session: string, event: Fields, clock: string, r: Item)
    requires M.AnyHistory(trace, steps) && MC.Each(MC.RowThreadless(), trace[0])
    requires r in Last(trace) && IsFact(r.memoryType) && r.supersedesId != ""
    ensures r !in Selected(Last(trace), plan, session, event, clock)
  {
    MC.ReplacementsAreThreadless(trace, steps);
    assert MC.RowThreadless()(r);
    SelectedMembers(Last(trace), plan, session, event, clock);
    ThreadlessFactIsRejected(r, plan, event, clock);
  }

  lemma {:induction false} TopIsReplacement(rows: seq<Item>, i: nat)
    requires S.Inv(rows) && i < |rows| && rows[i].status == Superseded
    ensures rows[M.Top(rows, i)].supersedesId != ""
    decreases |rows| - i
  {
    M.SupersededByIsWellDefined(rows, i);
    var next := M.SupersededBy(rows, rows[i].id).value;
    assert rows[i] in rows;
    if rows[next].status == Superseded {
      TopIsReplacement(rows, next);
    } else {
      M.SupersededByIsWellDefined(rows, next);
    }
  }

  /**
   So once a fact has been replaced, its slot is forgotten: the row at the top of the
   replaced row's chain, the slot's holder, is not selected by any plan.
   */
  lemma ReplacedFactIsForgotten(rows: seq<Item>, i: nat, plan: Plan, session: string, event: Fields, clock: string)
    requires S.Inv(rows) && MC.Each(MC.RowThreadless(), rows)
    requires i < |rows| && rows[i].status == Superseded && IsFact(rows[i].memoryType)
    ensures rows[M.Top(rows, i)] !in Selected(rows, plan, session, event, clock)
  {
    TopIsReplacement(rows, i);
    M.ChainEndsInSlot(rows, i);
    var top := rows[M.Top(rows, i)];
    assert top in rows && MC.RowThreadless()(top);
    SelectedMembers(rows, plan, session, event, clock);
    ThreadlessFactIsRejected(top, plan, event, clock);
  }
}
