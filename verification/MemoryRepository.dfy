/**
 The memory repository: the stored rows, the operations that change them, and a
 transaction that either keeps all changes or restores what was stored before.
 */
module MemoryRepository {
  import opened Common
  import opened Projections
  import opened WriteGate
  import opened MemoryItems
  import opened Traces
  import T = Threads

  datatype Store = Store(
    items: seq<Item>, traces: map<string, Trace>, threads: seq<T.Thread>, pointers: map<string, string>)

  function StoredTrace(traces: map<string, Trace>, runId: string): Option<Trace> {
    if runId in traces then Some(traces[runId]) else None
  }

  /** The trace object a phase hands in; merging completes it in place. */
  class MemoryTrace {
    var traceId: string
    var runId: string
    var sessionId: string
    var recallIntent: string
    var recallDecision: string
    var recallPlan: string
    var candidates: string
    var selected: string
    var rejected: string
    var injectionMap: string
    var recallLatency: int
    var tokenEstimate: int
    var writeCandidates: string
    var writeResults: string
    var writeLatency: int
    var eventThreadId: string
    var createdAt: string
    var updatedAt: string

    function Recall(): RecallFields
      reads this
    {
      RecallFields(recallIntent, recallDecision, recallPlan, candidates, selected, rejected, injectionMap, recallLatency, tokenEstimate)
    }

    function Written(): WriteFields
      reads this
    {
      WriteFields(writeCandidates, writeResults, writeLatency)
    }

    function View(): Trace
      reads this
    {
      Trace(traceId, runId, sessionId, Recall(), Written(), eventThreadId, createdAt, updatedAt)
    }

    constructor (t: Trace)
      ensures View() == t
    {
      traceId, runId, sessionId := t.traceId, t.runId, t.sessionId;
      recallIntent, recallDecision, recallPlan := t.recall.intent, t.recall.decision, t.recall.plan;
      candidates, selected, rejected := t.recall.candidates, t.recall.selected, t.recall.rejected;
      injectionMap, recallLatency, tokenEstimate := t.recall.injectionMap, t.recall.latency, t.recall.tokens;
      writeCandidates, writeResults, writeLatency := t.write.candidates, t.write.results, t.write.latency;
      eventThreadId, createdAt, updatedAt := t.eventThreadId, t.createdAt, t.updatedAt;
    }

    /** Keeps stored recall fields wherever this patch leaves them blank. */
    method KeepRecallOf(stored: RecallFields)
      modifies `recallIntent, `recallDecision, `recallPlan, `candidates, `selected, `rejected,
               `injectionMap, `recallLatency, `tokenEstimate
      ensures Recall() == KeepRecall(old(Recall()), stored)
    {
      KeepPlanOf(stored);
      KeepListsOf(stored);
      KeepInjectionOf(stored);
    }

    method KeepPlanOf(stored: RecallFields)
      modifies `recallIntent, `recallDecision, `recallPlan
      ensures recallIntent == KeepText(old(recallIntent), stored.intent)
      ensures recallDecision == KeepObject(old(recallDecision), stored.decision)
      ensures recallPlan == KeepObject(old(recallPlan), stored.plan)
    {
      if recallIntent == "" && stored.intent != "" {
        recallIntent := stored.intent;
      }
      if BlankObject(recallDecision) && !BlankObject(stored.decision) {
        recallDecision := stored.decision;
      }
      if BlankObject(recallPlan) && !BlankObject(stored.plan) {
        recallPlan := stored.plan;
      }
    }

    method KeepListsOf(stored: RecallFields)
      modifies `candidates, `selected, `rejected
      ensures candidates == KeepArray(old(candidates), stored.candidates)
      ensures selected == KeepArray(old(selected), stored.selected)
      ensures rejected == KeepArray(old(rejected), stored.rejected)
    {
      if BlankArray(candidates) && !BlankArray(stored.candidates) {
        candidates := stored.candidates;
      }
      if BlankArray(selected) && !BlankArray(stored.selected) {
        selected := stored.selected;
      }
      if BlankArray(rejected) && !BlankArray(stored.rejected) {
        rejected := stored.rejected;
      }
    }

    method KeepInjectionOf(stored: RecallFields)
      modifies `injectionMap, `recallLatency, `tokenEstimate
      ensures injectionMap == KeepObject(old(injectionMap), stored.injectionMap)
      ensures recallLatency == KeepNumber(old(recallLatency), stored.latency)
      ensures tokenEstimate == KeepNumber(old(tokenEstimate), stored.tokens)
    {
      if BlankObject(injectionMap) && !BlankObject(stored.injectionMap) {
        injectionMap := stored.injectionMap;
      }
      if recallLatency == 0 && stored.latency != 0 {
        recallLatency := stored.latency;
      }
      if tokenEstimate == 0 && stored.tokens != 0 {
        tokenEstimate := stored.tokens;
      }
    }

    method KeepWriteOf(stored: WriteFields)
      modifies `writeCandidates, `writeResults, `writeLatency
      ensures Written() == KeepWrite(old(Written()), stored)
    {
      if BlankArray(writeCandidates) && !BlankArray(stored.candidates) {
        writeCandidates := stored.candidates;
      }
      if BlankArray(writeResults) && !BlankArray(stored.results) {
        writeResults := stored.results;
      }
      if writeLatency == 0 && stored.latency != 0 {
        writeLatency := stored.latency;
      }
    }

    /** Session, creation time and trace id stay as stored; the event thread only if this patch names none. */
    method KeepIdentityOf(stored: Trace)
      modifies `sessionId, `createdAt, `eventThreadId, `traceId
      ensures sessionId == if stored.sessionId != "" then stored.sessionId else old(sessionId)
      ensures createdAt == if stored.createdAt != "" then stored.createdAt else old(createdAt)
      ensures eventThreadId == KeepText(old(eventThreadId), stored.eventThreadId)
      ensures traceId == stored.traceId
    {
      if stored.sessionId != "" {
        sessionId := stored.sessionId;
      }
      if stored.createdAt != "" {
        createdAt := stored.createdAt;
      }
      if eventThreadId == "" && stored.eventThreadId != "" {
        eventThreadId := stored.eventThreadId;
      }
      traceId := stored.traceId;
    }

    method FillRecall(stored: Trace)
      modifies this
      ensures View() == Filled(stored, old(View()), WritePhase)
    {
      ghost var patch := View();
      KeepRecallOf(stored.recall);
      ghost var kept := Recall();
      KeepIdentityOf(stored);
      assert Recall() == kept && Written() == patch.write;
    }

    method FillWritten(stored: Trace)
      modifies this
      ensures View() == Filled(stored, old(View()), RecallPhase)
    {
      ghost var patch := View();
      KeepWriteOf(stored.write);
      ghost var kept := Written();
      KeepIdentityOf(stored);
      assert Written() == kept && Recall() == patch.recall;
    }
  }

  class MemoryStore {
    var items: seq<Item>
    var traces: map<string, Trace>
    var threads: seq<T.Thread>
    var pointers: map<string, string>
    var saved: Option<Store>

    ghost function Contents(): Store
      reads this
    {
      Store(items, traces, threads, pointers)
    }

    constructor ()
      ensures Contents() == Store([], map[], [], map[]) && saved == None
    {
      items, traces, threads, pointers, saved := [], map[], [], map[], None;
    }

    // ---- transactions ----------------------------------------------------------------------

    /** Transactions do not nest: a second one is refused. */
    method Begin() returns (ok: bool)
      modifies this`saved
      ensures ok == old(saved).None?
      ensures saved == if ok then Some(Contents()) else old(saved)
    {
      ok := saved.None?;
      if ok {
        saved := Some(Store(items, traces, threads, pointers));
      }
    }

    method Commit()
      modifies this`saved
      ensures saved == None
    {
      saved := None;
    }

    method Rollback()
      requires saved.Some?
      modifies this
      ensures Contents() == old(saved).value && saved == None
    {
      var before := saved.value;
      items, traces, threads, pointers := before.items, before.traces, before.threads, before.pointers;
      saved := None;
    }

    // ---- items -------------------------------------------------------------------------------

    /** The stored item with this key, looking through rows of every status. */
    method FindByKey(key: Option<DedupKey>) returns (found: Option<Item>)
      ensures found.Some? == Duplicate(items, key)
      ensures found.Some? ==> found.value in items && found.value.dedupKey == key
    {
      found := None;
      if key.None? {
        return;
      }
      for i := 0 to |items|
        invariant found == None
        invariant forall j | 0 <= j < i :: items[j].dedupKey != key
      {
        if items[i].dedupKey == key {
          return Some(items[i]);
        }
      }
    }

    /** Creating an item with the key of a stored one returns that one and stores nothing. */
    method CreateItem(item: Item) returns (created: Item)
      modifies this`items
      ensures items == MemoryItems.CreateItem(old(items), item)
      ensures created in items && (item.dedupKey.Some? ==> created.dedupKey == item.dedupKey)
      ensures if Duplicate(old(items), item.dedupKey) then created in old(items) else created == item
    {
      var existing := FindByKey(item.dedupKey);
      if existing.Some? {
        return existing.value;
      }
      items := items + [item];
      created := item;
    }

    /**
     Marks the old row, then stores the new one. `insertFails` is an exception
     between the two; within a transaction the mark then stays.
     */
    method SupersedeItem(oldId: string, item: Item, now: int, insertFails: bool) returns (created: Option<Item>)
      modifies this`items
      ensures items == if !Has(old(items), oldId) then old(items)
                       else if insertFails then MarkSuperseded(old(items), {oldId}, now)
                       else MemoryItems.SupersedeItem(old(items), oldId, item, now)
      ensures created.Some? == (Has(old(items), oldId) && !insertFails)
      ensures created.Some? ==> created.value in items
    {
      if !Has(items, oldId) {
        return None;
      }
      items := MarkSuperseded(items, {oldId}, now);
      if insertFails {
        return None;
      }
      var stored := CreateItem(item);
      created := Some(stored);
    }

    method ExpireDueItems(session: Option<string>, clock: string, now: int) returns (count: nat)
      modifies this`items
      ensures items == ExpireDue(old(items), session, clock, now)
      ensures count == |Filter((r: Item) => InScope(r, session) && Due(r, clock), old(items))|
    {
      var due := (r: Item) => InScope(r, session) && Due(r, clock);
      count := |Filter(due, items)|;
      items := ExpireDue(items, session, clock, now);
    }

    // ---- traces -------------------------------------------------------------------------------

    /** Merging completes the phase's own trace object, then stores it. */
    method MergeTrace(trace: MemoryTrace, phase: Phase, now: string)
      modifies `traces, trace
      ensures trace.runId == old(trace.runId)
      ensures trace.View() == Completed(StoredTrace(old(traces), trace.runId), old(trace.View()), phase, now)
      ensures traces == old(traces)[trace.runId := Merge(StoredTrace(old(traces), trace.runId), old(trace.View()), phase, now)]
    {
      CompleteTrace(trace, phase, now);
      SaveTrace(trace);
    }

    method CompleteTrace(trace: MemoryTrace, phase: Phase, now: string)
      modifies trace
      ensures trace.runId == old(trace.runId)
      ensures trace.View() == Completed(StoredTrace(traces, trace.runId), old(trace.View()), phase, now)
    {
      var existing := StoredTrace(traces, trace.runId);
      if existing.Some? {
        if phase == WritePhase {
          trace.FillRecall(existing.value);
        } else {
          trace.FillWritten(existing.value);
        }
      }
      if trace.createdAt == "" {
        trace.createdAt := now;
      }
      trace.updatedAt := now;
    }

    /** Updates the run's row, or inserts it. */
    method SaveTrace(trace: MemoryTrace)
      modifies `traces
      ensures traces == old(traces)[trace.runId := SavedRow(StoredTrace(old(traces), trace.runId), trace.View())]
    {
      var row := trace.View();
      if trace.runId in traces {
        row := row.(traceId := traces[trace.runId].traceId, createdAt := traces[trace.runId].createdAt);
      }
      traces := traces[trace.runId := row];
    }

    // ---- event threads -----------------------------------------------------------------------------

    method CreateEventThread(sessionId: string, title: string, startedRunId: string, id: string)
      modifies this`threads, this`pointers
      ensures threads == T.CreateThread(old(threads), sessionId, id, title, startedRunId)
      ensures pointers == old(pointers)[sessionId := id]
    {
      threads := T.CloseSession(threads, sessionId);
      threads := threads + [T.Thread(id, sessionId, true, title, startedRunId, startedRunId)];
      pointers := pointers[sessionId := id];
    }

    method CloseEventThread(id: string)
      modifies this`threads
      ensures threads == T.CloseThread(old(threads), id)
    {
      threads := T.CloseThread(threads, id);
    }

    method UpdateEventThreadLastRun(id: string, runId: string)
      modifies this`threads
      ensures threads == T.TouchThread(old(threads), id, runId)
    {
      threads := T.TouchThread(threads, id, runId);
    }
  }
}
