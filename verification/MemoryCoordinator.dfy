/**
 The coordinator's three entry points: writing the memories of a run, applying a
 user correction, and recalling for a new run.
 */
module MemoryCoordinator {
  import opened Common
  import opened Projections
  import opened WriteGate
  import opened MemoryItems
  import opened Traces
  import opened MemoryRepository
  import T = Threads
  import M = MemoryRuns
  import R = Recall
  import RecallSafety

  datatype Resolved = Resolved(candidate: WriteCandidate, action: Action, reason: Reason)

  function ReasonOf(d: Decision): Reason {
    match d
    case Create => NoReason
    case Deduplicated(reason, _) => reason
    case Supersede(reason, _) => reason
    case Reject(reason) => reason
  }

  /** The decisions on the candidates, in their order. */
  predicate Logged(decisions: seq<Decision>, candidates: seq<WriteCandidate>, existing: seq<Item>) {
    |decisions| == |candidates| && forall i | 0 <= i < |decisions| :: decisions[i] == Decide(candidates[i], existing)
  }

  /** Turns gate decisions into the actions to execute, logging each. */
  class ConflictResolver {
    var decisions: seq<Decision>

    constructor ()
      ensures decisions == []
    {
      decisions := [];
    }

    method Resolve(candidates: seq<WriteCandidate>, gateDecisions: seq<Decision>) returns (results: seq<Resolved>)
      requires |gateDecisions| == |candidates|
      modifies this
      ensures decisions == gateDecisions
      ensures |results| == |candidates|
      ensures forall i | 0 <= i < |results| ::
                results[i] == Resolved(candidates[i], ActionFor(gateDecisions[i]), ReasonOf(gateDecisions[i]))
    {
      decisions, results := [], [];
      for i := 0 to |candidates|
        invariant decisions == gateDecisions[..i] && |results| == i
        invariant forall j | 0 <= j < i ::
                    results[j] == Resolved(candidates[j], ActionFor(gateDecisions[j]), ReasonOf(gateDecisions[j]))
      {
        var decision := gateDecisions[i];
        decisions := decisions + [decision];
        match decision {
          case Reject(reason) =>
            results := results + [Resolved(candidates[i], Refuse, reason)];
          case Deduplicated(reason, _) =>
            results := results + [Resolved(candidates[i], KeepExisting, reason)];
          case Supersede(reason, conflicting) =>
            results := results + [Resolved(candidates[i], Replace(conflicting.id), reason)];
          case Create =>
            results := results + [Resolved(candidates[i], MakeItem, NoReason)];
        }
      }
    }
  }

  datatype Outcome = CreatedItem(itemId: string) | SupersededItem(itemId: string, oldId: string) | NothingStored | Failed

  datatype WriteResult = WriteResult(candidate: WriteCandidate, action: Action, reason: Reason, outcome: Outcome)

  /** Each candidate is reported with the action and the reason the gate gave it. */
  predicate ResultsFor(results: seq<WriteResult>, candidates: seq<WriteCandidate>, existing: seq<Item>) {
    && |results| == |candidates|
    && forall i | 0 <= i < |results| ::
         && results[i].candidate == candidates[i]
         && results[i].action == ActionFor(Decide(candidates[i], existing))
         && results[i].reason == ReasonOf(Decide(candidates[i], existing))
  }

  datatype Report = Report(candidateCount: nat, results: seq<WriteResult>, failed: bool)

  /** How lists become the JSON text stored in traces. */
  datatype Encoding = Encoding(candidates: seq<WriteCandidate> -> string, results: seq<WriteResult> -> string)

  function WritePatch(b: Batch, written: WriteFields): Trace {
    Trace("memtrace_" + b.runId, b.runId, b.sessionId, NO_RECALL, written, b.threadId, "", "")
  }

  /** What the write phase records; without candidates, only that nothing was written. */
  function WrittenFields(encoding: Encoding, candidates: seq<WriteCandidate>, results: seq<WriteResult>, latency: int): WriteFields {
    if candidates == [] then WriteFields("[]", encoding.results([]), latency)
    else WriteFields(encoding.candidates(candidates), encoding.results(results), latency)
  }

  /** The store with new items and one trace merged; event threads are not touched. */
  function Written(before: Store, items: seq<Item>, patch: Trace, now: string): Store {
    before.(items := items,
            traces := before.traces[patch.runId := Merge(StoredTrace(before.traces, patch.runId), patch, WritePhase, now)])
  }

  /**
   The trace of a batch: its candidates and results under the run of the batch, beside the
   recall fields already stored; items are as given, and nothing else changes.
   */
  lemma WriteTraceRecordsBatch(
      before: Store, items: seq<Item>, b: Batch, encoding: Encoding, candidates: seq<WriteCandidate>, results: seq<WriteResult>,
      latency: int, now: string)
    requires b.runId in before.traces ==> RecallSpelledOut(before.traces[b.runId].recall)
    ensures var after := Written(before, items, WritePatch(b, WrittenFields(encoding, candidates, results, latency)), now);
            && after.items == items && after.threads == before.threads && after.pointers == before.pointers
            && after.traces.Keys == before.traces.Keys + {b.runId}
            && (forall run | run in before.traces && run != b.runId :: after.traces[run] == before.traces[run])
            && var row := after.traces[b.runId];
            && row.write.candidates == (if candidates == [] then "[]" else encoding.candidates(candidates))
            && row.write.results == encoding.results(if candidates == [] then [] else results) && row.write.latency == latency
            && row.recall == (if b.runId in before.traces then before.traces[b.runId].recall else NO_RECALL)
            && row.runId == b.runId && row.updatedAt == now
            && (b.runId !in before.traces ==>
                  && row.traceId == "memtrace_" + b.runId && row.sessionId == b.sessionId && row.eventThreadId == b.threadId
                  && row.createdAt == now)
  {
    if b.runId in before.traces {
      QuietWriteKeepsRecall(before.traces[b.runId].recall);
    }
  }

  class MemoryCoordinator {
    const repo: MemoryStore
    const resolver: ConflictResolver

    constructor (repo: MemoryStore)
      ensures this.repo == repo && fresh(resolver)
    {
      this.repo := repo;
      resolver := new ConflictResolver();
    }

    method Gate(candidates: seq<WriteCandidate>, existing: seq<Item>) returns (decisions: seq<Decision>)
      ensures |decisions| == |candidates|
      ensures forall i | 0 <= i < |decisions| :: decisions[i] == Decide(candidates[i], existing)
    {
      decisions := [];
      for i := 0 to |candidates|
        invariant |decisions| == i
        invariant forall j | 0 <= j < i :: decisions[j] == Decide(candidates[j], existing)
      {
        decisions := decisions + [Decide(candidates[i], existing)];
      }
    }

    /**
     An exception ends the action, is reported in its result and does not stop the
     batch. A replacement that fails after marking the old row leaves the mark.
     */
    method ExecuteAction(b: Batch, w: Write, reason: Reason, fault: Fault) returns (r: WriteResult)
      requires !w.action.MarkOnly?
      modifies repo`items
      ensures repo.items == Execute(old(repo.items), b, Faulted(w, fault))
      ensures r.candidate == w.candidate && r.action == w.action && r.reason == reason
      ensures r.outcome.CreatedItem? <==> w.action.MakeItem? && fault == NoFault
      ensures r.outcome.SupersededItem?
              <==> w.action.Replace? && w.action.oldId != "" && fault == NoFault && Has(old(repo.items), w.action.oldId)
      ensures r.outcome.CreatedItem? || r.outcome.SupersededItem? ==> Has(repo.items, r.outcome.itemId)
      ensures r.outcome.SupersededItem? ==> r.outcome.oldId == w.action.oldId
      ensures r.outcome.Failed?
              <==> Adds(w) && (fault != NoFault || (w.action.Replace? && w.action.oldId != "" && !Has(old(repo.items), w.action.oldId)))
    {
      var outcome := NothingStored;
      match w.action {
        case MakeItem =>
          if fault == NoFault {
            var created := repo.CreateItem(RowFor(b, w));
            outcome := CreatedItem(created.id);
          } else {
            outcome := Failed;
          }
        case Replace(oldId) =>
          if fault == FailsBeforeWriting {
            outcome := Failed;
          } else if oldId != "" {
            var created := repo.SupersedeItem(oldId, RowFor(b, w), b.now, fault == FailsAfterMarking);
            outcome := if created.Some? then SupersededItem(created.value.id, oldId) else Failed;
          } else if fault == FailsAfterMarking {
            outcome := Failed;
          }
        case KeepExisting =>
        case Refuse =>
        case MarkOnly(_) =>
      }
      r := WriteResult(w.candidate, w.action, reason, outcome);
    }

    method ExecuteBatch(b: Batch, resolved: seq<Resolved>, ids: seq<string>, faults: seq<Fault>, ghost ws: seq<Write>)
      returns (results: seq<WriteResult>)
      requires |ids| == |resolved| == |ws| == |faults|
      requires forall i | 0 <= i < |ws| :: ws[i] == Write(resolved[i].candidate, resolved[i].action, ids[i]) && !ws[i].action.MarkOnly?
      modifies repo`items
      ensures repo.items == ExecuteAll(old(repo.items), b, WithFaults(ws, faults))
      ensures |results| == |resolved|
      ensures forall i | 0 <= i < |results| ::
                && results[i].candidate == resolved[i].candidate && results[i].action == resolved[i].action
                && results[i].reason == resolved[i].reason
    {
      results := [];
      ghost var all := WithFaults(ws, faults);
      for i := 0 to |resolved|
        invariant repo.items == ExecuteAll(old(repo.items), b, all[..i])
        invariant |results| == i
        invariant forall j | 0 <= j < i ::
                    && results[j].candidate == resolved[j].candidate && results[j].action == resolved[j].action
                    && results[j].reason == resolved[j].reason
      {
        assert Init(all[..i + 1]) == all[..i];
        var r := ExecuteAction(b, Write(resolved[i].candidate, resolved[i].action, ids[i]), resolved[i].reason, faults[i]);
        results := results + [r];
      }
      assert all[..|all|] == all;
    }

    method SaveWriteTrace(b: Batch, written: WriteFields, now: string)
      modifies repo`traces
      ensures repo.traces == old(repo.traces)[b.runId :=
                Merge(StoredTrace(old(repo.traces), b.runId), WritePatch(b, written), WritePhase, now)]
    {
      var trace := new MemoryTrace(WritePatch(b, written));
      repo.MergeTrace(trace, WritePhase, now);
    }

    /** Steps other writers commit between two statements of a caller. */
    method OthersWork(steps: seq<M.Step>)
      requires forall s | s in steps :: M.WellFormed(s)
      modifies repo`items
      ensures repo.items == M.RowsAfter(old(repo.items), steps)
    {
      repo.items := M.RowsAfter(repo.items, steps);
    }

    /**
     Writes the memories of a run: all judged against the items read at the start,
     all written with their trace in one transaction that begins later, so that
     others may commit in between. `faults` are exceptions inside single actions;
     `storeFails` is a database error while the trace is saved or the transaction
     commits.
     */
    method ExtractAndWrite(b: Batch, candidates: seq<WriteCandidate>, ids: seq<string>, faults: seq<Fault>, meanwhile: seq<M.Step>,
                           now: string, latency: int, encoding: Encoding, storeFails: bool) returns (report: Report)
      requires |ids| == |candidates| == |faults| && repo.saved.None?
      requires forall s | s in meanwhile :: M.WellFormed(s)
      modifies repo, resolver
      ensures repo.saved.None?
      ensures report.failed == storeFails && (storeFails ==> report.candidateCount == 0)
      ensures var atBegin := old(repo.Contents()).(items := M.RowsAfter(old(repo.items), meanwhile));
              if storeFails then repo.Contents() == atBegin
              else
                var ws := WithFaults(Planned(old(repo.items), b, candidates, ids), faults);
                var patch := WritePatch(b, WrittenFields(encoding, candidates, report.results, latency));
                repo.Contents() == Written(atBegin, ExecuteAll(atBegin.items, b, ws), patch, now)
      ensures !storeFails ==>
                && |report.results| == report.candidateCount == |candidates|
                && ResultsFor(report.results, candidates, Query(old(repo.items), b.sessionId, None, "", VISIBLE))
      ensures candidates != [] ==> Logged(resolver.decisions, candidates, Query(old(repo.items), b.sessionId, None, "", VISIBLE))
    {
      if candidates == [] {
        OthersWork(meanwhile);
        if storeFails {
          return Report(0, [], true);
        }
        SaveWriteTrace(b, WrittenFields(encoding, [], [], latency), now);
        return Report(0, [], false);
      }
      ghost var planned := Planned(repo.items, b, candidates, ids);
      var resolved := JudgeCandidates(b, candidates, ids);
      OthersWork(meanwhile);
      var results := StoreBatch(b, candidates, resolved, ids, faults, planned, now, latency, encoding, storeFails);
      report := Report(if storeFails then 0 else |candidates|, results, storeFails);
    }

    /** Actions and trace in one transaction. */
    method StoreBatch(b: Batch, candidates: seq<WriteCandidate>, resolved: seq<Resolved>, ids: seq<string>, faults: seq<Fault>,
                      ghost ws: seq<Write>, now: string, latency: int, encoding: Encoding, storeFails: bool)
      returns (results: seq<WriteResult>)
      requires |ids| == |resolved| == |ws| == |faults| && repo.saved.None?
      requires forall i | 0 <= i < |ws| :: ws[i] == Write(resolved[i].candidate, resolved[i].action, ids[i]) && !ws[i].action.MarkOnly?
      modifies repo
      ensures repo.saved.None? && |results| == |resolved|
      ensures forall i | 0 <= i < |results| ::
                && results[i].candidate == resolved[i].candidate && results[i].action == resolved[i].action
                && results[i].reason == resolved[i].reason
      ensures repo.Contents()
           == if storeFails then old(repo.Contents())
              else Written(old(repo.Contents()), ExecuteAll(old(repo.items), b, WithFaults(ws, faults)),
                           WritePatch(b, WrittenFields(encoding, candidates, results, latency)), now)
    {
      var begun := repo.Begin();
      results := ExecuteBatch(b, resolved, ids, faults, ws);
      if storeFails {
        repo.Rollback();
        return;
      }
      SaveWriteTrace(b, WrittenFields(encoding, candidates, results, latency), now);
      repo.Commit();
    }

    method JudgeCandidates(b: Batch, candidates: seq<WriteCandidate>, ids: seq<string>) returns (resolved: seq<Resolved>)
      requires |ids| == |candidates|
      modifies resolver
      ensures |resolved| == |candidates|
      ensures var ws := Planned(repo.items, b, candidates, ids);
              forall i | 0 <= i < |ws| :: ws[i] == Write(resolved[i].candidate, resolved[i].action, ids[i]) && !ws[i].action.MarkOnly?
      ensures var existing := Query(repo.items, b.sessionId, None, "", VISIBLE);
              && Logged(resolver.decisions, candidates, existing)
              && forall i | 0 <= i < |resolved| :: resolved[i].reason == ReasonOf(Decide(candidates[i], existing))
    {
      var existing := Query(repo.items, b.sessionId, None, "", VISIBLE);
      var decisions := Gate(candidates, existing);
      resolved := resolver.Resolve(candidates, decisions);
    }

    /** Replaces or creates the corrected fact and records the correction, in one transaction. */
    method ApplyUserCorrection(k: M.Correction, intent: string, now: string, storeFails: bool) returns (success: bool)
      requires repo.saved.None? && forall r | r in repo.items :: r.id != ""
      modifies repo
      ensures repo.saved.None? && success == !storeFails
      ensures storeFails ==> repo.Contents() == old(repo.Contents())
      ensures !storeFails ==>
                var items := ExecuteAll(old(repo.items), M.CorrectionBatch(k), M.CorrectionWrites(old(repo.items), k));
                repo.Contents() == Written(old(repo.Contents()), items, CorrectionPatch(k.runId, k.sessionId, intent), now)
    {
      var begun := repo.Begin();
      WriteCorrection(k);
      if storeFails {
        repo.Rollback();
        return false;
      }
      var trace := new MemoryTrace(CorrectionPatch(k.runId, k.sessionId, intent));
      repo.MergeTrace(trace, WritePhase, now);
      repo.Commit();
      success := true;
    }

    method WriteCorrection(k: M.Correction)
      requires forall r | r in repo.items :: r.id != ""
      modifies repo`items
      ensures repo.items == ExecuteAll(old(repo.items), M.CorrectionBatch(k), M.CorrectionWrites(old(repo.items), k))
    {
      TwoWrites(repo.items, M.CorrectionBatch(k), M.CorrectionWrites(repo.items, k));
      WriteFact(k);
      var audit := Write(M.AuditCandidate(k), MakeItem, k.auditId);
      var stored := repo.CreateItem(RowFor(M.CorrectionBatch(k), audit));
    }

    method WriteFact(k: M.Correction)
      requires forall r | r in repo.items :: r.id != ""
      modifies repo`items
      ensures repo.items == Execute(old(repo.items), M.CorrectionBatch(k), M.FactWrite(old(repo.items), k))
    {
      var b := M.CorrectionBatch(k);
      var found := M.FindActiveByKey(repo.items, k.sessionId, k.memoryKey);
      M.FoundIsLive(repo.items, k.sessionId, k.memoryKey);
      if found.Some? && found.value.memoryType == StableFact {
        var fact := Write(M.FactCandidate(k), Replace(found.value.id), k.factId);
        var replaced := repo.SupersedeItem(found.value.id, RowFor(b, fact), b.now, false);
      } else {
        var created := repo.CreateItem(RowFor(b, Write(M.FactCandidate(k), MakeItem, k.factId)));
      }
    }

    /** The event thread a recall works in: a new one, the current one, or the first. */
    method ResolveThread(c: T.Client) returns (threadId: string)
      modifies repo`threads, repo`pointers
      ensures T.Resolved(repo.threads, repo.pointers, threadId) == T.Resolve(old(repo.threads), old(repo.pointers), c)
    {
      threadId := T.PointerOf(repo.pointers, c.sessionId);
      var found := threadId != "" && T.HasThread(repo.threads, threadId);
      if c.startsNew {
        if found {
          repo.CloseEventThread(threadId);
        }
        repo.CreateEventThread(c.sessionId, c.title, c.runId, c.newId);
        threadId := c.newId;
      } else if threadId == "" {
        repo.CreateEventThread(c.sessionId, c.title, c.runId, c.newId);
        threadId := c.newId;
      } else {
        repo.UpdateEventThreadLastRun(threadId, c.runId);
      }
    }

    /** Resolves the thread, plans, and retrieves, for a recall that runs undisturbed. */
    method RecallItems(c: T.Client, intent: R.Intent, hints: seq<string>, event: Fields, clock: string)
      returns (threadId: string, selected: seq<Item>, rejected: seq<R.RejectedItem>)
      requires c.newId != "" && (intent == R.FreshEvent ==> c.startsNew)
      modifies repo`threads, repo`pointers
      ensures T.Resolved(repo.threads, repo.pointers, threadId) == T.Resolve(old(repo.threads), old(repo.pointers), c)
      ensures threadId != "" && T.PointerOf(repo.pointers, c.sessionId) == threadId
      ensures selected == R.Selected(repo.items, R.PlanFor(intent, hints, c.sessionId, threadId), c.sessionId, event, clock)
      ensures rejected == R.RejectedFrom(repo.items, R.PlanFor(intent, hints, c.sessionId, threadId), c.sessionId, event, clock)
      ensures forall r | r in selected && R.IsFact(r.memoryType) :: r.eventThreadId == threadId
    {
      threadId := ResolveThread(c);
      var plan := R.BuildPlan(intent, hints, c.sessionId, threadId);
      var candidates;
      candidates, selected, rejected := R.Retrieve(repo.items, plan.View(), event, c.sessionId, clock);
      forall r | r in selected && R.IsFact(r.memoryType)
        ensures r.eventThreadId == threadId
      {
        RecallSafety.FactsStayInTheirThread(repo.items, intent, hints, c.sessionId, threadId, event, clock, r);
      }
    }
  }

  lemma TwoWrites(rows: seq<Item>, b: Batch, ws: seq<Write>)
    requires |ws| == 2
    ensures ExecuteAll(rows, b, ws) == Execute(Execute(rows, b, ws[0]), b, ws[1])
  {
    assert Init(ws) == [ws[0]];
    assert Init([ws[0]]) == [];
    assert ExecuteAll(rows, b, [ws[0]]) == Execute(ExecuteAll(rows, b, []), b, ws[0]);
  }
}
