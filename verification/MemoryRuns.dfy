/**
 Whole histories of the item table: batches of gated writes, direct user
 corrections and expiry sweeps, in any order.
 */
module MemoryRuns {
  import opened Common
  import opened Projections
  import opened Sorting
  import opened WriteGate
  import opened MemoryItems
  import opened MemorySlots
  import opened MemoryChains

  // ---- user corrections ------------------------------------------------------------------

  const CORRECTION_AUTHORITY := 100

  datatype Correction = Correction(
    sessionId: string, runId: string, messageId: string, memoryKey: string,
    oldValue: Json, newValue: Json, factText: string, auditText: string,
    factId: string, auditId: string, now: int)

  predicate HigherFirst(a: Item, b: Item) {
    a.authority > b.authority || (a.authority == b.authority && a.updatedAt >= b.updatedAt)
  }

  /** The most authoritative live row under a key, whatever its type. */
  function FindActiveByKey(rows: seq<Item>, session: string, key: string): (r: Option<Item>) {
    var sorted := Sort(HigherFirst, Filter((r: Item) => Live(r) && r.sessionId == session && r.memoryKey == key, rows));
    if sorted == [] then None else Some(sorted[0])
  }

  function FactCandidate(k: Correction): WriteCandidate {
    WriteCandidate(StableFact, k.memoryKey, map["value" := k.newValue], k.factText, Active, 1.0,
                   CORRECTION_AUTHORITY, FromUserCorrection, k.runId, k.messageId, None)
  }

  function AuditCandidate(k: Correction): WriteCandidate {
    WriteCandidate(UserCorrection, k.memoryKey, map["oldValue" := k.oldValue, "newValue" := k.newValue], k.auditText,
                   Confirmed, 1.0, CORRECTION_AUTHORITY, FromUserCorrection, k.runId, k.messageId, None)
  }

  function CorrectionBatch(k: Correction): Batch {
    Batch(k.sessionId, k.runId, "", k.now)
  }

  predicate FoundFact(rows: seq<Item>, k: Correction) {
    var found := FindActiveByKey(rows, k.sessionId, k.memoryKey);
    found.Some? && found.value.memoryType == StableFact
  }

  function FactWrite(rows: seq<Item>, k: Correction): Write {
    Write(
      FactCandidate(k),
      if FoundFact(rows, k) then Replace(FindActiveByKey(rows, k.sessionId, k.memoryKey).value.id) else MakeItem,
      k.factId)
  }

  /** A correction bypasses the gate: it replaces or creates the fact, then records itself. */
  function CorrectionWrites(rows: seq<Item>, k: Correction): seq<Write> {
    [FactWrite(rows, k), Write(AuditCandidate(k), MakeItem, k.auditId)]
  }

  ghost predicate CorrectionIsNew(rows: seq<Item>, k: Correction) {
    && k.factId != k.auditId && k.factId != "" && k.auditId != "" && !Has(rows, k.factId) && !Has(rows, k.auditId)
    && (forall r | r in rows :: r.runId != k.runId)
  }

  lemma FoundIsLive(rows: seq<Item>, session: string, key: string)
    ensures var found := FindActiveByKey(rows, session, key);
            found.Some? ==> found.value in rows && Live(found.value) && found.value.sessionId == session && found.value.memoryKey == key
  {
    var p := (r: Item) => Live(r) && r.sessionId == session && r.memoryKey == key;
    FilterMembers(p, rows);
    SortPermutes(HigherFirst, Filter(p, rows));
    PermutationMembers(Sort(HigherFirst, Filter(p, rows)), Filter(p, rows));
  }

  lemma FactWriteIsSound(rows: seq<Item>, k: Correction)
    requires CorrectionIsNew(rows, k)
    ensures LooseWrite(rows, CorrectionBatch(k), FactWrite(rows, k)) && HitsTarget(rows, CorrectionBatch(k), FactWrite(rows, k))
  {
    if FoundFact(rows, k) {
      FoundIsLive(rows, k.sessionId, k.memoryKey);
      var i :| 0 <= i < |rows| && rows[i] == FindActiveByKey(rows, k.sessionId, k.memoryKey).value;
      assert Target(rows, CorrectionBatch(k), FactWrite(rows, k), i);
    }
  }

  lemma AuditWriteIsSound(rows: seq<Item>, k: Correction)
    requires CorrectionIsNew(rows, k)
    ensures var w := Write(AuditCandidate(k), MakeItem, k.auditId);
            LooseWrite(rows, CorrectionBatch(k), w) && HitsTarget(rows, CorrectionBatch(k), w)
  {
  }

  lemma CorrectionWritesAgree(rows: seq<Item>, k: Correction)
    ensures Agreeing(CorrectionBatch(k), CorrectionWrites(rows, k)) && Mended(CorrectionWrites(rows, k))
  {
    var b, ws := CorrectionBatch(k), CorrectionWrites(rows, k);
    assert SlotFor(b, ws[0].candidate) != SlotFor(b, ws[1].candidate);
  }

  lemma CorrectionIsSound(rows: seq<Item>, k: Correction)
    requires CorrectionIsNew(rows, k)
    ensures Sound(rows, CorrectionBatch(k), CorrectionWrites(rows, k)) && Mended(CorrectionWrites(rows, k))
  {
    FactWriteIsSound(rows, k);
    AuditWriteIsSound(rows, k);
    CorrectionWritesAgree(rows, k);
  }

  /**
   A user correction keeps slots unique exactly when no earlier correction of the
   key is still live and the row it finds by key is the live stable fact, if
   there is one.
   */
  lemma CorrectionKeepsSlotsUniqueIff(rows: seq<Item>, k: Correction)
    requires Identified(rows) && Keyed(rows) && Unique(rows) && CorrectionIsNew(rows, k)
    ensures Unique(ExecuteAll(rows, CorrectionBatch(k), CorrectionWrites(rows, k)))
       <==> && !Held(rows, Slot(k.sessionId, UserCorrection, k.memoryKey))
            && (FoundFact(rows, k) || !Held(rows, Slot(k.sessionId, StableFact, k.memoryKey)))
  {
    var b, ws := CorrectionBatch(k), CorrectionWrites(rows, k);
    CorrectionIsSound(rows, k);
    WritesKeepSlotsUniqueIff(rows, b, ws);
    assert ws[0] in ws && ws[1] in ws;
    assert SlotFor(b, ws[0].candidate) == Slot(k.sessionId, StableFact, k.memoryKey);
    assert SlotFor(b, ws[1].candidate) == Slot(k.sessionId, UserCorrection, k.memoryKey);
  }

  // ---- steps and runs -----------------------------------------------------------------------

  /** A batch is judged on `view`, the items as they were read before its transaction began. */
  datatype Step =
    | WriteBatch(view: seq<Item>, b: Batch, candidates: seq<WriteCandidate>, ids: seq<string>, faults: seq<Fault>)
    | Correct(k: Correction)
    | Expire(session: Option<string>, clock: string, now: int)

  /** Every candidate has a drawn id and a fate. */
  predicate WellFormed(s: Step) {
    s.WriteBatch? ==> |s.ids| == |s.candidates| == |s.faults|
  }

  /** The writes of a batch step, as they come out. */
  function BatchWrites(s: Step): seq<Write>
    requires s.WriteBatch? && WellFormed(s)
  {
    WithFaults(Planned(s.view, s.b, s.candidates, s.ids), s.faults)
  }

  /** The conditions under which a step keeps slots unique and links sound. */
  ghost predicate Allowed(rows: seq<Item>, s: Step) {
    && WellFormed(s)
    && match s
       case WriteBatch(_, b, cs, ids, _) => Admissible(rows, b, cs, ids) && LandsCleanly(rows, b, BatchWrites(s))
       case Correct(k) =>
         && CorrectionIsNew(rows, k)
         && !Held(rows, Slot(k.sessionId, UserCorrection, k.memoryKey))
         && (FoundFact(rows, k) || !Held(rows, Slot(k.sessionId, StableFact, k.memoryKey)))
       case Expire(_, _, _) => true
  }

  /** No replacement of the step failed midway for good. */
  ghost predicate Unbroken(s: Step)
    requires WellFormed(s)
  {
    s.WriteBatch? ==> Mended(BatchWrites(s))
  }

  function StepRows(rows: seq<Item>, s: Step): seq<Item>
    requires WellFormed(s)
  {
    match s
    case WriteBatch(_, b, _, _, _) => ExecuteAll(rows, b, BatchWrites(s))
    case Correct(k) => ExecuteAll(rows, CorrectionBatch(k), CorrectionWrites(rows, k))
    case Expire(session, clock, now) => ExpireDue(rows, session, clock, now)
  }

  function RowsAfter(rows: seq<Item>, steps: seq<Step>): seq<Item>
    requires forall s | s in steps :: WellFormed(s)
  {
    if steps == [] then rows else StepRows(RowsAfter(rows, Init(steps)), Last(steps))
  }

  /**
   `trace` lists the table before and after every step of an allowed history; a batch
   may have been judged on any earlier table.
   */
  ghost predicate History(trace: seq<seq<Item>>, steps: seq<Step>) {
    && |trace| == |steps| + 1
    && (steps != [] ==>
          && History(Init(trace), Init(steps))
          && (Last(steps).WriteBatch? ==> Last(steps).view in Init(trace))
          && Transition(Last(Init(trace)), Last(steps), Last(trace)))
  }

  ghost predicate Transition(rows: seq<Item>, s: Step, after: seq<Item>) {
    Allowed(rows, s) && after == StepRows(rows, s)
  }

  /** A history in which no replacement failed midway for good. */
  ghost predicate UnbrokenHistory(trace: seq<seq<Item>>, steps: seq<Step>) {
    && History(trace, steps)
    && (steps != [] ==> UnbrokenHistory(Init(trace), Init(steps)) && Unbroken(Last(steps)))
  }

  /** Any steps at all, judged on anything, whether or not their conditions hold. */
  ghost predicate AnyHistory(trace: seq<seq<Item>>, steps: seq<Step>) {
    && |trace| == |steps| + 1
    && (steps != [] ==>
          && AnyHistory(Init(trace), Init(steps))
          && WellFormed(Last(steps))
          && Last(trace) == StepRows(Last(Init(trace)), Last(steps)))
  }

  /** The writes a step performs, and the batch they belong to. */
  ghost predicate Performs(rows: seq<Item>, s: Step, b: Batch, ws: seq<Write>) {
    match s
    case WriteBatch(_, batch, _, _, _) => WellFormed(s) && b == batch && ws == BatchWrites(s)
    case Correct(k) => b == CorrectionBatch(k) && ws == CorrectionWrites(rows, k)
    case Expire(_, _, _) => false
  }

  // ---- later states of a table ------------------------------------------------------------

  lemma ExecuteEvolves(rows: seq<Item>, b: Batch, w: Write)
    ensures Evolved(rows, Execute(rows, b, w))
  {
  }

  lemma {:induction false} ExecuteAllEvolves(rows: seq<Item>, b: Batch, ws: seq<Write>)
    ensures Evolved(rows, ExecuteAll(rows, b, ws))
  {
    if ws != [] {
      ExecuteAllEvolves(rows, b, Init(ws));
      ExecuteEvolves(ExecuteAll(rows, b, Init(ws)), b, Last(ws));
    }
  }

  lemma StepEvolves(rows: seq<Item>, s: Step)
    requires WellFormed(s)
    ensures Evolved(rows, StepRows(rows, s))
  {
    match s {
      case WriteBatch(_, b, _, _, _) => ExecuteAllEvolves(rows, b, BatchWrites(s));
      case Correct(k) => ExecuteAllEvolves(rows, CorrectionBatch(k), CorrectionWrites(rows, k));
      case Expire(_, _, _) =>
    }
  }

  /** Whatever other writers do, rows stay in place under their ids, slots and authorities. */
  lemma {:induction false} StepsEvolve(rows: seq<Item>, steps: seq<Step>)
    requires forall s | s in steps :: WellFormed(s)
    ensures Evolved(rows, RowsAfter(rows, steps))
  {
    if steps != [] {
      StepsEvolve(rows, Init(steps));
      StepEvolves(RowsAfter(rows, Init(steps)), Last(steps));
    }
  }

  lemma {:induction false} EarlierTablesEvolve(trace: seq<seq<Item>>, steps: seq<Step>, n: nat)
    requires History(trace, steps) && n < |trace|
    ensures Evolved(trace[n], Last(trace))
  {
    if n < |trace| - 1 {
      EarlierTablesEvolve(Init(trace), Init(steps), n);
      StepEvolves(Last(Init(trace)), Last(steps));
    }
  }

  /** A batch was judged on an earlier state of the table it is executed on. */
  ghost predicate Grounded(rows: seq<Item>, s: Step) {
    s.WriteBatch? ==> Evolved(s.view, rows)
  }

  lemma StepIsGrounded(trace: seq<seq<Item>>, steps: seq<Step>)
    requires History(trace, steps) && steps != []
    ensures Grounded(Last(Init(trace)), Last(steps))
  {
    if Last(steps).WriteBatch? {
      var n :| 0 <= n < |Init(trace)| && Init(trace)[n] == Last(steps).view;
      EarlierTablesEvolve(Init(trace), Init(steps), n);
    }
  }

  // ---- what every allowed history keeps -----------------------------------------------------

  lemma WritesOf(rows: seq<Item>, s: Step) returns (b: Batch, ws: seq<Write>)
    requires Base(rows) && Allowed(rows, s) && Grounded(rows, s) && !s.Expire?
    ensures Performs(rows, s, b, ws)
    ensures Loose(rows, b, ws) && LandsCleanly(rows, b, ws) && StepRows(rows, s) == ExecuteAll(rows, b, ws)
    ensures Unbroken(s) <==> Mended(ws)
  {
    match s {
      case WriteBatch(view, batch, cs, ids, faults) =>
        b, ws := batch, BatchWrites(s);
        PlannedEarlierIsLoose(view, rows, batch, cs, ids);
        FaultsKeepLoose(rows, batch, Planned(view, batch, cs, ids), faults);
      case Correct(k) =>
        b, ws := CorrectionBatch(k), CorrectionWrites(rows, k);
        CorrectionIsSound(rows, k);
        CorrectionKeepsSlotsUniqueIff(rows, k);
        WritesKeepSlotsUniqueIff(rows, b, ws);
        SoundLandsCleanlyIffClear(rows, b, ws);
    }
  }

  lemma StepKeepsBase(rows: seq<Item>, s: Step, after: seq<Item>)
    requires Base(rows) && Grounded(rows, s) && Transition(rows, s, after)
    ensures Base(after)
  {
    if s.Expire? {
      ExpiryKeepsBase(rows, s.session, s.clock, s.now);
    } else {
      var b, ws := WritesOf(rows, s);
      CleanWritesKeepBase(rows, b, ws);
    }
  }

  lemma StepKeepsInv(rows: seq<Item>, s: Step, after: seq<Item>)
    requires Inv(rows) && Grounded(rows, s) && Transition(rows, s, after) && Unbroken(s)
    ensures Inv(after)
  {
    if s.Expire? {
      ExpiryKeepsInv(rows, s.session, s.clock, s.now);
    } else {
      var b, ws := WritesOf(rows, s);
      CleanWritesKeepInv(rows, b, ws);
    }
  }

  /**
   In every allowed history, whatever fails in it and however old the tables its
   batches were judged on, each slot holds at most one live item, and the supersede
   links are disjoint upward chains.
   */
  lemma {:induction false} HistoryKeepsBase(trace: seq<seq<Item>>, steps: seq<Step>)
    requires History(trace, steps) && Base(trace[0])
    ensures Base(Last(trace))
  {
    if steps != [] {
      HistoryKeepsBase(Init(trace), Init(steps));
      StepIsGrounded(trace, steps);
      StepKeepsBase(Last(Init(trace)), Last(steps), Last(trace));
    }
  }

  /** If no replacement fails midway for good, every superseded row is also named by its replacement. */
  lemma {:induction false} HistoryKeepsInv(trace: seq<seq<Item>>, steps: seq<Step>)
    requires UnbrokenHistory(trace, steps) && Inv(trace[0])
    ensures Inv(Last(trace))
  {
    if steps != [] {
      HistoryKeepsInv(Init(trace), Init(steps));
      StepIsGrounded(trace, steps);
      StepKeepsInv(Last(Init(trace)), Last(steps), Last(trace));
    }
  }

  /** A batch judged on the table it is executed on is allowed exactly when it is clear. */
  lemma FreshBatchIsAllowedIffClear(rows: seq<Item>, s: Step)
    requires Base(rows) && s.WriteBatch? && WellFormed(s) && s.view == rows && Admissible(rows, s.b, s.candidates, s.ids)
    ensures Allowed(rows, s) <==> Clear(rows, s.b, BatchWrites(s))
  {
    PlannedIsSound(rows, s.b, s.candidates, s.ids);
    FaultsKeepSound(rows, s.b, Planned(rows, s.b, s.candidates, s.ids), s.faults);
    SoundLandsCleanlyIffClear(rows, s.b, BatchWrites(s));
  }

  /** A batch judged on an earlier table keeps slots unique and links sound exactly when it is allowed. */
  lemma BatchOnOldViewKeepsBaseIff(rows: seq<Item>, s: Step)
    requires Base(rows) && s.WriteBatch? && WellFormed(s) && Grounded(rows, s) && Admissible(rows, s.b, s.candidates, s.ids)
    ensures Base(StepRows(rows, s)) <==> Allowed(rows, s)
  {
    PlannedEarlierIsLoose(s.view, rows, s.b, s.candidates, s.ids);
    FaultsKeepLoose(rows, s.b, Planned(s.view, s.b, s.candidates, s.ids), s.faults);
    WritesKeepBaseIffClean(rows, s.b, BatchWrites(s));
  }

  /** A new table is where histories start. */
  lemma EmptyTableIsSound()
    ensures Inv([])
  {
  }

  // ---- following the links --------------------------------------------------------------------

  /** The row that records `id` as the one it replaced; the query takes the first it meets. */
  function SupersededBy(rows: seq<Item>, id: string): Option<nat> {
    if rows == [] then None
    else
      var earlier := SupersededBy(Init(rows), id);
      if earlier.Some? then earlier else if Last(rows).supersedesId == id then Some(|rows| - 1) else None
  }

  lemma {:induction false} SupersededByFinds(rows: seq<Item>, id: string)
    ensures var r := SupersededBy(rows, id);
            && (r.Some? ==> r.value < |rows| && rows[r.value].supersedesId == id)
            && (r.None? ==> forall i | 0 <= i < |rows| :: rows[i].supersedesId != id)
  {
    if rows != [] {
      SupersededByFinds(Init(rows), id);
    }
  }

  /** The lookup finds a row exactly for superseded rows, and there is only one it could find. */
  lemma SupersededByIsWellDefined(rows: seq<Item>, i: nat)
    requires Inv(rows) && i < |rows|
    ensures var r := SupersededBy(rows, rows[i].id);
            && (r.Some? <==> rows[i].status == Superseded)
            && (r.Some? ==> i < r.value < |rows| && Names(rows, i, r.value))
            && (forall j | Names(rows, i, j) :: r == Some(j))
  {
    SupersededByFinds(rows, rows[i].id);
    var r := SupersededBy(rows, rows[i].id);
    if r.Some? {
      assert Names(rows, i, r.value);
    }
  }

  /** Chains never join: two rows are not superseded by the same row. */
  lemma ChainsAreDisjoint(rows: seq<Item>, i: nat, j: nat)
    requires Inv(rows) && i < |rows| && j < |rows|
    requires SupersededBy(rows, rows[i].id).Some? && SupersededBy(rows, rows[i].id) == SupersededBy(rows, rows[j].id)
    ensures i == j
  {
    SupersededByFinds(rows, rows[i].id);
    SupersededByFinds(rows, rows[j].id);
  }

  /** Follows the lookup upward until it finds nothing. */
  ghost function Top(rows: seq<Item>, i: nat): (t: nat)
    requires Inv(rows) && i < |rows|
    ensures i <= t < |rows|
    decreases |rows| - i
  {
    SupersededByIsWellDefined(rows, i);
    var next := SupersededBy(rows, rows[i].id);
    if next.None? then i else Top(rows, next.value)
  }

  /** Following the links from any row ends, in the row's own slot, at a row nothing replaced. */
  lemma {:induction false} ChainEndsInSlot(rows: seq<Item>, i: nat)
    requires Inv(rows) && i < |rows|
    ensures rows[Top(rows, i)].status != Superseded && SlotOf(rows[Top(rows, i)]) == SlotOf(rows[i])
    decreases |rows| - i
  {
    SupersededByIsWellDefined(rows, i);
    var next := SupersededBy(rows, rows[i].id);
    if next.Some? {
      ChainEndsInSlot(rows, next.value);
    }
  }

  /** Nothing in the table was expired or rejected. */
  ghost predicate Settled(rows: seq<Item>) {
    forall r | r in rows :: Live(r) || r.status == Superseded
  }

  /** Every row ever written to a slot leads up to the slot's one live item. */
  lemma ChainEndsAtHolder(rows: seq<Item>, i: nat)
    requires Inv(rows) && Settled(rows) && i < |rows|
    ensures Live(rows[Top(rows, i)])
    ensures forall k | 0 <= k < |rows| && Live(rows[k]) && SlotOf(rows[k]) == SlotOf(rows[i]) :: k == Top(rows, i)
  {
    ChainEndsInSlot(rows, i);
    assert rows[Top(rows, i)] in rows;
  }

  lemma WritesKeepSettled(rows: seq<Item>, b: Batch, ws: seq<Write>)
    requires Identified(rows) && Keyed(rows) && Loose(rows, b, ws) && Settled(rows)
    ensures Settled(ExecuteAll(rows, b, ws))
  {
    LooseIsNew(rows, b, ws);
    BatchShape(rows, b, ws);
    var after := After(rows, b, ws);
    forall r | r in after
      ensures Live(r) || r.status == Superseded
    {
      var i :| 0 <= i < |after| && after[i] == r;
      if i < |rows| {
        assert rows[i] in rows;
      } else {
        AppendedIsLive(rows, b, ws, i);
      }
    }
  }

  /** Without expiry sweeps nothing in the table is ever expired or rejected. */
  lemma {:induction false} HistoryWithoutExpiryIsSettled(trace: seq<seq<Item>>, steps: seq<Step>)
    requires History(trace, steps) && Base(trace[0]) && Settled(trace[0])
    requires forall s | s in steps :: !s.Expire?
    ensures Settled(Last(trace))
  {
    if steps != [] {
      HistoryWithoutExpiryIsSettled(Init(trace), Init(steps));
      HistoryKeepsBase(Init(trace), Init(steps));
      StepIsGrounded(trace, steps);
      StepKeepsSettled(Last(Init(trace)), Last(steps), Last(trace));
    }
  }

  lemma StepKeepsSettled(rows: seq<Item>, s: Step, after: seq<Item>)
    requires Base(rows) && Grounded(rows, s) && Transition(rows, s, after) && !s.Expire? && Settled(rows)
    ensures Settled(after)
  {
    var b, ws := WritesOf(rows, s);
    WritesKeepSettled(rows, b, ws);
  }

  /**
   From a new table and without expiry sweeps: every row ever written to a slot
   leads up to the slot's one live item.
   */
  lemma EveryRowLeadsToHolder(trace: seq<seq<Item>>, steps: seq<Step>, rows: seq<Item>, i: nat)
    requires UnbrokenHistory(trace, steps) && trace[0] == [] && rows == Last(trace)
    requires (forall s | s in steps :: !s.Expire?) && i < |rows|
    ensures Inv(rows) && Live(rows[Top(rows, i)]) && SlotOf(rows[Top(rows, i)]) == SlotOf(rows[i])
    ensures forall k | 0 <= k < |rows| && Live(rows[k]) && SlotOf(rows[k]) == SlotOf(rows[i]) :: k == Top(rows, i)
  {
    EmptyTableIsSound();
    HistoryKeepsInv(trace, steps);
    HistoryWithoutExpiryIsSettled(trace, steps);
    ChainEndsInSlot(rows, i);
    ChainEndsAtHolder(rows, i);
  }

  // ---- occupancy and authority ------------------------------------------------------------------

  ghost predicate Corrected(rows: seq<Item>, slot: Slot) {
    exists r | r in rows :: SlotOf(r) == slot && r.source == FromUserCorrection
  }

  /** Some live row of the slot ranks at least this high, or the slot was corrected by the user. */
  ghost predicate HeldAt(rows: seq<Item>, slot: Slot, authority: int) {
    exists r | r in rows :: Live(r) && SlotOf(r) == slot && (r.authority >= authority || Corrected(rows, slot))
  }

  lemma WritesKeepRow(rows: seq<Item>, b: Batch, ws: seq<Write>, k: nat)
    requires Base(rows) && Loose(rows, b, ws) && Mended(ws) && k < |rows| && Live(rows[k])
    ensures HeldAt(After(rows, b, ws), SlotOf(rows[k]), rows[k].authority)
  {
    var after := After(rows, b, ws);
    MarkedRow(rows, b, ws, k);
    if rows[k].id in RetiredIds(ws) {
      LooseIsNew(rows, b, ws);
      var j := RetiredIsNamed(rows, b, ws, k);
      BatchKeepsLinksUpward(rows, b, ws);
      ReplacementIsLive(rows, b, ws, k, j);
      assert after[j] in after;
    } else {
      assert after[k] in after;
    }
  }

  lemma WritesKeepCorrected(rows: seq<Item>, b: Batch, ws: seq<Write>, slot: Slot)
    requires Corrected(rows, slot)
    ensures Corrected(After(rows, b, ws), slot)
  {
    var k :| 0 <= k < |rows| && SlotOf(rows[k]) == slot && rows[k].source == FromUserCorrection;
    var after := After(rows, b, ws);
    assert after[k] in after && SlotOf(after[k]) == slot && after[k].source == FromUserCorrection;
  }

  lemma StepKeepsHeldAt(rows: seq<Item>, s: Step, after: seq<Item>, slot: Slot, authority: int)
    requires Base(rows) && Grounded(rows, s) && Transition(rows, s, after) && Unbroken(s) && !s.Expire?
    requires HeldAt(rows, slot, authority)
    ensures HeldAt(after, slot, authority)
  {
    var b, ws := WritesOf(rows, s);
    LooseIsNew(rows, b, ws);
    BatchShape(rows, b, ws);
    var k :| 0 <= k < |rows| && Live(rows[k]) && SlotOf(rows[k]) == slot && (rows[k].authority >= authority || Corrected(rows, slot));
    WritesKeepRow(rows, b, ws, k);
    if Corrected(rows, slot) {
      WritesKeepCorrected(rows, b, ws, slot);
    }
  }

  /**
   Between expiry sweeps an occupied slot stays occupied, and the authority of its
   holder never falls unless the user corrected it.
   */
  lemma {:induction false} OccupiedSlotsStayOccupied(trace: seq<seq<Item>>, steps: seq<Step>, slot: Slot, authority: int)
    requires UnbrokenHistory(trace, steps) && Base(trace[0])
    requires forall s | s in steps :: !s.Expire?
    requires HeldAt(trace[0], slot, authority)
    ensures HeldAt(Last(trace), slot, authority)
  {
    if steps != [] {
      OccupiedSlotsStayOccupied(Init(trace), Init(steps), slot, authority);
      HistoryKeepsBase(Init(trace), Init(steps));
      StepIsGrounded(trace, steps);
      StepKeepsHeldAt(Last(Init(trace)), Last(steps), Last(trace), slot, authority);
    }
  }

  // ---- the precondition is needed -----------------------------------------------------------------

  function Goal(value: Json): WriteCandidate {
    WriteCandidate(SessionGoal, "goal.primary", map["goal" := value], "", Active, 1.0, 80, UserExplicit, "r", "m", None)
  }

  function GoalBatch(): Batch {
    Batch("s", "r", "t", 0)
  }

  lemma GoalsPassTheGate(v: Json)
    ensures Decide(Goal(v), []).Create?
    ensures forall existing :: Decide(Goal(v), existing) == CheckConflicts(Goal(v), existing)
  {
  }

  lemma GoalKeysDiffer(v: Json, w: Json, i: string, j: string)
    requires v != w
    ensures KeyFor(GoalBatch(), Write(Goal(v), MakeItem, i)) != KeyFor(GoalBatch(), Write(Goal(w), MakeItem, j))
  {
    assert Goal(v).value["goal"] != Goal(w).value["goal"];
  }

  lemma TwoGoalsClash(v: Json, w: Json)
    requires v != w
    ensures !OnlyRepeats(GoalBatch(), [Write(Goal(v), MakeItem, "a"), Write(Goal(w), MakeItem, "b")])
  {
    var ws := [Write(Goal(v), MakeItem, "a"), Write(Goal(w), MakeItem, "b")];
    GoalKeysDiffer(v, w, "a", "b");
    assert SameSlotWrites(GoalBatch(), ws[0], ws[1]);
  }

  /** Two different goals in one batch both pass the gate, and the slot ends up with two live items. */
  lemma OneBatchCanFillASlotTwice(v: Json, w: Json)
    requires v != w
    ensures !Unique(ExecuteAll([], GoalBatch(), Planned([], GoalBatch(), [Goal(v), Goal(w)], ["a", "b"])))
  {
    var cs, ids := [Goal(v), Goal(w)], ["a", "b"];
    var planned := Planned([], GoalBatch(), cs, ids);
    GoalsPassTheGate(v);
    GoalsPassTheGate(w);
    assert planned == [Write(Goal(v), MakeItem, "a"), Write(Goal(w), MakeItem, "b")];
    TwoGoalsClash(v, w);
    assert WithFaults(planned, [NoFault, NoFault]) == planned;
    BatchKeepsSlotsUniqueIff([], GoalBatch(), cs, ids, [NoFault, NoFault]);
  }

  /** Two batches of different runs judged on one view of the session do the same. */
  lemma TwoBatchesCanFillASlotTwice(v: Json, row: Item)
    requires row.sessionId == "s" && row.memoryType == SessionGoal && row.memoryKey == "goal.primary" && Live(row)
    requires row.id != "" && row.id != "a" && row.runId != "r" && row.supersedesId == ""
    requires row.dedupKey == DedupOf(SlotOf(row), row.value, row.runId, row.messageId)
    ensures !Unique(ExecuteAll([row], GoalBatch(), Planned([], GoalBatch(), [Goal(v)], ["a"])))
  {
    var planned := Planned([], GoalBatch(), [Goal(v)], ["a"]);
    GoalsPassTheGate(v);
    assert planned == [Write(Goal(v), MakeItem, "a")];
    assert WithFaults(planned, [NoFault]) == planned;
    assert row in [row] && SlotOf(row) == SlotFor(GoalBatch(), planned[0].candidate);
    assert !Fits([row], GoalBatch(), planned);
    BatchOnOldViewKeepsSlotsUniqueIff([], [row], GoalBatch(), [Goal(v)], ["a"], [NoFault]);
  }

  lemma QueryOfOne(row: Item)
    requires Matches(row, "s", None, "")
    ensures Query([row], "s", None, "", VISIBLE) == [row]
  {
    var p := Matcher("s", None, "");
    assert Init([row]) == [] && Last([row]) == row && p(row);
    assert Filter(p, [row]) == [] + [row] == [row];
    assert Sort(NewerFirst, [row]) == Insert(NewerFirst, row, []) == [row];
  }

  lemma GoalReplacesWeaker(v: Json, was: Item)
    requires SlotOf(was) == Slot("s", SessionGoal, "goal.primary") && Live(was) && was.authority < 80
    requires was.value != Goal(v).value
    ensures Planned([was], GoalBatch(), [Goal(v)], ["a"]) == [Write(Goal(v), Replace(was.id), "a")]
  {
    QueryOfOne(was);
    GoalsPassTheGate(v);
    assert Decide(Goal(v), [was]) == Supersede(HigherAuthority, was);
  }

  /** The goal was replaced, and its replacement has expired. */
  ghost predicate ReplacedAndExpired(rows: seq<Item>, was: Item, next: Item) {
    && rows == [was.(status := Superseded), next] && Base(rows)
    && SlotOf(was) == SlotOf(next) == Slot("s", SessionGoal, "goal.primary")
    && next.status == Expired && next.supersedesId == was.id
    && was.id != "a" && next.id != "a" && was.runId != "r" && next.runId != "r"
  }

  lemma LateGoalIsAdmissible(v: Json, rows: seq<Item>, was: Item, next: Item)
    requires ReplacedAndExpired(rows, was, next)
    ensures Admissible(rows, GoalBatch(), [Goal(v)], ["a"]) && Evolved([was], rows)
  {
  }

  lemma LateGoalFits(v: Json, rows: seq<Item>, was: Item, next: Item, ws: seq<Write>)
    requires ReplacedAndExpired(rows, was, next) && ws == [Write(Goal(v), Replace(was.id), "a")]
    ensures Fits(rows, GoalBatch(), ws) && OnlyRepeats(GoalBatch(), ws) && !Unnamed(rows, ws)
  {
    assert ws[0] in ws && rows[1].supersedesId == ws[0].action.oldId;
  }

  /**
   Slots are not enough: a goal judged while the old one was live, and executed after
   that one was replaced and its replacement expired, keeps the slot at one live item
   and still gives the old row a second replacement.
   */
  lemma OldViewCanReplaceTwice(v: Json, rows: seq<Item>, was: Item, next: Item)
    requires ReplacedAndExpired(rows, was, next)
    requires Live(was) && was.authority < 80 && was.value != Goal(v).value
    ensures var after := ExecuteAll(rows, GoalBatch(), Planned([was], GoalBatch(), [Goal(v)], ["a"]));
            Evolved([was], rows) && Unique(after) && !NamedOnce(after)
  {
    var cs, ids := [Goal(v)], ["a"];
    var ws := Planned([was], GoalBatch(), cs, ids);
    GoalReplacesWeaker(v, was);
    LateGoalIsAdmissible(v, rows, was, next);
    LateGoalFits(v, rows, was, next, ws);
    PlannedEarlierIsLoose([was], rows, GoalBatch(), cs, ids);
    LooseWritesKeepSlotsUniqueIff(rows, GoalBatch(), ws);
    BatchNamesOnceIff(rows, GoalBatch(), ws);
  }
}
