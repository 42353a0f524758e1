/**
 What a single write leaves in the item table, told from the candidate and the rows
 alone: what the gate lets pass, what it does to the holder of a slot, and what a user
 correction and an expiry sweep store.
 */
module MemoryWrites {
  import opened Common
  import opened Projections
  import opened Sorting
  import opened WriteGate
  import opened MemoryItems
  import opened MemorySlots
  import opened MemoryRuns

  // ---- what the rules admit ---------------------------------------------------------------

  /** Which source may state what, once both rule tables have had their say. */
  predicate MayState(t: MemoryType, s: SourceType) {
    match t
    case UserCorrection => s == FromUserCorrection
    case StableFact => s in [UserExplicit, EventParser, HumanReview, SystemRule]
    case Constraint => s in [UserExplicit, SystemRule, HumanReview]
    case ConfirmedDecision => s == HumanReview
    case UnresolvedIssue => s in [AgentProposal, AgentFusion, UserExplicit]
    case RunSummary => s in [AgentFusion, AgentProposal]
    case Proposal => s == AgentProposal
    case SessionGoal => s in [UserExplicit, EventParser]
    case TemporaryFact => s in [EventParser, AgentProposal, UserExplicit]
  }

  const DYNAMIC_NAMES: seq<string> := [
    "avgspeed", "queuelength", "duration", "weather", "signalstate", "trafficflow",
    "pedestriancount", "laneavailability", "accidentstatus"
  ]

  /** Facts and decisions are about what lasts, under a key of a known area. */
  predicate Lasts(c: WriteCandidate) {
    && (forall k | k in c.value :: Lower(k) !in DYNAMIC_NAMES)
    && (forall n | n in DYNAMIC_NAMES :: !Contains(Lower(c.memoryKey), n))
    && (exists p | p in SAFE_KEY_PREFIXES :: p <= c.memoryKey)
  }

  predicate Admitted(c: WriteCandidate) {
    && MayState(c.memoryType, c.source)
    && (forall f | f in DYNAMIC_FIELDS :: f !in c.value)
    && (c.memoryType in [StableFact, ConfirmedDecision] ==> Lasts(c))
    && (c.memoryType == TemporaryFact ==> c.validUntil !in [None, Some("")])
    && (c.source == AgentProposal ==> c.status != Confirmed)
    && (c.source == EventParser ==> c.confidence >= 0.3)
  }

  lemma LoweredNames()
    ensures forall n :: n in DYNAMIC_NAMES <==> exists f | f in DYNAMIC_FIELDS :: Lower(f) == n
  {
    assert Lower("avgSpeed") == "avgspeed" && Lower("queueLength") == "queuelength";
    assert Lower("duration") == "duration" && Lower("weather") == "weather" && Lower("signalState") == "signalstate";
    assert Lower("trafficFlow") == "trafficflow" && Lower("pedestrianCount") == "pedestriancount";
    assert Lower("laneAvailability") == "laneavailability" && Lower("accidentStatus") == "accidentstatus";
  }

  /** The same as the policy puts it. */
  predicate PolicyLasts(c: WriteCandidate) {
    && !(exists k | k in c.value :: IsDynamicField(k))
    && !(exists f | f in DYNAMIC_FIELDS :: Contains(Lower(c.memoryKey), Lower(f)))
    && (exists p | p in SAFE_KEY_PREFIXES :: p <= c.memoryKey)
  }

  lemma LastsIff(c: WriteCandidate)
    ensures Lasts(c) <==> PolicyLasts(c)
  {
    LoweredNames();
    forall k
      ensures IsDynamicField(k) <==> Lower(k) in DYNAMIC_NAMES
    {
    }
  }

  lemma TablesMeet(t: MemoryType, s: SourceType)
    ensures MayState(t, s) <==> SourceAllowed(t, s) && !(s == AgentFusion && t != RunSummary && t != Proposal && t != UnresolvedIssue)
  {
  }

  predicate IsLasting(c: WriteCandidate) {
    c.memoryType == StableFact || c.memoryType == ConfirmedDecision
  }

  lemma LastingPolicy(c: WriteCandidate)
    requires IsLasting(c)
    ensures ValidateWriteCandidate(c) == NoReason <==> SourceAllowed(c.memoryType, c.source) && PolicyLasts(c)
  {
  }

  lemma PassingPolicy(c: WriteCandidate)
    requires !IsLasting(c)
    ensures ValidateWriteCandidate(c) == NoReason
       <==> SourceAllowed(c.memoryType, c.source) && (c.memoryType == TemporaryFact ==> c.validUntil !in [None, Some("")])
  {
    assert c.validUntil.Some? && c.validUntil.value == "" ==> c.validUntil == Some("");
  }

  lemma PolicyAdmitsIff(c: WriteCandidate)
    ensures ValidateWriteCandidate(c) == NoReason
       <==> && SourceAllowed(c.memoryType, c.source)
            && (c.memoryType in [StableFact, ConfirmedDecision] ==> Lasts(c))
            && (c.memoryType == TemporaryFact ==> c.validUntil !in [None, Some("")])
  {
    if IsLasting(c) {
      LastingPolicy(c);
      LastsIff(c);
    } else {
      PassingPolicy(c);
    }
  }

  lemma PolicyIgnoresAuthority(c: WriteCandidate)
    ensures ValidateWriteCandidate(c) != LowerAuthorityConflict
  {
  }

  /** A candidate the rules admit is judged by its slot alone, any other is rejected by a rule. */
  lemma RulesRejectIff(c: WriteCandidate, existing: seq<Item>)
    ensures Admitted(c) ==> Decide(c, existing) == CheckConflicts(c, existing)
    ensures !Admitted(c) ==> Decide(c, existing).Reject? && Decide(c, existing).reason != LowerAuthorityConflict
  {
    TablesMeet(c.memoryType, c.source);
    PolicyAdmitsIff(c);
    PolicyIgnoresAuthority(c);
  }

  // ---- what happens to the holder of a slot ---------------------------------------------------

  /**
   The first item of the slot decides: equal content and equal authority keep it, a correction
   and higher authority replace it.
   */
  lemma {:induction false} HolderDecides(c: WriteCandidate, existing: seq<Item>, i: nat)
    requires i < |existing| && existing[i].memoryType == c.memoryType && existing[i].memoryKey == c.memoryKey
    requires forall j | 0 <= j < i :: existing[j].memoryType != c.memoryType || existing[j].memoryKey != c.memoryKey
    ensures var d, e := CheckConflicts(c, existing), existing[i];
            var corrects := c.source == FromUserCorrection;
            && (d == Deduplicated(IdenticalContent, e) <==> e.value == c.value)
            && (d == Supersede(CorrectionSupersedes, e) <==> e.value != c.value && corrects)
            && (d == Supersede(HigherAuthority, e) <==> e.value != c.value && !corrects && c.authority > e.authority)
            && (d == Reject(LowerAuthorityConflict) <==> e.value != c.value && !corrects && c.authority < e.authority)
            && (d == Deduplicated(SameAuthorityKeepExisting, e) <==> e.value != c.value && !corrects && c.authority == e.authority)
  {
    if i > 0 {
      HolderDecides(c, existing[1..], i - 1);
    }
  }

  // ---- what a batch of one candidate stores ------------------------------------------------------

  /** A stored row says what its candidate says, for the session, run and time of its batch. */
  predicate Carries(r: Item, b: Batch, c: WriteCandidate) {
    && r.memoryType == c.memoryType && r.memoryKey == c.memoryKey && r.value == c.value && r.textContent == c.textContent
    && r.status == c.status && r.confidence == c.confidence && r.authority == c.authority && r.source == c.source
    && r.runId == c.runId && r.messageId == c.messageId && r.validUntil == c.validUntil
    && r.sessionId == b.sessionId && r.updatedAt == b.now
  }

  /** The live row is in the candidate's slot. */
  predicate Holds(r: Item, b: Batch, c: WriteCandidate) {
    && r.status in [Candidate, Active, Confirmed]
    && r.sessionId == b.sessionId && r.memoryType == c.memoryType && r.memoryKey == c.memoryKey
  }

  /** The row was stored from the same message of the same run with the same content. */
  predicate Repeats(r: Item, b: Batch, c: WriteCandidate) {
    && b.sessionId != "" && r.sessionId == b.sessionId && r.memoryType == c.memoryType && r.memoryKey == c.memoryKey
    && r.value == c.value && r.runId == c.runId && r.messageId == c.messageId
  }

  function WrittenAlone(rows: seq<Item>, b: Batch, c: WriteCandidate, id: string): seq<Item> {
    ExecuteAll(rows, b, Planned(rows, b, [c], [id]))
  }

  lemma DuplicateIff(rows: seq<Item>, b: Batch, w: Write)
    requires Keyed(rows)
    ensures Duplicate(rows, KeyFor(b, w)) <==> exists r | r in rows :: Repeats(r, b, w.candidate)
  {
    forall r | r in rows
      ensures KeyFor(b, w).Some? && r.dedupKey == KeyFor(b, w) <==> Repeats(r, b, w.candidate)
    {
    }
  }

  lemma WrittenAloneIs(rows: seq<Item>, b: Batch, c: WriteCandidate, id: string)
    ensures var view := Query(rows, b.sessionId, None, "", VISIBLE);
            WrittenAlone(rows, b, c, id) == Execute(rows, b, Write(c, ActionFor(Decide(c, view)), id))
  {
    var ws := Planned(rows, b, [c], [id]);
    assert Init(ws) == [] && ExecuteAll(rows, b, []) == rows;
  }

  /** What a rule rejects is not stored. */
  lemma RejectedIsNotStored(rows: seq<Item>, b: Batch, c: WriteCandidate, id: string)
    requires !Admitted(c)
    ensures WrittenAlone(rows, b, c, id) == rows
  {
    WrittenAloneIs(rows, b, c, id);
    RulesRejectIff(c, Query(rows, b.sessionId, None, "", VISIBLE));
  }

  /**
   For a free slot the candidate is appended as it is, with the event thread of the batch,
   unless it repeats a stored row.
   */
  lemma FreeSlotIsFilled(rows: seq<Item>, b: Batch, c: WriteCandidate, id: string)
    requires Keyed(rows) && Admitted(c) && forall r | r in rows :: !Holds(r, b, c)
    ensures var after := WrittenAlone(rows, b, c, id);
            if exists r | r in rows :: Repeats(r, b, c) then after == rows
            else
              && |after| == |rows| + 1 && after[..|rows|] == rows
              && var stored := after[|rows|];
              Carries(stored, b, c) && stored.id == id && stored.supersedesId == "" && stored.eventThreadId == b.threadId
  {
    var view := Query(rows, b.sessionId, None, "", VISIBLE);
    WrittenAloneIs(rows, b, c, id);
    RulesRejectIff(c, view);
    QueryMembers(rows, b.sessionId, None, "", VISIBLE);
    ConflictDecision(c, view);
    DuplicateIff(rows, b, Write(c, MakeItem, id));
  }

  /** The slot is held by this row alone, and the whole session is in view. */
  ghost predicate HeldBy(rows: seq<Item>, b: Batch, c: WriteCandidate, k: nat) {
    && k < |rows| && Holds(rows[k], b, c)
    && (forall i | 0 <= i < |rows| && Holds(rows[i], b, c) :: i == k)
    && |Query(rows, b.sessionId, None, "", VISIBLE)| < VISIBLE
  }

  lemma HolderIsFirst(rows: seq<Item>, b: Batch, c: WriteCandidate, k: nat) returns (i: nat)
    requires HeldBy(rows, b, c, k)
    ensures var view := Query(rows, b.sessionId, None, "", VISIBLE);
            && i < |view| && view[i] == rows[k]
            && forall j | 0 <= j < i :: view[j].memoryType != c.memoryType || view[j].memoryKey != c.memoryKey
  {
    var view := Query(rows, b.sessionId, None, "", VISIBLE);
    QueryTakesNewest(rows, b.sessionId, None, "", VISIBLE);
    QueryMembers(rows, b.sessionId, None, "", VISIBLE);
    assert rows[k] in rows && rows[k] in view;
    i := FirstIn(view, rows[k]);
    forall j | 0 <= j < i
      ensures view[j].memoryType != c.memoryType || view[j].memoryKey != c.memoryKey
    {
      assert view[j] in view;
      var n :| 0 <= n < |rows| && rows[n] == view[j];
    }
  }

  lemma {:induction false} FirstIn(items: seq<Item>, x: Item) returns (i: nat)
    requires x in items
    ensures i < |items| && items[i] == x && forall j | 0 <= j < i :: items[j] != x
  {
    if items[0] == x {
      i := 0;
    } else {
      var k := FirstIn(items[1..], x);
      i := k + 1;
    }
  }

  lemma JudgedByHolder(rows: seq<Item>, b: Batch, c: WriteCandidate, id: string, k: nat)
    requires Admitted(c) && HeldBy(rows, b, c, k)
    ensures var e := rows[k];
            var wins := e.value != c.value && (c.source == FromUserCorrection || c.authority > e.authority);
            WrittenAlone(rows, b, c, id)
            == if wins then Execute(rows, b, Write(c, Replace(e.id), id)) else rows
  {
    var view := Query(rows, b.sessionId, None, "", VISIBLE);
    var i := HolderIsFirst(rows, b, c, k);
    WrittenAloneIs(rows, b, c, id);
    RulesRejectIff(c, view);
    HolderDecides(c, view, i);
  }

  /** A holder with the same content, or with as much authority, stays, and the candidate is dropped. */
  lemma HolderStays(rows: seq<Item>, b: Batch, c: WriteCandidate, id: string, k: nat)
    requires Admitted(c) && HeldBy(rows, b, c, k)
    requires rows[k].value == c.value || (c.source != FromUserCorrection && c.authority <= rows[k].authority)
    ensures WrittenAlone(rows, b, c, id) == rows
  {
    JudgedByHolder(rows, b, c, id, k);
  }

  /**
   Otherwise the holder alone is marked superseded, and the candidate is appended as it is,
   naming the holder, but without an event thread; unless it repeats a stored row, which
   leaves the slot empty.
   */
  lemma HolderIsReplaced(rows: seq<Item>, b: Batch, c: WriteCandidate, id: string, k: nat)
    requires Identified(rows) && Keyed(rows) && Admitted(c) && HeldBy(rows, b, c, k)
    requires rows[k].value != c.value && (c.source == FromUserCorrection || c.authority > rows[k].authority)
    ensures var after, marked := WrittenAlone(rows, b, c, id), rows[k := rows[k].(status := Superseded, updatedAt := b.now)];
            if exists r | r in rows :: Repeats(r, b, c) then after == marked
            else
              && |after| == |rows| + 1 && after[..|rows|] == marked
              && var stored := after[|rows|];
              Carries(stored, b, c) && stored.id == id && stored.supersedesId == rows[k].id && stored.eventThreadId == ""
  {
    JudgedByHolder(rows, b, c, id, k);
    ReplacementStores(rows, b, Write(c, Replace(rows[k].id), id), k);
    DuplicateIff(rows, b, Write(c, Replace(rows[k].id), id));
  }

  lemma ReplacementStores(rows: seq<Item>, b: Batch, w: Write, k: nat)
    requires Identified(rows) && k < |rows| && w.action == Replace(rows[k].id)
    ensures Execute(rows, b, w)
         == rows[k := rows[k].(status := Superseded, updatedAt := b.now)]
            + (if Duplicate(rows, KeyFor(b, w)) then [] else [RowFor(b, w)])
  {
    assert rows[k] in rows;
    MarkedAlone(rows, k, b.now);
    MarkingKeepsKeys(rows, {rows[k].id}, b.now, KeyFor(b, w));
  }

  lemma MarkedAlone(rows: seq<Item>, k: nat, now: int)
    requires Identified(rows) && k < |rows|
    ensures MarkSuperseded(rows, {rows[k].id}, now) == rows[k := rows[k].(status := Superseded, updatedAt := now)]
  {
  }

  // ---- an action that fails --------------------------------------------------------------------------

  /** An exception stores nothing, except that a replacement which fails in between leaves the old row marked. */
  lemma FailedActionStores(rows: seq<Item>, b: Batch, w: Write, fault: Fault)
    requires !w.action.MarkOnly? && fault != NoFault && Identified(rows)
    ensures var after := Execute(rows, b, Faulted(w, fault));
            && (!(w.action.Replace? && fault == FailsAfterMarking && Has(rows, w.action.oldId)) ==> after == rows)
            && (forall k | 0 <= k < |rows| && w.action == Replace(rows[k].id) && fault == FailsAfterMarking ::
                  after == rows[k := rows[k].(status := Superseded, updatedAt := b.now)])
  {
    forall k | 0 <= k < |rows| && w.action == Replace(rows[k].id) && fault == FailsAfterMarking
      ensures Execute(rows, b, Faulted(w, fault)) == rows[k := rows[k].(status := Superseded, updatedAt := b.now)]
    {
      assert rows[k] in rows;
      MarkedAlone(rows, k, b.now);
    }
  }

  // ---- expiry -----------------------------------------------------------------------------------------

  /**
   A sweep expires exactly the live rows in its scope whose time lies before the clock; every
   other row it leaves as it is.
   */
  lemma SweepExpiresOverdue(rows: seq<Item>, session: Option<string>, clock: string, now: int)
    ensures var after := ExpireDue(rows, session, clock, now);
            && |after| == |rows|
            && forall i | 0 <= i < |rows| ::
                 after[i]
                 == if && session in [None, Some(rows[i].sessionId)] && rows[i].status in [Candidate, Active, Confirmed]
                       && rows[i].validUntil.Some? && StrBefore(rows[i].validUntil.value, clock)
                    then rows[i].(status := Expired, updatedAt := now) else rows[i]
  {
  }

  // ---- user corrections ---------------------------------------------------------------------------------

  predicate UnderKey(r: Item, session: string, key: string) {
    r.status in [Candidate, Active, Confirmed] && r.sessionId == session && r.memoryKey == key
  }

  lemma HigherFirstIsTotalPreorder()
    ensures TotalPreorder(HigherFirst)
  {
  }

  lemma SortedUnderKey(rows: seq<Item>, session: string, key: string) returns (sorted: seq<Item>)
    ensures FindActiveByKey(rows, session, key) == if sorted == [] then None else Some(sorted[0])
    ensures Sorted(HigherFirst, sorted) && forall r :: r in sorted <==> r in rows && UnderKey(r, session, key)
  {
    var p := (r: Item) => Live(r) && r.sessionId == session && r.memoryKey == key;
    sorted := Sort(HigherFirst, Filter(p, rows));
    HigherFirstIsTotalPreorder();
    FilterMembers(p, rows);
    SortSorts(HigherFirst, Filter(p, rows));
    SortPermutes(HigherFirst, Filter(p, rows));
    PermutationMembers(sorted, Filter(p, rows));
  }

  /** The row found under a key is live, and none other under the key has more authority, or as much and is newer. */
  lemma FoundIsMostAuthoritative(rows: seq<Item>, session: string, key: string)
    ensures var found := FindActiveByKey(rows, session, key);
            && (found.None? <==> forall r | r in rows :: !UnderKey(r, session, key))
            && (found.Some? ==>
                  && found.value in rows && UnderKey(found.value, session, key)
                  && forall r | r in rows && UnderKey(r, session, key) ::
                       r.authority < found.value.authority
                       || (r.authority == found.value.authority && r.updatedAt <= found.value.updatedAt))
  {
    var sorted := SortedUnderKey(rows, session, key);
    assert sorted != [] ==> sorted[0] in sorted;
    forall r | r in rows && UnderKey(r, session, key)
      ensures HigherFirst(sorted[0], r)
    {
      var i :| 0 <= i < |sorted| && sorted[i] == r;
    }
  }

  /**
   A correction is stored as a stable fact and an audit record, both with the authority of the
   user and without an event thread.
   */
  predicate CarriesCorrection(fact: Item, audit: Item, k: Correction) {
    && fact.memoryType == StableFact && fact.status == Active && fact.value == map["value" := k.newValue]
    && fact.textContent == k.factText && fact.id == k.factId
    && audit.memoryType == UserCorrection && audit.status == Confirmed && audit.supersedesId == ""
    && audit.value == map["oldValue" := k.oldValue, "newValue" := k.newValue] && audit.textContent == k.auditText
    && audit.id == k.auditId
    && forall r | r in [fact, audit] ::
         && r.sessionId == k.sessionId && r.memoryKey == k.memoryKey && r.runId == k.runId && r.messageId == k.messageId
         && r.source == FromUserCorrection && r.authority == 100 && r.confidence == 1.0 && r.validUntil == None
         && r.eventThreadId == "" && r.updatedAt == k.now
  }

  function AfterCorrection(rows: seq<Item>, k: Correction): seq<Item> {
    ExecuteAll(rows, CorrectionBatch(k), CorrectionWrites(rows, k))
  }

  lemma CorrectionShape(rows: seq<Item>, k: Correction)
    requires Identified(rows) && Keyed(rows) && CorrectionIsNew(rows, k)
    ensures var b, fact := CorrectionBatch(k), FactWrite(rows, k);
            AfterCorrection(rows, k)
            == (if FoundFact(rows, k) then MarkSuperseded(rows, {fact.action.oldId}, k.now) else rows)
               + [RowFor(b, fact), RowFor(b, Write(AuditCandidate(k), MakeItem, k.auditId))]
  {
    var b, ws := CorrectionBatch(k), CorrectionWrites(rows, k);
    CorrectionIsSound(rows, k);
    LooseIsNew(rows, b, ws);
    BatchShape(rows, b, ws);
    AddedTwo(b, ws[0], ws[1]);
    RetiredTwo(ws[0], ws[1]);
    if !FoundFact(rows, k) {
      assert MarkSuperseded(rows, {}, k.now) == rows;
    }
  }

  lemma AddedTwo(b: Batch, v: Write, w: Write)
    requires Adds(v) && Adds(w) && SlotFor(b, v.candidate) != SlotFor(b, w.candidate)
    ensures Added(b, [v, w]) == [RowFor(b, v), RowFor(b, w)]
  {
    assert Init([v, w]) == [v] && Init([v]) == [] && Added(b, [v]) == [RowFor(b, v)];
  }

  lemma RetiredTwo(v: Write, w: Write)
    requires !Retires(w)
    ensures RetiredIds([v, w]) == if Retires(v) then {v.action.oldId} else {}
  {
    assert v in [v, w];
  }

  /**
   A user correction appends the fact and its audit record. If the most authoritative live
   row under the key is a stable fact, it is marked superseded and named by the new one;
   no other row changes.
   */
  lemma CorrectionStores(rows: seq<Item>, k: Correction)
    requires Identified(rows) && Keyed(rows) && CorrectionIsNew(rows, k)
    ensures var after, found := AfterCorrection(rows, k), FindActiveByKey(rows, k.sessionId, k.memoryKey);
            && |after| == |rows| + 2
            && CarriesCorrection(after[|rows|], after[|rows| + 1], k)
            && (if found.Some? && found.value.memoryType == StableFact
                then
                  && after[|rows|].supersedesId == found.value.id
                  && forall i | 0 <= i < |rows| ::
                       after[i] == if rows[i].id == found.value.id then rows[i].(status := Superseded, updatedAt := k.now) else rows[i]
                else after[|rows|].supersedesId == "" && after[..|rows|] == rows)
  {
    CorrectionShape(rows, k);
  }
}
