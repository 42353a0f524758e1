/**
 The memory item table: idempotent creation, superseding, expiry, the ordered
 query, and what one batch of gated writes does to the table.
 */
module MemoryItems {
  import opened Common
  import opened Projections
  import opened Sorting
  import opened WriteGate

  /** What at most one live item should hold at a time. */
  datatype Slot = Slot(sessionId: string, memoryType: MemoryType, memoryKey: string)

  function SlotOf(r: Item): Slot {
    Slot(r.sessionId, r.memoryType, r.memoryKey)
  }

  predicate Live(r: Item) {
    LiveStatus(r.status)
  }

  predicate Has(rows: seq<Item>, id: string) {
    exists r | r in rows :: r.id == id
  }

  // ---- table operations -----------------------------------------------------------

  /** Without a session there is no key, so nothing is ever a duplicate. */
  function DedupOf(slot: Slot, value: Fields, runId: string, messageId: string): Option<DedupKey> {
    if slot.sessionId == "" then None
    else Some(DedupKey(slot.sessionId, slot.memoryType, slot.memoryKey, value, runId, messageId))
  }

  /** Looks at rows of every status. */
  predicate Duplicate(rows: seq<Item>, key: Option<DedupKey>) {
    key.Some? && exists r | r in rows :: r.dedupKey == key
  }

  function CreateItem(rows: seq<Item>, item: Item): seq<Item> {
    if Duplicate(rows, item.dedupKey) then rows else rows + [item]
  }

  function Retire(r: Item, ids: set<string>, now: int): Item {
    if r.id in ids then r.(status := Superseded, updatedAt := now) else r
  }

  function MarkSuperseded(rows: seq<Item>, ids: set<string>, now: int): (r: seq<Item>) {
    seq(|rows|, i requires 0 <= i < |rows| => Retire(rows[i], ids, now))
  }

  /** An unknown id is an error and changes nothing. */
  function SupersedeItem(rows: seq<Item>, oldId: string, item: Item, now: int): seq<Item> {
    if Has(rows, oldId) then CreateItem(MarkSuperseded(rows, {oldId}, now), item) else rows
  }

  /** Text comparison of timestamps, as the database does it. */
  predicate Due(r: Item, clock: string) {
    && r.validUntil.Some?
    && StrLeq(r.validUntil.value, clock) && r.validUntil.value != clock
    && Live(r)
  }

  predicate InScope(r: Item, session: Option<string>) {
    session.None? || r.sessionId == session.value
  }

  function ExpireRow(r: Item, session: Option<string>, clock: string, now: int): Item {
    if InScope(r, session) && Due(r, clock) then r.(status := Expired, updatedAt := now) else r
  }

  /** Both expiry operations: over all sessions, or over one. */
  function ExpireDue(rows: seq<Item>, session: Option<string>, clock: string, now: int): seq<Item> {
    seq(|rows|, i requires 0 <= i < |rows| => ExpireRow(rows[i], session, clock, now))
  }

  predicate Matches(r: Item, session: string, memoryType: Option<MemoryType>, memoryKey: string) {
    && Live(r) && r.sessionId == session
    && (memoryType.None? || r.memoryType == memoryType.value)
    && (memoryKey == "" || r.memoryKey == memoryKey)
  }

  predicate NewerFirst(a: Item, b: Item) {
    a.updatedAt >= b.updatedAt
  }

  function Take<T>(n: nat, xs: seq<T>): seq<T> {
    if |xs| <= n then xs else xs[..n]
  }

  function Matcher(session: string, memoryType: Option<MemoryType>, memoryKey: string): Item -> bool {
    r => Matches(r, session, memoryType, memoryKey)
  }

  function Matching(rows: seq<Item>, session: string, memoryType: Option<MemoryType>, memoryKey: string): seq<Item> {
    Filter(Matcher(session, memoryType, memoryKey), rows)
  }

  function Query(rows: seq<Item>, session: string, memoryType: Option<MemoryType>, memoryKey: string, limit: nat): seq<Item> {
    Take(limit, Sort(NewerFirst, Matching(rows, session, memoryType, memoryKey)))
  }

  /** A query returns matching rows only, and all of them if they fit the limit. */
  lemma QueryMembers(rows: seq<Item>, session: string, memoryType: Option<MemoryType>, memoryKey: string, limit: nat)
    ensures forall e | e in Query(rows, session, memoryType, memoryKey, limit) ::
              e in rows && Matches(e, session, memoryType, memoryKey)
    ensures |Query(rows, session, memoryType, memoryKey, limit)| <= limit
    ensures |Matching(rows, session, memoryType, memoryKey)| <= limit ==>
              forall e | e in rows && Matches(e, session, memoryType, memoryKey) ::
                e in Query(rows, session, memoryType, memoryKey, limit)
  {
    var matching := Matching(rows, session, memoryType, memoryKey);
    FilterMembers(Matcher(session, memoryType, memoryKey), rows);
    SortPermutes(NewerFirst, matching);
    PermutationMembers(Sort(NewerFirst, matching), matching);
    var sorted := Sort(NewerFirst, matching);
    forall e | e in Take(limit, sorted)
      ensures e in sorted
    {
    }
  }

  lemma NewerFirstIsTotalPreorder()
    ensures TotalPreorder(NewerFirst)
  {
  }

  lemma LaterAreOlder(sorted: seq<Item>, limit: nat, r: Item)
    requires Sorted(NewerFirst, sorted) && r in sorted && r !in Take(limit, sorted)
    ensures |Take(limit, sorted)| == limit && forall e | e in Take(limit, sorted) :: e.updatedAt >= r.updatedAt
  {
    var k :| 0 <= k < |sorted| && sorted[k] == r;
    var taken := Take(limit, sorted);
    assert forall i | 0 <= i < |taken| :: taken[i] in taken && taken[i] == sorted[i];
    forall e | e in Take(limit, sorted)
      ensures e.updatedAt >= r.updatedAt
    {
      var i :| 0 <= i < limit && sorted[i] == e;
    }
  }

  /**
   A query lists live rows of the session under the given type and key, newest first; it
   leaves out such a row only for as many that are no older.
   */
  lemma QueryTakesNewest(rows: seq<Item>, session: string, memoryType: Option<MemoryType>, memoryKey: string, limit: nat)
    ensures var q := Query(rows, session, memoryType, memoryKey, limit);
            && (forall i, j | 0 <= i < j < |q| :: q[i].updatedAt >= q[j].updatedAt)
            && (forall r | r in q :: r in rows)
            && forall r | r in rows ::
                 if && r.status in [Candidate, Active, Confirmed] && r.sessionId == session
                    && memoryType in [None, Some(r.memoryType)] && memoryKey in ["", r.memoryKey]
                 then r in q || (|q| == limit && forall e | e in q :: e.updatedAt >= r.updatedAt)
                 else r !in q
  {
    var q := Query(rows, session, memoryType, memoryKey, limit);
    QueryIsSorted(rows, session, memoryType, memoryKey, limit);
    QueryMembers(rows, session, memoryType, memoryKey, limit);
    forall r | r in rows && Matches(r, session, memoryType, memoryKey) && r !in q
      ensures |q| == limit && forall e | e in q :: e.updatedAt >= r.updatedAt
    {
      MatchLeftOut(rows, session, memoryType, memoryKey, limit, r);
    }
    assert forall r :: Matches(r, session, memoryType, memoryKey)
             <==> && r.status in [Candidate, Active, Confirmed] && r.sessionId == session
                  && memoryType in [None, Some(r.memoryType)] && memoryKey in ["", r.memoryKey];
  }

  lemma SortedMatching(rows: seq<Item>, session: string, memoryType: Option<MemoryType>, memoryKey: string)
    ensures var sorted := Sort(NewerFirst, Matching(rows, session, memoryType, memoryKey));
            && Sorted(NewerFirst, sorted)
            && forall r :: r in sorted <==> r in rows && Matches(r, session, memoryType, memoryKey)
  {
    var matching := Matching(rows, session, memoryType, memoryKey);
    NewerFirstIsTotalPreorder();
    SortSorts(NewerFirst, matching);
    SortPermutes(NewerFirst, matching);
    PermutationMembers(Sort(NewerFirst, matching), matching);
    FilterMembers(Matcher(session, memoryType, memoryKey), rows);
  }

  lemma QueryIsSorted(rows: seq<Item>, session: string, memoryType: Option<MemoryType>, memoryKey: string, limit: nat)
    ensures Sorted(NewerFirst, Query(rows, session, memoryType, memoryKey, limit))
  {
    SortedMatching(rows, session, memoryType, memoryKey);
  }

  lemma MatchLeftOut(rows: seq<Item>, session: string, memoryType: Option<MemoryType>, memoryKey: string, limit: nat, r: Item)
    requires r in rows && Matches(r, session, memoryType, memoryKey) && r !in Query(rows, session, memoryType, memoryKey, limit)
    ensures var q := Query(rows, session, memoryType, memoryKey, limit);
            |q| == limit && forall e | e in q :: e.updatedAt >= r.updatedAt
  {
    SortedMatching(rows, session, memoryType, memoryKey);
    LaterAreOlder(Sort(NewerFirst, Matching(rows, session, memoryType, memoryKey)), limit, r);
  }

  // ---- one batch ------------------------------------------------------------------

  const VISIBLE: nat := 500

  /** `MarkOnly` is a replacement that fails once the old row is marked and before the new one is stored. */
  datatype Action = MakeItem | KeepExisting | Replace(oldId: string) | Refuse | MarkOnly(oldId: string)

  /** A candidate with the action decided for it and the row id drawn for it. */
  datatype Write = Write(candidate: WriteCandidate, action: Action, id: string)

  datatype Batch = Batch(sessionId: string, runId: string, threadId: string, now: int)

  predicate Adds(w: Write) {
    w.action.MakeItem? || w.action.Replace?
  }

  /** The write marks an old row superseded. */
  predicate Retires(w: Write) {
    w.action.Replace? || w.action.MarkOnly?
  }

  function SlotFor(b: Batch, c: WriteCandidate): Slot {
    Slot(b.sessionId, c.memoryType, c.memoryKey)
  }

  function KeyFor(b: Batch, w: Write): Option<DedupKey> {
    DedupOf(SlotFor(b, w.candidate), w.candidate.value, w.candidate.runId, w.candidate.messageId)
  }

  /** A superseding row is stored without its event thread: supersede_item does not hand the thread on. */
  function RowFor(b: Batch, w: Write): Item {
    var c := w.candidate;
    Item(
      w.id, c.memoryType, b.sessionId, c.memoryKey, c.value, c.textContent, c.status, c.confidence,
      c.authority, c.source, c.runId, c.messageId, c.validUntil,
      if w.action.Replace? then w.action.oldId else "",
      KeyFor(b, w),
      if w.action.Replace? then "" else b.threadId,
      b.now)
  }

  function Execute(rows: seq<Item>, b: Batch, w: Write): seq<Item> {
    match w.action
    case MakeItem => CreateItem(rows, RowFor(b, w))
    case Replace(oldId) => if oldId == "" then rows else SupersedeItem(rows, oldId, RowFor(b, w), b.now)
    case KeepExisting => rows
    case Refuse => rows
    case MarkOnly(oldId) => if oldId == "" || !Has(rows, oldId) then rows else MarkSuperseded(rows, {oldId}, b.now)
  }

  function ExecuteAll(rows: seq<Item>, b: Batch, ws: seq<Write>): seq<Item> {
    if ws == [] then rows else Execute(ExecuteAll(rows, b, Init(ws)), b, Last(ws))
  }

  function ActionFor(d: Decision): Action {
    match d
    case Create => MakeItem
    case Deduplicated(_, _) => KeepExisting
    case Supersede(_, holder) => Replace(holder.id)
    case Reject(_) => Refuse
  }

  /** Every candidate is judged against the items as they were before the batch. */
  function Writes(existing: seq<Item>, candidates: seq<WriteCandidate>, ids: seq<string>): (ws: seq<Write>)
    requires |ids| == |candidates|
  {
    seq(|candidates|, i requires 0 <= i < |candidates| =>
      Write(candidates[i], ActionFor(Decide(candidates[i], existing)), ids[i]))
  }

  function Planned(rows: seq<Item>, b: Batch, candidates: seq<WriteCandidate>, ids: seq<string>): (ws: seq<Write>)
    requires |ids| == |candidates|
  {
    Writes(Query(rows, b.sessionId, None, "", VISIBLE), candidates, ids)
  }

  /** Where an action raises an exception, if it does; the batch swallows it and goes on. */
  datatype Fault = NoFault | FailsBeforeWriting | FailsAfterMarking

  /** What a write amounts to when it fails. */
  function Faulted(w: Write, f: Fault): Write {
    if f == NoFault || (!Adds(w) && !Retires(w)) then w
    else if w.action.Replace? && f == FailsAfterMarking then w.(action := MarkOnly(w.action.oldId))
    else w.(action := Refuse)
  }

  function WithFaults(ws: seq<Write>, fs: seq<Fault>): (r: seq<Write>)
    requires |fs| == |ws|
  {
    seq(|ws|, i requires 0 <= i < |ws| => Faulted(ws[i], fs[i]))
  }

  // ---- the shape of the table after a batch ---------------------------------------

  function RetiredIds(ws: seq<Write>): set<string> {
    set w | w in ws && Retires(w) :: w.action.oldId
  }

  /** The rows a batch appends: one per adding write, except exact repeats. */
  function Added(b: Batch, ws: seq<Write>): seq<Item> {
    if ws == [] then []
    else
      var prior, w := Added(b, Init(ws)), Last(ws);
      if Adds(w) && !Duplicate(prior, KeyFor(b, w)) then prior + [RowFor(b, w)] else prior
  }

  /** No earlier row can be mistaken for a write of this batch, and the drawn ids are new. */
  predicate NewTo(rows: seq<Item>, b: Batch, ws: seq<Write>) {
    && (forall w | w in ws :: !Duplicate(rows, KeyFor(b, w)) && !Has(rows, w.id))
    && (forall w | w in ws && Retires(w) :: w.action.oldId != "" && Has(rows, w.action.oldId))
  }

  lemma MarkingKeepsKeys(rows: seq<Item>, ids: set<string>, now: int, key: Option<DedupKey>)
    ensures Duplicate(MarkSuperseded(rows, ids, now), key) == Duplicate(rows, key)
  {
    var marked := MarkSuperseded(rows, ids, now);
    if Duplicate(rows, key) {
      var i :| 0 <= i < |rows| && rows[i].dedupKey == key;
      assert marked[i] in marked && marked[i].dedupKey == key;
    }
    if Duplicate(marked, key) {
      var i :| 0 <= i < |marked| && marked[i].dedupKey == key;
      assert rows[i] in rows && rows[i].dedupKey == key;
    }
  }

  lemma DuplicateAppend(xs: seq<Item>, ys: seq<Item>, key: Option<DedupKey>)
    ensures Duplicate(xs + ys, key) <==> Duplicate(xs, key) || Duplicate(ys, key)
  {
    assert forall r :: r in xs + ys <==> r in xs || r in ys;
  }

  lemma MarkAgain(rows: seq<Item>, ids: set<string>, more: set<string>, added: seq<Item>, now: int)
    requires forall r | r in added :: r.id !in more
    ensures MarkSuperseded(MarkSuperseded(rows, ids, now) + added, more, now)
         == MarkSuperseded(rows, ids + more, now) + added
  {
  }

  lemma RetiredSnoc(ws: seq<Write>)
    requires ws != []
    ensures RetiredIds(ws) == RetiredIds(Init(ws)) + (if Retires(Last(ws)) then {Last(ws).action.oldId} else {})
  {
    assert ws == Init(ws) + [Last(ws)];
  }

  lemma {:induction false} AddedIdsAreNew(rows: seq<Item>, b: Batch, ws: seq<Write>)
    requires NewTo(rows, b, ws)
    ensures forall r | r in Added(b, ws) :: !Has(rows, r.id)
  {
    if ws != [] {
      assert ws == Init(ws) + [Last(ws)];
      AddedIdsAreNew(rows, b, Init(ws));
      assert RowFor(b, Last(ws)).id == Last(ws).id;
    }
  }

  lemma HasSurvives(rows: seq<Item>, ids: set<string>, added: seq<Item>, now: int, id: string)
    requires Has(rows, id)
    ensures Has(MarkSuperseded(rows, ids, now) + added, id)
  {
    var i :| 0 <= i < |rows| && rows[i].id == id;
    var all := MarkSuperseded(rows, ids, now) + added;
    assert all[i] in all && all[i].id == id;
  }

  /** Adding one row after the shape: it goes to the end unless the batch already added its key. */
  lemma CreateShape(rows: seq<Item>, marked: seq<Item>, added: seq<Item>, item: Item, ids: set<string>, now: int)
    requires marked == MarkSuperseded(rows, ids, now) && !Duplicate(rows, item.dedupKey)
    ensures CreateItem(marked + added, item)
         == marked + (if Duplicate(added, item.dedupKey) then added else added + [item])
  {
    MarkingKeepsKeys(rows, ids, now, item.dedupKey);
    DuplicateAppend(marked, added, item.dedupKey);
    if !Duplicate(added, item.dedupKey) {
      assert marked + added + [item] == marked + (added + [item]);
    }
  }

  lemma SupersedeShape(rows: seq<Item>, marked: seq<Item>, added: seq<Item>, item: Item, ids: set<string>, oldId: string, now: int)
    requires marked == MarkSuperseded(rows, ids, now) && !Duplicate(rows, item.dedupKey)
    requires Has(rows, oldId) && forall r | r in added :: r.id != oldId
    ensures SupersedeItem(marked + added, oldId, item, now)
         == MarkSuperseded(rows, ids + {oldId}, now)
            + (if Duplicate(added, item.dedupKey) then added else added + [item])
  {
    HasSurvives(rows, ids, added, now, oldId);
    MarkAgain(rows, ids, {oldId}, added, now);
    CreateShape(rows, MarkSuperseded(rows, ids + {oldId}, now), added, item, ids + {oldId}, now);
  }

  lemma AddedSnoc(b: Batch, ws: seq<Write>, w: Write)
    requires ws != [] && Last(ws) == w
    ensures Added(b, ws)
         == if Adds(w) && !Duplicate(Added(b, Init(ws)), RowFor(b, w).dedupKey) then Added(b, Init(ws)) + [RowFor(b, w)]
            else Added(b, Init(ws))
  {
  }

  /** The shape after all but the last write, and the shape after it. */
  ghost predicate LastKeepsShape(rows: seq<Item>, b: Batch, ws: seq<Write>)
    requires ws != []
  {
    Execute(MarkSuperseded(rows, RetiredIds(Init(ws)), b.now) + Added(b, Init(ws)), b, Last(ws))
    == MarkSuperseded(rows, RetiredIds(ws), b.now) + Added(b, ws)
  }

  lemma CreateKeepsShape(rows: seq<Item>, b: Batch, ws: seq<Write>)
    requires ws != [] && NewTo(rows, b, ws) && Last(ws).action.MakeItem?
    ensures LastKeepsShape(rows, b, ws)
  {
    var ids, added := RetiredIds(Init(ws)), Added(b, Init(ws));
    assert Last(ws) in ws;
    RetiredSnoc(ws);
    AddedSnoc(b, ws, Last(ws));
    CreateShape(rows, MarkSuperseded(rows, ids, b.now), added, RowFor(b, Last(ws)), ids, b.now);
  }

  lemma ReplaceKeepsShape(rows: seq<Item>, b: Batch, ws: seq<Write>)
    requires ws != [] && NewTo(rows, b, ws) && Last(ws).action.Replace?
    ensures LastKeepsShape(rows, b, ws)
  {
    var w, ids, added := Last(ws), RetiredIds(Init(ws)), Added(b, Init(ws));
    assert ws == Init(ws) + [w] && w in ws;
    RetiredSnoc(ws);
    AddedSnoc(b, ws, w);
    AddedIdsAreNew(rows, b, Init(ws));
    SupersedeShape(rows, MarkSuperseded(rows, ids, b.now), added, RowFor(b, w), ids, w.action.oldId, b.now);
  }

  lemma MarkKeepsShape(rows: seq<Item>, b: Batch, ws: seq<Write>)
    requires ws != [] && NewTo(rows, b, ws) && Last(ws).action.MarkOnly?
    ensures LastKeepsShape(rows, b, ws)
  {
    var w, ids, added := Last(ws), RetiredIds(Init(ws)), Added(b, Init(ws));
    assert ws == Init(ws) + [w] && w in ws;
    RetiredSnoc(ws);
    AddedSnoc(b, ws, w);
    AddedIdsAreNew(rows, b, Init(ws));
    HasSurvives(rows, ids, added, b.now, w.action.oldId);
    MarkAgain(rows, ids, {w.action.oldId}, added, b.now);
  }

  lemma IdleKeepsShape(rows: seq<Item>, b: Batch, ws: seq<Write>)
    requires ws != [] && !Adds(Last(ws)) && !Retires(Last(ws))
    ensures LastKeepsShape(rows, b, ws)
  {
    RetiredSnoc(ws);
    AddedSnoc(b, ws, Last(ws));
  }

  lemma ExecuteShape(rows: seq<Item>, b: Batch, ws: seq<Write>)
    requires ws != [] && NewTo(rows, b, ws)
    ensures LastKeepsShape(rows, b, ws)
  {
    var action := Last(ws).action;
    if action.MakeItem? {
      CreateKeepsShape(rows, b, ws);
    } else if action.Replace? {
      ReplaceKeepsShape(rows, b, ws);
    } else if action.MarkOnly? {
      MarkKeepsShape(rows, b, ws);
    } else {
      IdleKeepsShape(rows, b, ws);
    }
  }

  /** A batch only marks old rows superseded and appends new ones. */
  lemma {:induction false} BatchShape(rows: seq<Item>, b: Batch, ws: seq<Write>)
    requires NewTo(rows, b, ws)
    ensures ExecuteAll(rows, b, ws) == MarkSuperseded(rows, RetiredIds(ws), b.now) + Added(b, ws)
  {
    if ws == [] {
      assert MarkSuperseded(rows, {}, b.now) == rows;
    } else {
      assert ws == Init(ws) + [Last(ws)];
      BatchShape(rows, b, Init(ws));
      ExecuteShape(rows, b, ws);
    }
  }
}
