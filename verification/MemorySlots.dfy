/**
 Slot uniqueness, authority and supersede chains over every sequence of write
 batches and expiry sweeps.
 */
module MemorySlots {
  import opened Common
  import opened WriteGate
  import opened MemoryItems

  ghost predicate Unique(rows: seq<Item>) {
    forall i, j | 0 <= i < j < |rows| && Live(rows[i]) && Live(rows[j]) :: SlotOf(rows[i]) != SlotOf(rows[j])
  }

  ghost predicate Identified(rows: seq<Item>) {
    && (forall i, j | 0 <= i < j < |rows| :: rows[i].id != rows[j].id)
    && (forall r | r in rows :: r.id != "")
  }

  ghost predicate Keyed(rows: seq<Item>) {
    forall r | r in rows :: r.dedupKey == DedupOf(SlotOf(r), r.value, r.runId, r.messageId)
  }

  /** Row `newer` records row `older` as the one it replaced. */
  predicate Names(rows: seq<Item>, older: int, newer: int) {
    0 <= older < |rows| && 0 <= newer < |rows| && rows[newer].supersedesId == rows[older].id
  }

  predicate Outranks(newer: Item, older: Item) {
    newer.source == FromUserCorrection || newer.authority > older.authority
  }

  ghost predicate LinksUpward(rows: seq<Item>) {
    forall i, j | Names(rows, i, j) ::
      i < j && rows[i].status == Superseded && SlotOf(rows[i]) == SlotOf(rows[j]) && Outranks(rows[j], rows[i])
  }

  ghost predicate NamedOnce(rows: seq<Item>) {
    forall i, j, k | Names(rows, i, j) && Names(rows, i, k) :: j == k
  }

  ghost predicate SupersededAreNamed(rows: seq<Item>) {
    forall i | 0 <= i < |rows| && rows[i].status == Superseded :: exists j :: Names(rows, i, j)
  }

  ghost predicate LinksResolve(rows: seq<Item>) {
    forall j | 0 <= j < |rows| && rows[j].supersedesId != "" :: exists i :: Names(rows, i, j)
  }

  /** Links go upward within a slot, to at most one row each, and never dangle. */
  ghost predicate Linking(rows: seq<Item>) {
    LinksUpward(rows) && NamedOnce(rows) && LinksResolve(rows)
  }

  ghost predicate Base(rows: seq<Item>) {
    Identified(rows) && Keyed(rows) && Unique(rows) && Linking(rows)
  }

  ghost predicate Inv(rows: seq<Item>) {
    Base(rows) && SupersededAreNamed(rows)
  }

  // ---- what a planned batch may rely on --------------------------------------------

  /** The batch belongs to a new run, its candidates are live, and its row ids are new. */
  ghost predicate Admissible(rows: seq<Item>, b: Batch, candidates: seq<WriteCandidate>, ids: seq<string>) {
    && |ids| == |candidates|
    && Distinct(ids)
    && (forall id | id in ids :: id != "" && !Has(rows, id))
    && (forall c | c in candidates :: c.runId == b.runId && LiveStatus(c.status))
    && (forall r | r in rows :: r.runId != b.runId)
  }

  /** The row a write retires, whatever became of it since the write was planned. */
  predicate LooseTarget(rows: seq<Item>, b: Batch, w: Write, k: int) {
    && Retires(w)
    && 0 <= k < |rows| && rows[k].id == w.action.oldId
    && SlotOf(rows[k]) == SlotFor(b, w.candidate)
    && Outranks(RowFor(b, w), rows[k])
  }

  predicate Target(rows: seq<Item>, b: Batch, w: Write, k: int) {
    LooseTarget(rows, b, w, k) && Live(rows[k])
  }

  ghost predicate LooseWrite(rows: seq<Item>, b: Batch, w: Write) {
    && w.candidate.runId == b.runId && LiveStatus(w.candidate.status)
    && w.id != "" && !Has(rows, w.id)
    && (Retires(w) ==> exists k :: LooseTarget(rows, b, w, k))
  }

  ghost predicate HitsTarget(rows: seq<Item>, b: Batch, w: Write) {
    Retires(w) ==> exists k :: Target(rows, b, w, k)
  }

  predicate Touches(w: Write) {
    Adds(w) || Retires(w)
  }

  predicate SameSlotWrites(b: Batch, v: Write, w: Write) {
    Touches(v) && Touches(w) && SlotFor(b, v.candidate) == SlotFor(b, w.candidate)
  }

  /** Writes for one slot all create, or all retire one row. */
  predicate Agree(v: Write, w: Write) {
    v.action.MakeItem? == w.action.MakeItem? && (Retires(v) && Retires(w) ==> v.action.oldId == w.action.oldId)
  }

  ghost predicate Agreeing(b: Batch, ws: seq<Write>) {
    forall v, w | v in ws && w in ws && SameSlotWrites(b, v, w) :: Agree(v, w)
  }

  /** Writes planned on an earlier state of the table. */
  ghost predicate Loose(rows: seq<Item>, b: Batch, ws: seq<Write>) {
    && (forall r | r in rows :: r.runId != b.runId)
    && (forall w | w in ws :: LooseWrite(rows, b, w))
    && (forall i, j | 0 <= i < j < |ws| :: ws[i].id != ws[j].id)
    && Agreeing(b, ws)
  }

  /** Writes planned on this state of the table. */
  ghost predicate Sound(rows: seq<Item>, b: Batch, ws: seq<Write>) {
    Loose(rows, b, ws) && forall w | w in ws :: HitsTarget(rows, b, w)
  }

  lemma PlannedWriteHits(rows: seq<Item>, b: Batch, c: WriteCandidate, id: string, existing: seq<Item>)
    requires forall e | e in existing :: e in rows && Live(e) && e.sessionId == b.sessionId
    ensures HitsTarget(rows, b, Write(c, ActionFor(Decide(c, existing)), id))
  {
    GateReplacesUpwards(c, existing);
    var w := Write(c, ActionFor(Decide(c, existing)), id);
    if Retires(w) {
      var k :| 0 <= k < |rows| && rows[k] == Decide(c, existing).existing;
      assert Target(rows, b, w, k);
    }
  }

  lemma PlannedAgree(b: Batch, v: Write, w: Write, existing: seq<Item>)
    requires v.action == ActionFor(Decide(v.candidate, existing))
    requires w.action == ActionFor(Decide(w.candidate, existing))
    requires SameSlotWrites(b, v, w)
    ensures Agree(v, w)
  {
    ScanStopsAtFirst(v.candidate, existing);
    ScanStopsAtFirst(w.candidate, existing);
    SameSlotSameFirst(v.candidate, w.candidate, existing);
  }

  lemma PlannedAreAgreeing(b: Batch, existing: seq<Item>, candidates: seq<WriteCandidate>, ids: seq<string>)
    requires |ids| == |candidates|
    ensures Agreeing(b, Writes(existing, candidates, ids))
  {
    var ws := Writes(existing, candidates, ids);
    forall v, w | v in ws && w in ws && SameSlotWrites(b, v, w)
      ensures Agree(v, w)
    {
      PlannedAgree(b, v, w, existing);
    }
  }

  /** Later states of a table keep its rows in place, under their ids, slots and authorities. */
  ghost predicate Evolved(before: seq<Item>, after: seq<Item>) {
    && |before| <= |after|
    && forall i | 0 <= i < |before| ::
         after[i].id == before[i].id && SlotOf(after[i]) == SlotOf(before[i]) && after[i].authority == before[i].authority
  }

  lemma PlannedWriteIsLoose(
      before: seq<Item>, rows: seq<Item>, b: Batch, c: WriteCandidate, id: string, existing: seq<Item>)
    requires Evolved(before, rows) && HitsTarget(before, b, Write(c, ActionFor(Decide(c, existing)), id))
    requires c.runId == b.runId && LiveStatus(c.status) && id != "" && !Has(rows, id)
    ensures LooseWrite(rows, b, Write(c, ActionFor(Decide(c, existing)), id))
  {
    var w := Write(c, ActionFor(Decide(c, existing)), id);
    if Retires(w) {
      var k :| Target(before, b, w, k);
      assert LooseTarget(rows, b, w, k);
    }
  }

  /** A batch planned on one state of the table may be executed on a later one. */
  lemma PlannedEarlierIsLoose(before: seq<Item>, rows: seq<Item>, b: Batch, candidates: seq<WriteCandidate>, ids: seq<string>)
    requires Evolved(before, rows) && Admissible(rows, b, candidates, ids)
    ensures Loose(rows, b, Planned(before, b, candidates, ids))
    ensures forall w | w in Planned(before, b, candidates, ids) :: HitsTarget(before, b, w)
  {
    var existing := Query(before, b.sessionId, None, "", VISIBLE);
    var ws := Planned(before, b, candidates, ids);
    QueryMembers(before, b.sessionId, None, "", VISIBLE);
    PlannedAreAgreeing(b, existing, candidates, ids);
    forall w | w in ws
      ensures LooseWrite(rows, b, w) && HitsTarget(before, b, w)
    {
      var i :| 0 <= i < |ws| && ws[i] == w;
      assert candidates[i] in candidates && ids[i] in ids;
      PlannedWriteHits(before, b, candidates[i], ids[i], existing);
      PlannedWriteIsLoose(before, rows, b, candidates[i], ids[i], existing);
    }
  }

  lemma PlannedIsSound(rows: seq<Item>, b: Batch, candidates: seq<WriteCandidate>, ids: seq<string>)
    requires Admissible(rows, b, candidates, ids)
    ensures Sound(rows, b, Planned(rows, b, candidates, ids))
  {
    PlannedEarlierIsLoose(rows, rows, b, candidates, ids);
  }

  // ---- failing writes ----------------------------------------------------------------

  lemma FaultedWrite(rows: seq<Item>, b: Batch, w: Write, f: Fault)
    requires LooseWrite(rows, b, w)
    ensures LooseWrite(rows, b, Faulted(w, f))
    ensures HitsTarget(rows, b, w) ==> HitsTarget(rows, b, Faulted(w, f))
  {
    var v := Faulted(w, f);
    if Retires(v) {
      var k :| LooseTarget(rows, b, w, k);
      assert LooseTarget(rows, b, v, k);
      if HitsTarget(rows, b, w) {
        var t :| Target(rows, b, w, t);
        assert Target(rows, b, v, t);
      }
    }
  }

  lemma FaultsKeepAgreement(b: Batch, ws: seq<Write>, fs: seq<Fault>)
    requires |fs| == |ws| && Agreeing(b, ws)
    ensures Agreeing(b, WithFaults(ws, fs))
  {
    var faulted := WithFaults(ws, fs);
    forall v, w | v in faulted && w in faulted && SameSlotWrites(b, v, w)
      ensures Agree(v, w)
    {
      var i :| 0 <= i < |ws| && faulted[i] == v;
      var j :| 0 <= j < |ws| && faulted[j] == w;
      assert SameSlotWrites(b, ws[i], ws[j]);
      assert Agree(ws[i], ws[j]);
    }
  }

  lemma FaultsKeepLoose(rows: seq<Item>, b: Batch, ws: seq<Write>, fs: seq<Fault>)
    requires |fs| == |ws| && Loose(rows, b, ws)
    ensures Loose(rows, b, WithFaults(ws, fs))
  {
    var faulted := WithFaults(ws, fs);
    FaultsKeepAgreement(b, ws, fs);
    forall w | w in faulted
      ensures LooseWrite(rows, b, w)
    {
      var i :| 0 <= i < |ws| && faulted[i] == w;
      FaultedWrite(rows, b, ws[i], fs[i]);
    }
  }

  lemma FaultsKeepSound(rows: seq<Item>, b: Batch, ws: seq<Write>, fs: seq<Fault>)
    requires |fs| == |ws| && Sound(rows, b, ws)
    ensures Sound(rows, b, WithFaults(ws, fs))
  {
    var faulted := WithFaults(ws, fs);
    FaultsKeepLoose(rows, b, ws, fs);
    forall w | w in faulted
      ensures HitsTarget(rows, b, w)
    {
      var i :| 0 <= i < |ws| && faulted[i] == w;
      assert LooseWrite(rows, b, ws[i]);
      FaultedWrite(rows, b, ws[i], fs[i]);
    }
  }

  lemma LooseIsNew(rows: seq<Item>, b: Batch, ws: seq<Write>)
    requires Identified(rows) && Keyed(rows) && Loose(rows, b, ws)
    ensures NewTo(rows, b, ws)
  {
    forall w | w in ws
      ensures !Duplicate(rows, KeyFor(b, w)) && !Has(rows, w.id)
    {
      assert LooseWrite(rows, b, w);
    }
    forall w | w in ws && Retires(w)
      ensures w.action.oldId != "" && Has(rows, w.action.oldId)
    {
      assert LooseWrite(rows, b, w);
      var k :| LooseTarget(rows, b, w, k);
      assert rows[k] in rows;
    }
  }

  // ---- the appended rows -------------------------------------------------------------

  predicate Covers(b: Batch, added: seq<Item>, w: Write, a: int) {
    && 0 <= a < |added|
    && SlotOf(added[a]) == SlotFor(b, w.candidate)
    && (KeyFor(b, w).Some? ==> added[a].dedupKey == KeyFor(b, w))
  }

  lemma {:induction false} AddedFrom(b: Batch, ws: seq<Write>, a: int) returns (w: Write)
    requires 0 <= a < |Added(b, ws)|
    ensures w in ws && Adds(w) && Added(b, ws)[a] == RowFor(b, w)
  {
    if a < |Added(b, Init(ws))| {
      w := AddedFrom(b, Init(ws), a);
    } else {
      w := Last(ws);
    }
  }

  lemma {:induction false} AddedCovers(b: Batch, ws: seq<Write>, w: Write) returns (a: int)
    requires w in ws && Adds(w)
    ensures Covers(b, Added(b, ws), w, a)
  {
    var prior := Added(b, Init(ws));
    if w == Last(ws) {
      if Duplicate(prior, KeyFor(b, w)) {
        a :| 0 <= a < |prior| && prior[a].dedupKey == KeyFor(b, w);
        var v := AddedFrom(b, Init(ws), a);
      } else {
        a := |prior|;
      }
    } else {
      assert ws == Init(ws) + [Last(ws)];
      a := AddedCovers(b, Init(ws), w);
    }
  }

  /** Two writes for one slot are harmless only if the second repeats the first. */
  ghost predicate OnlyRepeats(b: Batch, ws: seq<Write>) {
    forall i, j | 0 <= i < j < |ws| && Adds(ws[i]) && Adds(ws[j]) && SameSlotWrites(b, ws[i], ws[j]) ::
      KeyFor(b, ws[i]) == KeyFor(b, ws[j]) && KeyFor(b, ws[i]).Some?
  }

  ghost predicate SlotsDiffer(rows: seq<Item>) {
    forall i, j | 0 <= i < j < |rows| :: SlotOf(rows[i]) != SlotOf(rows[j])
  }

  lemma {:induction false} RepeatsKeepSlotsApart(b: Batch, ws: seq<Write>)
    requires OnlyRepeats(b, ws)
    ensures SlotsDiffer(Added(b, ws))
  {
    if ws != [] {
      var prior, w := Added(b, Init(ws)), Last(ws);
      RepeatsKeepSlotsApart(b, Init(ws));
      if Adds(w) && !Duplicate(prior, KeyFor(b, w)) {
        forall a | 0 <= a < |prior|
          ensures SlotOf(prior[a]) != SlotFor(b, w.candidate)
        {
          var v := AddedFrom(b, Init(ws), a);
          var i :| 0 <= i < |Init(ws)| && Init(ws)[i] == v;
          assert prior[a].dedupKey == KeyFor(b, v);
          assert Adds(ws[i]) && Adds(ws[|ws| - 1]);
          assert SameSlotWrites(b, ws[i], ws[|ws| - 1]) ==> KeyFor(b, v) == KeyFor(b, w);
        }
      }
    }
  }

  lemma {:induction false} SlotsApartMeansRepeats(b: Batch, ws: seq<Write>)
    requires SlotsDiffer(Added(b, ws))
    ensures OnlyRepeats(b, ws)
  {
    if ws != [] {
      var prior, w := Added(b, Init(ws)), Last(ws);
      assert forall a | 0 <= a < |prior| :: Added(b, ws)[a] == prior[a];
      SlotsApartMeansRepeats(b, Init(ws));
      forall i, j | 0 <= i < j < |ws| && Adds(ws[i]) && Adds(ws[j]) && SameSlotWrites(b, ws[i], ws[j])
        ensures KeyFor(b, ws[i]) == KeyFor(b, ws[j]) && KeyFor(b, ws[i]).Some?
      {
        if j < |ws| - 1 {
          assert SameSlotWrites(b, Init(ws)[i], Init(ws)[j]);
        } else {
          LastRepeats(b, ws, i);
        }
      }
    }
  }

  lemma SecondWriteIsDuplicate(b: Batch, ws: seq<Write>, a: int)
    requires ws != [] && Adds(Last(ws)) && SlotsDiffer(Added(b, ws))
    requires 0 <= a < |Added(b, Init(ws))| && SlotOf(Added(b, Init(ws))[a]) == SlotFor(b, Last(ws).candidate)
    ensures Duplicate(Added(b, Init(ws)), KeyFor(b, Last(ws)))
  {
    var prior := Added(b, Init(ws));
    assert Added(b, ws)[a] == prior[a];
    assert |Added(b, ws)| > |prior| ==> Added(b, ws)[|prior|] == RowFor(b, Last(ws));
  }

  lemma LastRepeats(b: Batch, ws: seq<Write>, i: int)
    requires ws != [] && SlotsDiffer(Added(b, ws)) && SlotsDiffer(Added(b, Init(ws)))
    requires 0 <= i < |ws| - 1 && Adds(ws[i]) && Adds(Last(ws)) && SameSlotWrites(b, ws[i], Last(ws))
    ensures KeyFor(b, ws[i]) == KeyFor(b, Last(ws)) && KeyFor(b, ws[i]).Some?
  {
    var prior, w := Added(b, Init(ws)), Last(ws);
    assert ws[i] == Init(ws)[i];
    var a := AddedCovers(b, Init(ws), ws[i]);
    SecondWriteIsDuplicate(b, ws, a);
    var d :| 0 <= d < |prior| && prior[d].dedupKey == KeyFor(b, w);
    var v := AddedFrom(b, Init(ws), d);
    assert SlotOf(prior[d]) == SlotOf(prior[a]);
    assert d == a;
  }

  // ---- when a batch keeps slots unique --------------------------------------------------

  /** Whatever is live in a slot that gets a new item is the row that item replaces. */
  ghost predicate Fits(rows: seq<Item>, b: Batch, ws: seq<Write>) {
    forall w, r | w in ws && Adds(w) && r in rows && Live(r) && SlotOf(r) == SlotFor(b, w.candidate) :: w.action == Replace(r.id)
  }

  ghost predicate SlotsFree(rows: seq<Item>, b: Batch, ws: seq<Write>) {
    forall w, r | w in ws && w.action.MakeItem? && r in rows && Live(r) :: SlotOf(r) != SlotFor(b, w.candidate)
  }

  /** Every new item's slot is free, and no slot is written twice with different content. */
  ghost predicate Clear(rows: seq<Item>, b: Batch, ws: seq<Write>) {
    SlotsFree(rows, b, ws) && OnlyRepeats(b, ws)
  }

  lemma MarkedRow(rows: seq<Item>, b: Batch, ws: seq<Write>, k: int)
    requires 0 <= k < |rows|
    ensures var r := MarkSuperseded(rows, RetiredIds(ws), b.now)[k];
            && r.id == rows[k].id && SlotOf(r) == SlotOf(rows[k]) && r.supersedesId == rows[k].supersedesId
            && r.authority == rows[k].authority && r.source == rows[k].source
            && (rows[k].id !in RetiredIds(ws) ==> r == rows[k])
            && (rows[k].id in RetiredIds(ws) ==> r.status == Superseded)
  {
  }

  lemma RetiredBy(ws: seq<Write>, id: string) returns (w: Write)
    requires id in RetiredIds(ws)
    ensures w in ws && Retires(w) && w.action.oldId == id
  {
    w :| w in ws && Retires(w) && w.action.oldId == id;
  }

  /** Among live rows, the one a write replaces is the only one in its slot. */
  lemma TargetIsHolder(rows: seq<Item>, b: Batch, w: Write, k: int, r: int)
    requires Unique(rows) && Target(rows, b, w, k)
    requires 0 <= r < |rows| && Live(rows[r]) && SlotOf(rows[r]) == SlotFor(b, w.candidate)
    ensures r == k
  {
  }

  /** For writes planned on the table itself, the slots fit when those that get a first item are free. */
  lemma FitsIffFree(rows: seq<Item>, b: Batch, ws: seq<Write>)
    requires Unique(rows) && Sound(rows, b, ws)
    ensures Fits(rows, b, ws) <==> SlotsFree(rows, b, ws)
  {
    if SlotsFree(rows, b, ws) {
      forall w, r | w in ws && Adds(w) && r in rows && Live(r) && SlotOf(r) == SlotFor(b, w.candidate)
        ensures w.action == Replace(r.id)
      {
        var i :| 0 <= i < |rows| && rows[i] == r;
        assert HitsTarget(rows, b, w);
        var k :| Target(rows, b, w, k);
        TargetIsHolder(rows, b, w, k, i);
      }
    }
  }

  lemma NewRowFindsSlotFree(rows: seq<Item>, b: Batch, ws: seq<Write>, k: int, a: int)
    requires Fits(rows, b, ws)
    requires 0 <= k < |rows| && 0 <= a < |Added(b, ws)|
    requires SlotOf(rows[k]) == SlotOf(Added(b, ws)[a])
    ensures !Live(MarkSuperseded(rows, RetiredIds(ws), b.now)[k])
  {
    var w := AddedFrom(b, ws, a);
    if Live(rows[k]) {
      assert rows[k] in rows;
      assert Retires(w) && w.action.oldId in RetiredIds(ws);
    }
  }

  lemma FittingBatchKeepsApart(rows: seq<Item>, b: Batch, ws: seq<Write>, i: nat, j: nat)
    requires Unique(rows) && Fits(rows, b, ws) && SlotsDiffer(Added(b, ws))
    requires var final := MarkSuperseded(rows, RetiredIds(ws), b.now) + Added(b, ws);
             i < j < |final| && Live(final[i]) && Live(final[j])
    ensures var final := MarkSuperseded(rows, RetiredIds(ws), b.now) + Added(b, ws);
            SlotOf(final[i]) != SlotOf(final[j])
  {
    if i < |rows| {
      MarkedRow(rows, b, ws, i);
      if j < |rows| {
        MarkedRow(rows, b, ws, j);
      } else if SlotOf(rows[i]) == SlotOf(Added(b, ws)[j - |rows|]) {
        NewRowFindsSlotFree(rows, b, ws, i, j - |rows|);
      }
    }
  }

  lemma FittingBatchKeepsUnique(rows: seq<Item>, b: Batch, ws: seq<Write>)
    requires Unique(rows) && Fits(rows, b, ws) && OnlyRepeats(b, ws)
    ensures Unique(MarkSuperseded(rows, RetiredIds(ws), b.now) + Added(b, ws))
  {
    var final := MarkSuperseded(rows, RetiredIds(ws), b.now) + Added(b, ws);
    RepeatsKeepSlotsApart(b, ws);
    forall i, j | 0 <= i < j < |final| && Live(final[i]) && Live(final[j])
      ensures SlotOf(final[i]) != SlotOf(final[j])
    {
      FittingBatchKeepsApart(rows, b, ws, i, j);
    }
  }

  lemma AddedAreLive(rows: seq<Item>, b: Batch, ws: seq<Write>)
    requires Loose(rows, b, ws)
    ensures forall r | r in Added(b, ws) :: Live(r)
  {
    forall r | r in Added(b, ws)
      ensures Live(r)
    {
      var a :| 0 <= a < |Added(b, ws)| && Added(b, ws)[a] == r;
      var w := AddedFrom(b, ws, a);
      assert LooseWrite(rows, b, w);
    }
  }

  lemma UniqueMeansAddedApart(marked: seq<Item>, added: seq<Item>)
    requires Unique(marked + added) && forall r | r in added :: Live(r)
    ensures SlotsDiffer(added)
  {
    forall i, j | 0 <= i < j < |added|
      ensures SlotOf(added[i]) != SlotOf(added[j])
    {
      assert (marked + added)[|marked| + i] == added[i];
      assert (marked + added)[|marked| + j] == added[j];
    }
  }

  lemma HolderAndNewRowDiffer(marked: seq<Item>, added: seq<Item>, k: int, a: int)
    requires Unique(marked + added) && 0 <= k < |marked| && 0 <= a < |added| && Live(marked[k]) && Live(added[a])
    ensures SlotOf(marked[k]) != SlotOf(added[a])
  {
    assert (marked + added)[k] == marked[k] && (marked + added)[|marked| + a] == added[a];
  }

  lemma UniqueMeansFits(rows: seq<Item>, b: Batch, ws: seq<Write>)
    requires Identified(rows) && Loose(rows, b, ws)
    requires Unique(MarkSuperseded(rows, RetiredIds(ws), b.now) + Added(b, ws))
    ensures Fits(rows, b, ws)
  {
    var marked, added := MarkSuperseded(rows, RetiredIds(ws), b.now), Added(b, ws);
    AddedAreLive(rows, b, ws);
    forall w, r | w in ws && Adds(w) && r in rows && Live(r) && SlotOf(r) == SlotFor(b, w.candidate)
      ensures w.action == Replace(r.id)
    {
      var k :| 0 <= k < |rows| && rows[k] == r;
      MarkedRow(rows, b, ws, k);
      if w.action != Replace(r.id) {
        HolderNotRetired(rows, b, ws, w, k);
        var a := AddedCovers(b, ws, w);
        HolderAndNewRowDiffer(marked, added, k, a);
      }
    }
  }

  /** Unless a slot's new item replaces its holder, nothing in the batch retires the holder. */
  lemma HolderNotRetired(rows: seq<Item>, b: Batch, ws: seq<Write>, w: Write, k: int)
    requires Identified(rows) && Loose(rows, b, ws)
    requires w in ws && Adds(w) && 0 <= k < |rows| && SlotOf(rows[k]) == SlotFor(b, w.candidate)
    requires w.action != Replace(rows[k].id)
    ensures rows[k].id !in RetiredIds(ws)
  {
    if rows[k].id in RetiredIds(ws) {
      var v := RetiredBy(ws, rows[k].id);
      assert LooseWrite(rows, b, v);
      var t :| LooseTarget(rows, b, v, t);
      DisagreeingKeepApart(rows, b, ws, v, w);
    }
  }

  lemma DisagreeingKeepApart(rows: seq<Item>, b: Batch, ws: seq<Write>, v: Write, w: Write)
    requires Loose(rows, b, ws) && v in ws && w in ws && Retires(v) && Adds(w) && w.action != Replace(v.action.oldId)
    ensures SlotFor(b, v.candidate) != SlotFor(b, w.candidate)
  {
    assert !SameSlotWrites(b, v, w);
  }

  /**
   Writes planned on this or an earlier state keep slots unique exactly when the slots fit and
   no slot is written twice.
   */
  lemma LooseWritesKeepSlotsUniqueIff(rows: seq<Item>, b: Batch, ws: seq<Write>)
    requires Identified(rows) && Keyed(rows) && Unique(rows) && Loose(rows, b, ws)
    ensures Unique(ExecuteAll(rows, b, ws)) <==> Fits(rows, b, ws) && OnlyRepeats(b, ws)
  {
    LooseIsNew(rows, b, ws);
    BatchShape(rows, b, ws);
    if Fits(rows, b, ws) && OnlyRepeats(b, ws) {
      FittingBatchKeepsUnique(rows, b, ws);
    }
    if Unique(ExecuteAll(rows, b, ws)) {
      AddedAreLive(rows, b, ws);
      UniqueMeansAddedApart(MarkSuperseded(rows, RetiredIds(ws), b.now), Added(b, ws));
      SlotsApartMeansRepeats(b, ws);
      UniqueMeansFits(rows, b, ws);
    }
  }

  lemma WritesKeepSlotsUniqueIff(rows: seq<Item>, b: Batch, ws: seq<Write>)
    requires Identified(rows) && Keyed(rows) && Unique(rows) && Sound(rows, b, ws)
    ensures Unique(ExecuteAll(rows, b, ws)) <==> Clear(rows, b, ws)
  {
    LooseWritesKeepSlotsUniqueIff(rows, b, ws);
    FitsIffFree(rows, b, ws);
  }

  /**
   A batch of a new run keeps every slot at one live item exactly when each item
   it creates finds its slot free and no slot is written twice with different
   content, wherever its writes fail.
   */
  lemma BatchKeepsSlotsUniqueIff(rows: seq<Item>, b: Batch, candidates: seq<WriteCandidate>, ids: seq<string>, faults: seq<Fault>)
    requires Identified(rows) && Keyed(rows) && Unique(rows) && Admissible(rows, b, candidates, ids) && |faults| == |candidates|
    ensures var ws := WithFaults(Planned(rows, b, candidates, ids), faults);
            Unique(ExecuteAll(rows, b, ws)) <==> Clear(rows, b, ws)
  {
    PlannedIsSound(rows, b, candidates, ids);
    FaultsKeepSound(rows, b, Planned(rows, b, candidates, ids), faults);
    WritesKeepSlotsUniqueIff(rows, b, WithFaults(Planned(rows, b, candidates, ids), faults));
  }

  /**
   The items a batch is judged against are read before its transaction begins. If
   other writers commit in between, slots stay unique exactly when what is then
   live in a slot that gets a new item is still the row this item replaces, and no
   slot is written twice with different content.
   */
  lemma BatchOnOldViewKeepsSlotsUniqueIff(
      before: seq<Item>, rows: seq<Item>, b: Batch, candidates: seq<WriteCandidate>, ids: seq<string>, faults: seq<Fault>)
    requires Evolved(before, rows) && Identified(rows) && Keyed(rows) && Unique(rows)
    requires Admissible(rows, b, candidates, ids) && |faults| == |candidates|
    ensures var ws := WithFaults(Planned(before, b, candidates, ids), faults);
            Unique(ExecuteAll(rows, b, ws)) <==> Fits(rows, b, ws) && OnlyRepeats(b, ws)
  {
    PlannedEarlierIsLoose(before, rows, b, candidates, ids);
    FaultsKeepLoose(rows, b, Planned(before, b, candidates, ids), faults);
    LooseWritesKeepSlotsUniqueIff(rows, b, WithFaults(Planned(before, b, candidates, ids), faults));
  }

  ghost predicate SlotsOfCandidatesDiffer(candidates: seq<WriteCandidate>) {
    forall i, j | 0 <= i < j < |candidates| ::
      candidates[i].memoryType != candidates[j].memoryType || candidates[i].memoryKey != candidates[j].memoryKey
  }

  /** Candidates for different slots, judged with the whole session in view, never clash. */
  lemma DistinctVisibleBatchIsClear(rows: seq<Item>, b: Batch, candidates: seq<WriteCandidate>, ids: seq<string>, faults: seq<Fault>)
    requires |ids| == |candidates| == |faults| && SlotsOfCandidatesDiffer(candidates)
    requires |Matching(rows, b.sessionId, None, "")| <= VISIBLE
    ensures Clear(rows, b, WithFaults(Planned(rows, b, candidates, ids), faults))
  {
    var existing := Query(rows, b.sessionId, None, "", VISIBLE);
    var planned := Planned(rows, b, candidates, ids);
    var ws := WithFaults(planned, faults);
    QueryMembers(rows, b.sessionId, None, "", VISIBLE);
    forall w, r | w in ws && w.action.MakeItem? && r in rows && Live(r)
      ensures SlotOf(r) != SlotFor(b, w.candidate)
    {
      var i :| 0 <= i < |ws| && ws[i] == w;
      assert ws[i] == planned[i];
      GateReplacesUpwards(w.candidate, existing);
      assert r.sessionId == b.sessionId ==> Matches(r, b.sessionId, None, "");
    }
    assert forall i | 0 <= i < |ws| :: ws[i].candidate == candidates[i];
  }
}
