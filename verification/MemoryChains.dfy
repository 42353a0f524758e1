/**
 Supersede chains: every batch and every expiry sweep keeps the links between
 replaced rows and their replacements a set of disjoint upward chains.
 */
module MemoryChains {
  import opened Common
  import opened WriteGate
  import opened MemoryItems
  import opened MemorySlots

  ghost function After(rows: seq<Item>, b: Batch, ws: seq<Write>): seq<Item> {
    MarkSuperseded(rows, RetiredIds(ws), b.now) + Added(b, ws)
  }

  // ---- identity and keys ---------------------------------------------------------------

  lemma {:induction false} AddedIdsDiffer(b: Batch, ws: seq<Write>)
    requires forall i, j | 0 <= i < j < |ws| :: ws[i].id != ws[j].id
    ensures forall i, j | 0 <= i < j < |Added(b, ws)| :: Added(b, ws)[i].id != Added(b, ws)[j].id
  {
    if ws != [] {
      AddedIdsDiffer(b, Init(ws));
      forall a | 0 <= a < |Added(b, Init(ws))|
        ensures Added(b, Init(ws))[a].id != Last(ws).id
      {
        var w := AddedFrom(b, Init(ws), a);
        var i :| 0 <= i < |Init(ws)| && Init(ws)[i] == w;
        assert ws[i].id != ws[|ws| - 1].id;
      }
    }
  }

  lemma BatchKeepsIdsApart(rows: seq<Item>, b: Batch, ws: seq<Write>, i: nat, j: nat)
    requires Identified(rows) && NewTo(rows, b, ws) && Loose(rows, b, ws)
    requires i < j < |After(rows, b, ws)|
    ensures After(rows, b, ws)[i].id != After(rows, b, ws)[j].id
  {
    if j < |rows| {
    } else if i < |rows| {
      AddedIdsAreNew(rows, b, ws);
      assert rows[i] in rows && Added(b, ws)[j - |rows|] in Added(b, ws);
    } else {
      AddedIdsDiffer(b, ws);
    }
  }

  lemma BatchKeepsIdentified(rows: seq<Item>, b: Batch, ws: seq<Write>)
    requires Identified(rows) && NewTo(rows, b, ws) && Loose(rows, b, ws)
    ensures Identified(After(rows, b, ws))
  {
    var final := After(rows, b, ws);
    forall i, j | 0 <= i < j < |final|
      ensures final[i].id != final[j].id
    {
      BatchKeepsIdsApart(rows, b, ws, i, j);
    }
    forall r | r in final
      ensures r.id != ""
    {
      var i :| 0 <= i < |final| && final[i] == r;
      BatchKeepsIdsNonempty(rows, b, ws, i);
    }
  }

  lemma BatchKeepsIdsNonempty(rows: seq<Item>, b: Batch, ws: seq<Write>, i: nat)
    requires Identified(rows) && Loose(rows, b, ws) && i < |After(rows, b, ws)|
    ensures After(rows, b, ws)[i].id != ""
  {
    if i < |rows| {
      assert rows[i] in rows;
    } else {
      var w := AddedFrom(b, ws, i - |rows|);
      assert LooseWrite(rows, b, w);
    }
  }

  lemma BatchKeepsKeyed(rows: seq<Item>, b: Batch, ws: seq<Write>)
    requires Keyed(rows)
    ensures Keyed(After(rows, b, ws))
  {
    var final := After(rows, b, ws);
    forall r | r in final
      ensures r.dedupKey == DedupOf(SlotOf(r), r.value, r.runId, r.messageId)
    {
      var i :| 0 <= i < |final| && final[i] == r;
      if i < |rows| {
        assert rows[i] in rows;
      } else {
        var w := AddedFrom(b, ws, i - |rows|);
      }
    }
  }

  // ---- links ---------------------------------------------------------------------------

  /** A link to an appended row comes from the live row that row replaced. */
  lemma NewLink(rows: seq<Item>, b: Batch, ws: seq<Write>, i: int, j: int) returns (w: Write)
    requires Identified(rows) && NewTo(rows, b, ws) && Loose(rows, b, ws)
    requires Names(After(rows, b, ws), i, j) && |rows| <= j
    ensures w in ws && Adds(w) && Added(b, ws)[j - |rows|] == RowFor(b, w)
    ensures 0 <= i < |rows| && LooseTarget(rows, b, w, i)
  {
    w := AddedFrom(b, ws, j - |rows|);
    var k := NewLinkTarget(rows, b, ws, i, j, w);
    if i < k {
      BatchKeepsIdsApart(rows, b, ws, i, k);
    } else if k < i {
      BatchKeepsIdsApart(rows, b, ws, k, i);
    }
  }

  lemma NewLinkTarget(rows: seq<Item>, b: Batch, ws: seq<Write>, i: int, j: int, w: Write) returns (k: int)
    requires Identified(rows) && Loose(rows, b, ws)
    requires Names(After(rows, b, ws), i, j) && |rows| <= j
    requires w in ws && Adds(w) && Added(b, ws)[j - |rows|] == RowFor(b, w)
    ensures LooseTarget(rows, b, w, k) && Names(After(rows, b, ws), k, j)
  {
    assert LooseWrite(rows, b, w);
    BatchKeepsIdsNonempty(rows, b, ws, i);
    assert w.action.Replace?;
    k :| LooseTarget(rows, b, w, k);
    MarkedRow(rows, b, ws, k);
  }

  lemma OldLink(rows: seq<Item>, b: Batch, ws: seq<Write>, i: int, j: int)
    requires Identified(rows) && NewTo(rows, b, ws) && Loose(rows, b, ws) && LinksResolve(rows)
    requires Names(After(rows, b, ws), i, j) && j < |rows|
    ensures Names(rows, i, j)
  {
    var final := After(rows, b, ws);
    BatchKeepsIdentified(rows, b, ws);
    assert final[i] in final;
    MarkedRow(rows, b, ws, j);
    var k :| Names(rows, k, j);
    MarkedRow(rows, b, ws, k);
    assert final[k].id == final[i].id;
  }

  lemma LinkAfterIsUpward(rows: seq<Item>, b: Batch, ws: seq<Write>, i: int, j: int)
    requires Identified(rows) && NewTo(rows, b, ws) && Loose(rows, b, ws) && Linking(rows)
    requires Names(After(rows, b, ws), i, j)
    ensures var final := After(rows, b, ws);
            i < j && final[i].status == Superseded && SlotOf(final[i]) == SlotOf(final[j]) && Outranks(final[j], final[i])
  {
    if j < |rows| {
      OldLink(rows, b, ws, i, j);
      MarkedRow(rows, b, ws, i);
      MarkedRow(rows, b, ws, j);
    } else {
      NewLinkIsUpward(rows, b, ws, i, j);
    }
  }

  lemma NewLinkIsUpward(rows: seq<Item>, b: Batch, ws: seq<Write>, i: int, j: int)
    requires Identified(rows) && NewTo(rows, b, ws) && Loose(rows, b, ws)
    requires Names(After(rows, b, ws), i, j) && |rows| <= j
    ensures var final := After(rows, b, ws);
            i < j && final[i].status == Superseded && SlotOf(final[i]) == SlotOf(final[j]) && Outranks(final[j], final[i])
  {
    var w := NewLink(rows, b, ws, i, j);
    MarkedRow(rows, b, ws, i);
    assert rows[i].id in RetiredIds(ws);
    assert After(rows, b, ws)[j] == RowFor(b, w);
  }

  lemma BatchKeepsLinksUpward(rows: seq<Item>, b: Batch, ws: seq<Write>)
    requires Identified(rows) && NewTo(rows, b, ws) && Loose(rows, b, ws) && Linking(rows)
    ensures LinksUpward(After(rows, b, ws))
  {
    var final := After(rows, b, ws);
    forall i, j | Names(final, i, j)
      ensures i < j && final[i].status == Superseded && SlotOf(final[i]) == SlotOf(final[j]) && Outranks(final[j], final[i])
    {
      LinkAfterIsUpward(rows, b, ws, i, j);
    }
  }

  lemma BatchKeepsNamedOnce(rows: seq<Item>, b: Batch, ws: seq<Write>)
    requires Identified(rows) && NewTo(rows, b, ws) && Loose(rows, b, ws) && Linking(rows) && OnlyRepeats(b, ws) && Unnamed(rows, ws)
    ensures NamedOnce(After(rows, b, ws))
  {
    var final := After(rows, b, ws);
    RepeatsKeepSlotsApart(b, ws);
    forall i, j, k | Names(final, i, j) && Names(final, i, k)
      ensures j == k
    {
      if j < |rows| && k < |rows| {
        OldLink(rows, b, ws, i, j);
        OldLink(rows, b, ws, i, k);
      } else if j < |rows| {
        OldNameExcludesNew(rows, b, ws, i, j, k);
      } else if k < |rows| {
        OldNameExcludesNew(rows, b, ws, i, k, j);
      } else {
        var v := NewLink(rows, b, ws, i, j);
        var w := NewLink(rows, b, ws, i, k);
        assert SlotOf(Added(b, ws)[j - |rows|]) == SlotOf(Added(b, ws)[k - |rows|]);
      }
    }
  }

  lemma OldNameExcludesNew(rows: seq<Item>, b: Batch, ws: seq<Write>, i: int, j: int, k: int)
    requires Identified(rows) && NewTo(rows, b, ws) && Loose(rows, b, ws) && Linking(rows) && Unnamed(rows, ws)
    requires Names(After(rows, b, ws), i, j) && Names(After(rows, b, ws), i, k)
    ensures !(j < |rows| <= k)
  {
    if j < |rows| <= k {
      var w := NewLink(rows, b, ws, i, k);
      OldLink(rows, b, ws, i, j);
    }
  }

  lemma TwiceNamed(rows: seq<Item>, b: Batch, ws: seq<Write>, w: Write, j: int) returns (i: int, k: int)
    requires Loose(rows, b, ws) && w in ws && w.action.Replace?
    requires 0 <= j < |rows| && rows[j].supersedesId == w.action.oldId
    ensures Names(After(rows, b, ws), i, j) && Names(After(rows, b, ws), i, k) && j < |rows| <= k
  {
    assert LooseWrite(rows, b, w);
    i :| LooseTarget(rows, b, w, i);
    k := ReplacedIsNamed(rows, b, ws, i, w);
    MarkedRow(rows, b, ws, i);
    MarkedRow(rows, b, ws, j);
  }

  /**
   A batch that writes no slot twice keeps every row named by at most one replacement
   exactly when none of the rows it replaces was replaced before.
   */
  lemma BatchNamesOnceIff(rows: seq<Item>, b: Batch, ws: seq<Write>)
    requires Base(rows) && Loose(rows, b, ws) && OnlyRepeats(b, ws)
    ensures NamedOnce(ExecuteAll(rows, b, ws)) <==> Unnamed(rows, ws)
  {
    LooseIsNew(rows, b, ws);
    BatchShape(rows, b, ws);
    if Unnamed(rows, ws) {
      BatchKeepsNamedOnce(rows, b, ws);
    } else {
      var w, j :| w in ws && w.action.Replace? && 0 <= j < |rows| && rows[j].supersedesId == w.action.oldId;
      var i, k := TwiceNamed(rows, b, ws, w, j);
    }
  }

  lemma AppendedIsLive(rows: seq<Item>, b: Batch, ws: seq<Write>, i: int)
    requires Loose(rows, b, ws) && |rows| <= i < |After(rows, b, ws)|
    ensures Live(After(rows, b, ws)[i])
  {
    AddedAreLive(rows, b, ws);
    assert Added(b, ws)[i - |rows|] in Added(b, ws);
  }

  /** Every row that a failing replacement marked is replaced by another write of the batch. */
  ghost predicate Mended(ws: seq<Write>) {
    forall w | w in ws && w.action.MarkOnly? :: exists v :: v in ws && v.action == Replace(w.action.oldId)
  }

  lemma BatchKeepsSupersededNamed(rows: seq<Item>, b: Batch, ws: seq<Write>)
    requires Identified(rows) && NewTo(rows, b, ws) && Loose(rows, b, ws) && SupersededAreNamed(rows) && Mended(ws)
    ensures SupersededAreNamed(After(rows, b, ws))
  {
    var final := After(rows, b, ws);
    forall i | 0 <= i < |final| && final[i].status == Superseded
      ensures exists j :: Names(final, i, j)
    {
      if |rows| <= i {
        AppendedIsLive(rows, b, ws, i);
      } else {
        MarkedRow(rows, b, ws, i);
        if rows[i].id in RetiredIds(ws) {
          var j := RetiredIsNamed(rows, b, ws, i);
        } else {
          var j :| Names(rows, i, j);
          MarkedRow(rows, b, ws, j);
          assert Names(final, i, j);
        }
      }
    }
  }

  lemma RetiredIsNamed(rows: seq<Item>, b: Batch, ws: seq<Write>, i: int) returns (j: int)
    requires Identified(rows) && NewTo(rows, b, ws) && Loose(rows, b, ws) && Mended(ws)
    requires 0 <= i < |rows| && rows[i].id in RetiredIds(ws)
    ensures |rows| <= j && Names(After(rows, b, ws), i, j)
  {
    var w := RetiredBy(ws, rows[i].id);
    if w.action.MarkOnly? {
      w :| w in ws && w.action == Replace(rows[i].id);
    }
    j := ReplacedIsNamed(rows, b, ws, i, w);
  }

  lemma ReplacedIsNamed(rows: seq<Item>, b: Batch, ws: seq<Write>, i: int, w: Write) returns (j: int)
    requires Loose(rows, b, ws) && 0 <= i < |rows| && w in ws && w.action == Replace(rows[i].id)
    ensures |rows| <= j && Names(After(rows, b, ws), i, j)
  {
    var a := AddedCovers(b, ws, w);
    var v := AddedFrom(b, ws, a);
    SameTarget(rows, b, ws, v, w);
    MarkedRow(rows, b, ws, i);
    j := |rows| + a;
    assert After(rows, b, ws)[j] == Added(b, ws)[a];
  }

  /** An added row of a slot in which the batch retires something replaces just that. */
  lemma SameTarget(rows: seq<Item>, b: Batch, ws: seq<Write>, v: Write, w: Write)
    requires Loose(rows, b, ws) && v in ws && w in ws && Adds(v) && Retires(w)
    requires SlotFor(b, v.candidate) == SlotFor(b, w.candidate)
    ensures v.action == Replace(w.action.oldId)
  {
    assert SameSlotWrites(b, v, w);
  }

  lemma BatchKeepsLinksResolve(rows: seq<Item>, b: Batch, ws: seq<Write>)
    requires Loose(rows, b, ws) && LinksResolve(rows)
    ensures LinksResolve(After(rows, b, ws))
  {
    var final := After(rows, b, ws);
    forall j | 0 <= j < |final| && final[j].supersedesId != ""
      ensures exists i :: Names(final, i, j)
    {
      if j < |rows| {
        MarkedRow(rows, b, ws, j);
        var i :| Names(rows, i, j);
        MarkedRow(rows, b, ws, i);
        assert Names(final, i, j);
      } else {
        var k := NewRowResolves(rows, b, ws, j);
      }
    }
  }

  lemma NewRowResolves(rows: seq<Item>, b: Batch, ws: seq<Write>, j: nat) returns (k: int)
    requires Loose(rows, b, ws) && |rows| <= j < |After(rows, b, ws)| && After(rows, b, ws)[j].supersedesId != ""
    ensures Names(After(rows, b, ws), k, j)
  {
    var w := AddedFrom(b, ws, j - |rows|);
    assert LooseWrite(rows, b, w);
    k :| LooseTarget(rows, b, w, k);
    MarkedRow(rows, b, ws, k);
  }

  // ---- batches that land cleanly -----------------------------------------------------------

  /** No row that the batch replaces was replaced before. */
  ghost predicate Unnamed(rows: seq<Item>, ws: seq<Write>) {
    forall w, j | w in ws && w.action.Replace? && 0 <= j < |rows| :: rows[j].supersedesId != w.action.oldId
  }

  /**
   Whatever others committed since the batch was judged: what is live in a slot that
   gets a new item is still the row this item replaces, that row was not replaced
   before, and no slot is written twice with different content.
   */
  ghost predicate LandsCleanly(rows: seq<Item>, b: Batch, ws: seq<Write>) {
    Fits(rows, b, ws) && OnlyRepeats(b, ws) && Unnamed(rows, ws)
  }

  /** Writes judged on the table itself never replace a row a second time. */
  lemma SoundIsUnnamed(rows: seq<Item>, b: Batch, ws: seq<Write>)
    requires Identified(rows) && LinksUpward(rows) && Sound(rows, b, ws)
    ensures Unnamed(rows, ws)
  {
    forall w, j | w in ws && w.action.Replace? && 0 <= j < |rows|
      ensures rows[j].supersedesId != w.action.oldId
    {
      assert HitsTarget(rows, b, w);
      var k :| Target(rows, b, w, k);
      assert Names(rows, k, j) <==> rows[j].supersedesId == w.action.oldId;
    }
  }

  lemma SoundLandsCleanlyIffClear(rows: seq<Item>, b: Batch, ws: seq<Write>)
    requires Base(rows) && Sound(rows, b, ws)
    ensures LandsCleanly(rows, b, ws) <==> Clear(rows, b, ws)
  {
    FitsIffFree(rows, b, ws);
    SoundIsUnnamed(rows, b, ws);
  }

  /** Whatever fails on the way, a batch that lands cleanly keeps all but the names of superseded rows. */
  lemma CleanWritesKeepBase(rows: seq<Item>, b: Batch, ws: seq<Write>)
    requires Base(rows) && Loose(rows, b, ws) && LandsCleanly(rows, b, ws)
    ensures Base(ExecuteAll(rows, b, ws))
  {
    LooseIsNew(rows, b, ws);
    BatchShape(rows, b, ws);
    LooseWritesKeepSlotsUniqueIff(rows, b, ws);
    BatchKeepsIdentified(rows, b, ws);
    BatchKeepsKeyed(rows, b, ws);
    BatchKeepsLinksUpward(rows, b, ws);
    BatchKeepsNamedOnce(rows, b, ws);
    BatchKeepsLinksResolve(rows, b, ws);
  }

  /** Landing cleanly is just what it takes. */
  lemma WritesKeepBaseIffClean(rows: seq<Item>, b: Batch, ws: seq<Write>)
    requires Base(rows) && Loose(rows, b, ws)
    ensures Base(ExecuteAll(rows, b, ws)) <==> LandsCleanly(rows, b, ws)
  {
    LooseWritesKeepSlotsUniqueIff(rows, b, ws);
    if Fits(rows, b, ws) && OnlyRepeats(b, ws) {
      BatchNamesOnceIff(rows, b, ws);
    }
    if LandsCleanly(rows, b, ws) {
      CleanWritesKeepBase(rows, b, ws);
    }
  }

  lemma CleanWritesKeepInv(rows: seq<Item>, b: Batch, ws: seq<Write>)
    requires Inv(rows) && Loose(rows, b, ws) && LandsCleanly(rows, b, ws) && Mended(ws)
    ensures Inv(ExecuteAll(rows, b, ws))
  {
    CleanWritesKeepBase(rows, b, ws);
    LooseIsNew(rows, b, ws);
    BatchShape(rows, b, ws);
    BatchKeepsSupersededNamed(rows, b, ws);
  }

  // ---- replacements that fail midway -------------------------------------------------------

  predicate Held(rows: seq<Item>, slot: Slot) {
    exists r | r in rows :: Live(r) && SlotOf(r) == slot
  }

  ghost predicate StillHeld(before: seq<Item>, after: seq<Item>) {
    forall slot | Held(before, slot) :: Held(after, slot)
  }

  lemma ReplacementIsLive(rows: seq<Item>, b: Batch, ws: seq<Write>, i: int, j: int)
    requires Identified(rows) && NewTo(rows, b, ws) && Loose(rows, b, ws) && Linking(rows)
    requires |rows| <= j && Names(After(rows, b, ws), i, j)
    ensures Live(After(rows, b, ws)[j]) && SlotOf(After(rows, b, ws)[j]) == SlotOf(After(rows, b, ws)[i])
  {
    AppendedIsLive(rows, b, ws, j);
    BatchKeepsLinksUpward(rows, b, ws);
  }

  lemma MendedBatchKeepsSlotsHeld(rows: seq<Item>, b: Batch, ws: seq<Write>)
    requires Identified(rows) && NewTo(rows, b, ws) && Loose(rows, b, ws) && Linking(rows) && Mended(ws)
    ensures StillHeld(rows, After(rows, b, ws))
  {
    var after := After(rows, b, ws);
    forall slot | Held(rows, slot)
      ensures Held(after, slot)
    {
      var k :| 0 <= k < |rows| && Live(rows[k]) && SlotOf(rows[k]) == slot;
      MarkedRow(rows, b, ws, k);
      if rows[k].id in RetiredIds(ws) {
        var j := RetiredIsNamed(rows, b, ws, k);
        ReplacementIsLive(rows, b, ws, k, j);
        assert after[j] in after;
      } else {
        assert after[k] in after;
      }
    }
  }

  /** A row that a failing replacement marked, and no other write replaces, has no successor and leaves its slot empty. */
  lemma AbandonedRow(rows: seq<Item>, b: Batch, ws: seq<Write>, w: Write) returns (k: int)
    requires Base(rows) && NewTo(rows, b, ws) && Sound(rows, b, ws)
    requires w in ws && w.action.MarkOnly? && !exists v :: v in ws && v.action == Replace(w.action.oldId)
    ensures 0 <= k < |rows| && Live(rows[k]) && After(rows, b, ws)[k].status == Superseded
    ensures !exists j :: Names(After(rows, b, ws), k, j)
    ensures !Held(After(rows, b, ws), SlotOf(rows[k]))
  {
    assert HitsTarget(rows, b, w);
    k :| Target(rows, b, w, k);
    MarkedRow(rows, b, ws, k);
    assert w.action.oldId in RetiredIds(ws);
    if j :| Names(After(rows, b, ws), k, j) {
      AbandonedIsNotNamed(rows, b, ws, w, k, j);
    }
    if Held(After(rows, b, ws), SlotOf(rows[k])) {
      var i :| 0 <= i < |After(rows, b, ws)| && Live(After(rows, b, ws)[i]) && SlotOf(After(rows, b, ws)[i]) == SlotOf(rows[k]);
      AbandonedSlotIsEmpty(rows, b, ws, w, k, i);
    }
  }

  lemma AbandonedIsNotNamed(rows: seq<Item>, b: Batch, ws: seq<Write>, w: Write, k: int, j: int)
    requires Base(rows) && NewTo(rows, b, ws) && Sound(rows, b, ws)
    requires w in ws && Target(rows, b, w, k) && !exists v :: v in ws && v.action == Replace(w.action.oldId)
    ensures !Names(After(rows, b, ws), k, j)
  {
    if Names(After(rows, b, ws), k, j) {
      if j < |rows| {
        OldLink(rows, b, ws, k, j);
      } else {
        var v := NewLink(rows, b, ws, k, j);
      }
    }
  }

  lemma AbandonedSlotIsEmpty(rows: seq<Item>, b: Batch, ws: seq<Write>, w: Write, k: int, i: int)
    requires Base(rows) && Loose(rows, b, ws)
    requires w in ws && Target(rows, b, w, k) && !exists v :: v in ws && v.action == Replace(w.action.oldId)
    requires 0 <= i < |After(rows, b, ws)| && SlotOf(After(rows, b, ws)[i]) == SlotOf(rows[k])
    ensures !Live(After(rows, b, ws)[i])
  {
    if i < |rows| {
      MarkedRow(rows, b, ws, i);
      assert w.action.oldId in RetiredIds(ws);
      OtherRowsOfSlotAreDead(rows, k, i);
    } else {
      var v := AddedFrom(b, ws, i - |rows|);
      SameTarget(rows, b, ws, v, w);
    }
  }

  lemma OtherRowsOfSlotAreDead(rows: seq<Item>, k: int, i: int)
    requires Unique(rows) && 0 <= k < |rows| && Live(rows[k]) && 0 <= i < |rows| && SlotOf(rows[i]) == SlotOf(rows[k])
    ensures i == k || !Live(rows[i])
  {
  }

  /**
   After a clear batch every superseded row is still named by its replacement, and
   every occupied slot is still occupied, exactly when no replacement failed midway
   without another write of the batch making up for it.
   */
  lemma SlotsSurviveIffMended(rows: seq<Item>, b: Batch, ws: seq<Write>)
    requires Inv(rows) && Sound(rows, b, ws) && Clear(rows, b, ws)
    ensures SupersededAreNamed(ExecuteAll(rows, b, ws)) <==> Mended(ws)
    ensures StillHeld(rows, ExecuteAll(rows, b, ws)) <==> Mended(ws)
  {
    LooseIsNew(rows, b, ws);
    BatchShape(rows, b, ws);
    if Mended(ws) {
      BatchKeepsSupersededNamed(rows, b, ws);
      MendedBatchKeepsSlotsHeld(rows, b, ws);
    } else {
      var w :| w in ws && w.action.MarkOnly? && !exists v :: v in ws && v.action == Replace(w.action.oldId);
      var k := AbandonedRow(rows, b, ws, w);
      assert rows[k] in rows;
      assert Held(rows, SlotOf(rows[k]));
    }
  }

  // ---- expiry ----------------------------------------------------------------------------

  lemma ExpiredRow(rows: seq<Item>, session: Option<string>, clock: string, now: int, k: int)
    requires 0 <= k < |rows|
    ensures var r := ExpireDue(rows, session, clock, now)[k];
            && r.id == rows[k].id && SlotOf(r) == SlotOf(rows[k]) && r.supersedesId == rows[k].supersedesId
            && r.dedupKey == rows[k].dedupKey && r.value == rows[k].value && r.runId == rows[k].runId
            && r.messageId == rows[k].messageId && Outranks(r, r) == Outranks(rows[k], rows[k])
            && r.authority == rows[k].authority
            && (Live(r) ==> r == rows[k]) && (r.status == Superseded <==> rows[k].status == Superseded)
  {
  }

  lemma ExpiryKeepsNames(rows: seq<Item>, session: Option<string>, clock: string, now: int, i: int, j: int)
    ensures Names(ExpireDue(rows, session, clock, now), i, j) == Names(rows, i, j)
  {
    if 0 <= i < |rows| && 0 <= j < |rows| {
      ExpiredRow(rows, session, clock, now, i);
      ExpiredRow(rows, session, clock, now, j);
    }
  }

  lemma ExpiryKeepsLinking(rows: seq<Item>, session: Option<string>, clock: string, now: int)
    requires Linking(rows)
    ensures Linking(ExpireDue(rows, session, clock, now))
    ensures SupersededAreNamed(rows) ==> SupersededAreNamed(ExpireDue(rows, session, clock, now))
  {
    var swept := ExpireDue(rows, session, clock, now);
    forall i, j
      ensures Names(swept, i, j) == Names(rows, i, j)
    {
      ExpiryKeepsNames(rows, session, clock, now, i, j);
    }
    forall i | 0 <= i < |swept| && swept[i].status == Superseded && SupersededAreNamed(rows)
      ensures exists j :: Names(swept, i, j)
    {
      var j :| Names(rows, i, j);
      assert Names(swept, i, j);
    }
    forall j | 0 <= j < |swept| && swept[j].supersedesId != ""
      ensures exists i :: Names(swept, i, j)
    {
      var i :| Names(rows, i, j);
      assert Names(swept, i, j);
    }
  }

  lemma ExpiryKeepsIdentified(rows: seq<Item>, session: Option<string>, clock: string, now: int)
    requires Identified(rows) && Keyed(rows)
    ensures Identified(ExpireDue(rows, session, clock, now)) && Keyed(ExpireDue(rows, session, clock, now))
  {
    var swept := ExpireDue(rows, session, clock, now);
    forall r | r in swept
      ensures r.dedupKey == DedupOf(SlotOf(r), r.value, r.runId, r.messageId) && r.id != ""
    {
      var i :| 0 <= i < |swept| && swept[i] == r;
      assert rows[i] in rows;
      ExpiredRow(rows, session, clock, now, i);
    }
  }

  lemma ExpiryKeepsUnique(rows: seq<Item>, session: Option<string>, clock: string, now: int)
    requires Unique(rows)
    ensures Unique(ExpireDue(rows, session, clock, now))
  {
    var swept := ExpireDue(rows, session, clock, now);
    forall i, j | 0 <= i < j < |swept| && Live(swept[i]) && Live(swept[j])
      ensures SlotOf(swept[i]) != SlotOf(swept[j])
    {
      ExpiredRow(rows, session, clock, now, i);
      ExpiredRow(rows, session, clock, now, j);
    }
  }

  lemma ExpiryKeepsBase(rows: seq<Item>, session: Option<string>, clock: string, now: int)
    requires Base(rows)
    ensures Base(ExpireDue(rows, session, clock, now))
  {
    ExpiryKeepsIdentified(rows, session, clock, now);
    ExpiryKeepsUnique(rows, session, clock, now);
    ExpiryKeepsLinking(rows, session, clock, now);
  }

  lemma ExpiryKeepsInv(rows: seq<Item>, session: Option<string>, clock: string, now: int)
    requires Inv(rows)
    ensures Inv(ExpireDue(rows, session, clock, now))
  {
    ExpiryKeepsBase(rows, session, clock, now);
    ExpiryKeepsLinking(rows, session, clock, now);
  }

  /** A sweep empties a slot exactly when the slot's item is in its scope and due. */
  lemma SweepEmptiesSlotIff(rows: seq<Item>, session: Option<string>, clock: string, now: int, k: nat)
    requires Unique(rows) && k < |rows| && Live(rows[k])
    ensures Held(ExpireDue(rows, session, clock, now), SlotOf(rows[k])) <==> !(InScope(rows[k], session) && Due(rows[k], clock))
  {
    var swept := ExpireDue(rows, session, clock, now);
    assert swept[k] in swept;
    if Held(swept, SlotOf(rows[k])) {
      var i :| 0 <= i < |swept| && Live(swept[i]) && SlotOf(swept[i]) == SlotOf(rows[k]);
      ExpiredRow(rows, session, clock, now, i);
      OtherRowsOfSlotAreDead(rows, k, i);
    }
  }
}
