/**
 What can ever be stored: the gate's rules, together with the fixed form of user
 corrections, hold for every row of every history.
 */
module MemoryContent {
  import opened Common
  import opened Projections
  import opened WriteGate
  import opened MemoryItems
  import opened MemorySlots
  import opened MemoryChains
  import opened MemoryRuns
  import R = Recall

  predicate Static(value: Fields) {
    forall f | f in DYNAMIC_FIELDS :: f !in value
  }

  /**
   No dynamic field anywhere; decisions only from human review; fusion never states facts;
   proposals never start confirmed.
   */
  predicate Vetted(memoryType: MemoryType, source: SourceType, value: Fields) {
    && Static(value)
    && (memoryType == ConfirmedDecision ==> source == HumanReview)
    && (source == AgentFusion ==> memoryType == RunSummary || memoryType == UnresolvedIssue)
    && (source == AgentProposal ==> memoryType != StableFact && memoryType != Constraint && memoryType != SessionGoal)
  }

  /**
   Two rule tables meet: one allows fusion to state decisions and facts, the other
   refuses it, so what passes is stricter than either.
   */
  lemma GateAdmitsOnlyVetted(c: WriteCandidate, existing: seq<Item>)
    ensures Decide(c, existing).Create? || Decide(c, existing).Supersede? ==>
              Vetted(c.memoryType, c.source, c.value) && (c.source == AgentProposal ==> c.status != Confirmed)
  {
  }

  lemma CorrectionFieldsAreStatic(a: Json, b: Json)
    ensures Static(map["value" := a]) && Static(map["oldValue" := a, "newValue" := b])
  {
    assert "value" !in DYNAMIC_FIELDS;
    assert "oldValue" !in DYNAMIC_FIELDS;
    assert "newValue" !in DYNAMIC_FIELDS;
  }

  // ---- what every row keeps --------------------------------------------------------------

  ghost predicate Each(p: Item -> bool, rows: seq<Item>) {
    forall r | r in rows :: p(r)
  }

  predicate SameContent(r: Item, t: Item) {
    t == r.(status := t.status, updatedAt := t.updatedAt)
  }

  /** Superseding and expiry rewrite status and update time only. */
  ghost predicate Lasting(p: Item -> bool) {
    forall r, t | p(r) && SameContent(r, t) :: p(t)
  }

  ghost predicate HoldsOfWrites(p: Item -> bool, b: Batch, ws: seq<Write>) {
    forall w | w in ws && Adds(w) :: p(RowFor(b, w))
  }

  lemma MarkingKeeps(p: Item -> bool, rows: seq<Item>, ids: set<string>, now: int)
    requires Lasting(p) && Each(p, rows)
    ensures Each(p, MarkSuperseded(rows, ids, now))
  {
    var marked := MarkSuperseded(rows, ids, now);
    forall r | r in marked
      ensures p(r)
    {
      var i :| 0 <= i < |marked| && marked[i] == r;
      assert rows[i] in rows && SameContent(rows[i], r);
    }
  }

  lemma ExpiryKeeps(p: Item -> bool, rows: seq<Item>, session: Option<string>, clock: string, now: int)
    requires Lasting(p) && Each(p, rows)
    ensures Each(p, ExpireDue(rows, session, clock, now))
  {
    var swept := ExpireDue(rows, session, clock, now);
    forall r | r in swept
      ensures p(r)
    {
      var i :| 0 <= i < |swept| && swept[i] == r;
      assert rows[i] in rows && SameContent(rows[i], r);
    }
  }

  lemma ExecuteKeeps(p: Item -> bool, rows: seq<Item>, b: Batch, w: Write)
    requires Lasting(p) && Each(p, rows) && (Adds(w) ==> p(RowFor(b, w)))
    ensures Each(p, Execute(rows, b, w))
  {
    if Retires(w) {
      MarkingKeeps(p, rows, {w.action.oldId}, b.now);
    }
  }

  lemma {:induction false} ExecuteAllKeeps(p: Item -> bool, rows: seq<Item>, b: Batch, ws: seq<Write>)
    requires Lasting(p) && Each(p, rows) && HoldsOfWrites(p, b, ws)
    ensures Each(p, ExecuteAll(rows, b, ws))
  {
    if ws != [] {
      assert ws == Init(ws) + [Last(ws)];
      ExecuteAllKeeps(p, rows, b, Init(ws));
      ExecuteKeeps(p, ExecuteAll(rows, b, Init(ws)), b, Last(ws));
    }
  }

  ghost predicate HoldsOfStep(p: Item -> bool, rows: seq<Item>, s: Step) {
    forall b, ws | Performs(rows, s, b, ws) :: HoldsOfWrites(p, b, ws)
  }

  lemma StepKeeps(p: Item -> bool, rows: seq<Item>, s: Step)
    requires WellFormed(s)
    requires Lasting(p) && Each(p, rows) && HoldsOfStep(p, rows, s)
    ensures Each(p, StepRows(rows, s))
  {
    match s {
      case WriteBatch(_, b, _, _, _) =>
        assert Performs(rows, s, b, BatchWrites(s));
        ExecuteAllKeeps(p, rows, b, BatchWrites(s));
      case Correct(k) =>
        assert Performs(rows, s, CorrectionBatch(k), CorrectionWrites(rows, k));
        ExecuteAllKeeps(p, rows, CorrectionBatch(k), CorrectionWrites(rows, k));
      case Expire(session, clock, now) => ExpiryKeeps(p, rows, session, clock, now);
    }
  }

  // ---- vetted rows --------------------------------------------------------------------------

  function RowVetted(): Item -> bool {
    (r: Item) => Vetted(r.memoryType, r.source, r.value)
  }

  lemma PerformedWriteIsVetted(rows: seq<Item>, s: Step, b: Batch, ws: seq<Write>, w: Write)
    requires Performs(rows, s, b, ws) && w in ws && Adds(w)
    ensures Vetted(w.candidate.memoryType, w.candidate.source, w.candidate.value)
  {
    match s {
      case WriteBatch(view, _, _, _, _) =>
        GateAdmitsOnlyVetted(w.candidate, Query(view, b.sessionId, None, "", VISIBLE));
      case Correct(k) =>
        CorrectionFieldsAreStatic(k.newValue, k.newValue);
        CorrectionFieldsAreStatic(k.oldValue, k.newValue);
      case Expire(_, _, _) =>
    }
  }

  lemma StepsAreVetted(rows: seq<Item>, s: Step)
    ensures HoldsOfStep(RowVetted(), rows, s)
  {
    forall b, ws | Performs(rows, s, b, ws)
      ensures HoldsOfWrites(RowVetted(), b, ws)
    {
      forall w | w in ws && Adds(w)
        ensures RowVetted()(RowFor(b, w))
      {
        PerformedWriteIsVetted(rows, s, b, ws, w);
      }
    }
  }

  /** Whatever is written, corrected or swept, in any order: every stored row, of any status, is vetted. */
  lemma {:induction false} EveryRowIsVetted(trace: seq<seq<Item>>, steps: seq<Step>)
    requires AnyHistory(trace, steps) && Each(RowVetted(), trace[0])
    ensures Each(RowVetted(), Last(trace))
  {
    if steps != [] {
      EveryRowIsVetted(Init(trace), Init(steps));
      StepsAreVetted(Last(Init(trace)), Last(steps));
      StepKeeps(RowVetted(), Last(Init(trace)), Last(steps));
    }
  }

  /** So the retriever's second check for dynamic fields, kept as a safety net, rejects nothing. */
  lemma DynamicFilterRejectsNothing(
      trace: seq<seq<Item>>, steps: seq<Step>, r: Item, plan: R.Plan, event: Fields, clock: string)
    requires AnyHistory(trace, steps) && Each(RowVetted(), trace[0]) && r in Last(trace)
    ensures R.FilterItem(r, plan, event, clock) != R.RejectedFor(R.DynamicField)
  {
    EveryRowIsVetted(trace, steps);
    assert RowVetted()(r);
    assert Static(r.value);
  }

  // ---- corrected facts have no event thread -----------------------------------------------------

  function CorrectedFactThreadless(): Item -> bool {
    (r: Item) => r.memoryType == StableFact && r.source == FromUserCorrection ==> r.eventThreadId == ""
  }

  lemma GateAdmitsNoCorrectedFact(c: WriteCandidate, existing: seq<Item>)
    ensures Decide(c, existing).Create? || Decide(c, existing).Supersede? ==>
              !(c.memoryType == StableFact && c.source == FromUserCorrection)
  {
  }

  lemma PerformedFactIsThreadless(rows: seq<Item>, s: Step, b: Batch, ws: seq<Write>, w: Write)
    requires Performs(rows, s, b, ws) && w in ws && Adds(w)
    ensures CorrectedFactThreadless()(RowFor(b, w))
  {
    if s.WriteBatch? {
      GateAdmitsNoCorrectedFact(w.candidate, Query(s.view, b.sessionId, None, "", VISIBLE));
    }
  }

  /** In any history a stable fact that the user corrected is stored without an event thread, replacing another or not. */
  lemma {:induction false} CorrectedFactsAreThreadless(trace: seq<seq<Item>>, steps: seq<Step>)
    requires AnyHistory(trace, steps) && Each(CorrectedFactThreadless(), trace[0])
    ensures Each(CorrectedFactThreadless(), Last(trace))
  {
    if steps != [] {
      var rows, s := Last(Init(trace)), Last(steps);
      CorrectedFactsAreThreadless(Init(trace), Init(steps));
      forall b, ws | Performs(rows, s, b, ws)
        ensures HoldsOfWrites(CorrectedFactThreadless(), b, ws)
      {
        forall w | w in ws && Adds(w)
          ensures CorrectedFactThreadless()(RowFor(b, w))
        {
          PerformedFactIsThreadless(rows, s, b, ws, w);
        }
      }
      StepKeeps(CorrectedFactThreadless(), rows, s);
    }
  }

  // ---- replacements have no event thread --------------------------------------------------------

  function RowThreadless(): Item -> bool {
    (r: Item) => r.supersedesId != "" ==> r.eventThreadId == ""
  }

  /** In any history every row that replaced another one is stored without an event thread. */
  lemma {:induction false} ReplacementsAreThreadless(trace: seq<seq<Item>>, steps: seq<Step>)
    requires AnyHistory(trace, steps) && Each(RowThreadless(), trace[0])
    ensures Each(RowThreadless(), Last(trace))
  {
    if steps != [] {
      ReplacementsAreThreadless(Init(trace), Init(steps));
      StepKeeps(RowThreadless(), Last(Init(trace)), Last(steps));
    }
  }
}
