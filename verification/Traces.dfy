/**
 The one trace row of a run, filled by a recall phase and a write phase that may
 arrive in any order and more than once.
 */
module Traces {
  import opened Common

  datatype RecallFields = RecallFields(
    intent: string, decision: string, plan: string, candidates: string, selected: string, rejected: string,
    injectionMap: string, latency: int, tokens: int)

  datatype WriteFields = WriteFields(candidates: string, results: string, latency: int)

  datatype Trace = Trace(
    traceId: string, runId: string, sessionId: string, recall: RecallFields, write: WriteFields,
    eventThreadId: string, createdAt: string, updatedAt: string)

  datatype Phase = RecallPhase | WritePhase

  const NO_RECALL: RecallFields := RecallFields("", "{}", "{}", "[]", "[]", "[]", "{}", 0, 0)
  const NO_WRITE: WriteFields := WriteFields("[]", "[]", 0)

  // ---- the merge --------------------------------------------------------------------------

  predicate BlankObject(s: string) {
    s == "" || s == "{}"
  }

  predicate BlankArray(s: string) {
    s == "" || s == "[]"
  }

  function KeepText(patch: string, stored: string): string {
    if patch == "" && stored != "" then stored else patch
  }

  function KeepObject(patch: string, stored: string): string {
    if BlankObject(patch) && !BlankObject(stored) then stored else patch
  }

  function KeepArray(patch: string, stored: string): string {
    if BlankArray(patch) && !BlankArray(stored) then stored else patch
  }

  function KeepNumber(patch: int, stored: int): int {
    if patch == 0 && stored != 0 then stored else patch
  }

  function KeepRecall(patch: RecallFields, stored: RecallFields): RecallFields {
    RecallFields(
      KeepText(patch.intent, stored.intent),
      KeepObject(patch.decision, stored.decision),
      KeepObject(patch.plan, stored.plan),
      KeepArray(patch.candidates, stored.candidates),
      KeepArray(patch.selected, stored.selected),
      KeepArray(patch.rejected, stored.rejected),
      KeepObject(patch.injectionMap, stored.injectionMap),
      KeepNumber(patch.latency, stored.latency),
      KeepNumber(patch.tokens, stored.tokens))
  }

  function KeepWrite(patch: WriteFields, stored: WriteFields): WriteFields {
    WriteFields(
      KeepArray(patch.candidates, stored.candidates),
      KeepArray(patch.results, stored.results),
      KeepNumber(patch.latency, stored.latency))
  }

  /** The patch with everything it leaves open taken from the stored row. */
  function Filled(was: Trace, patch: Trace, phase: Phase): Trace {
    Trace(
      was.traceId,
      patch.runId,
      if was.sessionId != "" then was.sessionId else patch.sessionId,
      if phase.WritePhase? then KeepRecall(patch.recall, was.recall) else patch.recall,
      if phase.RecallPhase? then KeepWrite(patch.write, was.write) else patch.write,
      KeepText(patch.eventThreadId, was.eventThreadId),
      if was.createdAt != "" then was.createdAt else patch.createdAt,
      patch.updatedAt)
  }

  function Completed(stored: Option<Trace>, patch: Trace, phase: Phase, now: string): Trace {
    var t := if stored.None? then patch else Filled(stored.value, patch, phase);
    t.(createdAt := if t.createdAt == "" then now else t.createdAt, updatedAt := now)
  }

  /** What the table then holds; updating a row never touches its trace id or creation time. */
  function SavedRow(stored: Option<Trace>, t: Trace): Trace {
    if stored.None? then t else t.(traceId := stored.value.traceId, createdAt := stored.value.createdAt)
  }

  function Merge(stored: Option<Trace>, patch: Trace, phase: Phase, now: string): Trace {
    SavedRow(stored, Completed(stored, patch, phase, now))
  }

  // ---- histories of merges -------------------------------------------------------------------

  datatype Event = Event(phase: Phase, patch: Trace, now: string)

  /** A phase leaves the other phase's fields at their defaults. */
  predicate Proper(e: Event) {
    if e.phase.RecallPhase? then e.patch.write == NO_WRITE else e.patch.recall == NO_RECALL
  }

  function MergeAll(es: seq<Event>): Option<Trace> {
    if es == [] then None
    else Some(Merge(MergeAll(Init(es)), Last(es).patch, Last(es).phase, Last(es).now))
  }

  function Phases(phase: Phase, es: seq<Event>): seq<Event> {
    Filter((e: Event) => e.phase == phase, es)
  }

  function LastRecall(es: seq<Event>): RecallFields {
    if es == [] then NO_RECALL else Last(es).patch.recall
  }

  function LastWrite(es: seq<Event>): WriteFields {
    if es == [] then NO_WRITE else Last(es).patch.write
  }

  function FirstText(texts: seq<string>): string {
    if texts == [] then "" else if FirstText(Init(texts)) != "" then FirstText(Init(texts)) else Last(texts)
  }

  function LastText(texts: seq<string>): string {
    if texts == [] then "" else if Last(texts) != "" then Last(texts) else LastText(Init(texts))
  }

  function Sessions(es: seq<Event>): seq<string> {
    seq(|es|, i requires 0 <= i < |es| => es[i].patch.sessionId)
  }

  function Threads(es: seq<Event>): seq<string> {
    seq(|es|, i requires 0 <= i < |es| => es[i].patch.eventThreadId)
  }

  /** Written out, an absent JSON value reads as its default, not as the empty text. */
  predicate RecallSpelledOut(r: RecallFields) {
    r.decision != "" && r.plan != "" && r.candidates != "" && r.selected != "" && r.rejected != "" && r.injectionMap != ""
  }

  predicate WriteSpelledOut(w: WriteFields) {
    w.candidates != "" && w.results != ""
  }

  predicate SpelledOut(e: Event) {
    if e.phase.RecallPhase? then RecallSpelledOut(e.patch.recall) else WriteSpelledOut(e.patch.write)
  }

  ghost predicate Orderly(es: seq<Event>) {
    forall e | e in es :: Proper(e) && SpelledOut(e)
  }

  lemma QuietWriteKeepsRecall(r: RecallFields)
    requires RecallSpelledOut(r)
    ensures KeepRecall(NO_RECALL, r) == r
  {
  }

  lemma QuietRecallKeepsWrite(w: WriteFields)
    requires WriteSpelledOut(w)
    ensures KeepWrite(NO_WRITE, w) == w
  {
  }

  lemma OrderlyInit(es: seq<Event>)
    requires es != [] && Orderly(es)
    ensures Orderly(Init(es)) && Proper(Last(es)) && SpelledOut(Last(es))
  {
    assert Last(es) in es;
    assert forall e | e in Init(es) :: e in es;
  }

  lemma {:induction false} PhasesAreOrderly(phase: Phase, es: seq<Event>)
    requires Orderly(es)
    ensures Orderly(Phases(phase, es)) && (Phases(phase, es) != [] ==> Last(Phases(phase, es)).phase == phase)
  {
    FilterMembers((e: Event) => e.phase == phase, es);
    if es != [] {
      OrderlyInit(es);
      PhasesAreOrderly(phase, Init(es));
    }
  }

  lemma LastsAreSpelledOut(es: seq<Event>)
    requires Orderly(es)
    ensures RecallSpelledOut(LastRecall(Phases(RecallPhase, es)))
    ensures WriteSpelledOut(LastWrite(Phases(WritePhase, es)))
  {
    PhasesAreOrderly(RecallPhase, es);
    PhasesAreOrderly(WritePhase, es);
    var recalls, writes := Phases(RecallPhase, es), Phases(WritePhase, es);
    assert recalls != [] ==> Last(recalls) in recalls;
    assert writes != [] ==> Last(writes) in writes;
  }

  lemma PhasesSnoc(phase: Phase, es: seq<Event>)
    requires es != []
    ensures Phases(phase, es) == Phases(phase, Init(es)) + (if Last(es).phase == phase then [Last(es)] else [])
  {
  }

  /**
   After any interleaving of the two phases the row holds the last recall patch's
   recall fields and the last write patch's write fields.
   */
  lemma {:induction false} RowHoldsLastOfEachPhase(es: seq<Event>)
    requires es != [] && Orderly(es)
    ensures var row := MergeAll(es).value;
            && row.recall == LastRecall(Phases(RecallPhase, es))
            && row.write == LastWrite(Phases(WritePhase, es))
  {
    OrderlyInit(es);
    PhasesSnoc(RecallPhase, es);
    PhasesSnoc(WritePhase, es);
    if |es| > 1 {
      RowHoldsLastOfEachPhase(Init(es));
      LastsAreSpelledOut(Init(es));
      QuietWriteKeepsRecall(LastRecall(Phases(RecallPhase, Init(es))));
      QuietRecallKeepsWrite(LastWrite(Phases(WritePhase, Init(es))));
    } else {
      assert Init(es) == [];
    }
  }

  /** The session of the first patch that names one stays; the last named event thread wins. */
  lemma {:induction false} RowKeepsFirstSessionLastThread(es: seq<Event>)
    requires es != []
    ensures var row := MergeAll(es).value;
            && row.sessionId == FirstText(Sessions(es))
            && row.eventThreadId == LastText(Threads(es))
            && row.updatedAt == Last(es).now
  {
    assert Init(Sessions(es)) == Sessions(Init(es));
    assert Init(Threads(es)) == Threads(Init(es));
    if |es| > 1 {
      RowKeepsFirstSessionLastThread(Init(es));
    } else {
      assert Init(es) == [];
    }
  }

  /** The trace id and the time of creation are those of the first patch, however many follow. */
  lemma {:induction false} RowKeepsFirstIdentity(es: seq<Event>)
    requires es != []
    ensures var row, first := MergeAll(es).value, es[0];
            && row.traceId == first.patch.traceId && row.runId == Last(es).patch.runId
            && row.createdAt == (if first.patch.createdAt != "" then first.patch.createdAt else first.now)
  {
    if |es| > 1 {
      RowKeepsFirstIdentity(Init(es));
    } else {
      assert Init(es) == [];
    }
  }

  lemma {:induction false} AgreeingTexts(texts: seq<string>, t: string)
    requires texts != [] && forall x | x in texts :: x == t
    ensures FirstText(texts) == t && LastText(texts) == t
  {
    assert Last(texts) in texts;
    if |texts| > 1 {
      assert forall x | x in Init(texts) :: x in texts;
      AgreeingTexts(Init(texts), t);
    } else {
      assert Init(texts) == [];
    }
  }

  ghost predicate Agree(es: seq<Event>, session: string, thread: string) {
    forall e | e in es :: e.patch.sessionId == session && e.patch.eventThreadId == thread
  }

  /** What a row says, apart from when and under which trace id it was stored. */
  function Content(t: Trace): (string, RecallFields, WriteFields, string) {
    (t.sessionId, t.recall, t.write, t.eventThreadId)
  }

  lemma AgreedContent(es: seq<Event>, session: string, thread: string)
    requires es != [] && Orderly(es) && Agree(es, session, thread)
    ensures Content(MergeAll(es).value)
         == (session, LastRecall(Phases(RecallPhase, es)), LastWrite(Phases(WritePhase, es)), thread)
  {
    RowHoldsLastOfEachPhase(es);
    RowKeepsFirstSessionLastThread(es);
    forall x | x in Sessions(es)
      ensures x == session
    {
      var i :| 0 <= i < |es| && Sessions(es)[i] == x;
      assert es[i] in es;
    }
    forall x | x in Threads(es)
      ensures x == thread
    {
      var i :| 0 <= i < |es| && Threads(es)[i] == x;
      assert es[i] in es;
    }
    AgreeingTexts(Sessions(es), session);
    AgreeingTexts(Threads(es), thread);
  }

  /**
   The two phases may interleave in any way: histories with the same recall
   patches and the same write patches, each in order, leave the same content.
   */
  lemma InterleavingsAgree(es: seq<Event>, fs: seq<Event>, session: string, thread: string)
    requires es != [] && fs != [] && Orderly(es) && Orderly(fs)
    requires Agree(es, session, thread) && Agree(fs, session, thread)
    requires Phases(RecallPhase, es) == Phases(RecallPhase, fs)
    requires Phases(WritePhase, es) == Phases(WritePhase, fs)
    ensures Content(MergeAll(es).value) == Content(MergeAll(fs).value)
  {
    AgreedContent(es, session, thread);
    AgreedContent(fs, session, thread);
  }

  /**
   Merging the last patch of either phase again, at any later time and however many
   patches of the other phase came in between, changes no content.
   */
  lemma RepeatChangesNothing(es: seq<Event>, phase: Phase, session: string, thread: string, later: string)
    requires Orderly(es) && Agree(es, session, thread) && Phases(phase, es) != []
    ensures es != [] && Content(MergeAll(es + [Last(Phases(phase, es)).(now := later)]).value) == Content(MergeAll(es).value)
  {
    var last := Last(Phases(phase, es));
    var again := es + [last.(now := later)];
    FilterMembers((e: Event) => e.phase == phase, es);
    assert last in Phases(phase, es) && Init(again) == es;
    assert Orderly(again) && Agree(again, session, thread);
    AgreedContent(es, session, thread);
    AgreedContent(again, session, thread);
    PhasesSnoc(RecallPhase, again);
    PhasesSnoc(WritePhase, again);
  }

  // ---- what a patch leaves open ------------------------------------------------------------------

  /** A blank field is taken from the stored row, unless that is blank too. */
  predicate FilledIn(result: string, patch: string, stored: string, blank: string) {
    result == if patch in ["", blank] && stored !in ["", blank] then stored else patch
  }

  /** A write patch sets all write fields, and those recall fields that it does not leave blank. */
  lemma WritePatchFillsBlankRecall(stored: Trace, patch: Trace, now: string)
    ensures var row, p, r := Merge(Some(stored), patch, WritePhase, now), patch.recall, stored.recall;
            && row.write == patch.write
            && row.recall.intent == (if p.intent == "" then r.intent else p.intent)
            && FilledIn(row.recall.decision, p.decision, r.decision, "{}") && FilledIn(row.recall.plan, p.plan, r.plan, "{}")
            && FilledIn(row.recall.candidates, p.candidates, r.candidates, "[]")
            && FilledIn(row.recall.selected, p.selected, r.selected, "[]")
            && FilledIn(row.recall.rejected, p.rejected, r.rejected, "[]")
            && FilledIn(row.recall.injectionMap, p.injectionMap, r.injectionMap, "{}")
            && row.recall.latency == (if p.latency == 0 then r.latency else p.latency)
            && row.recall.tokens == (if p.tokens == 0 then r.tokens else p.tokens)
  {
  }

  /** A recall patch sets all recall fields, and those write fields that it does not leave blank. */
  lemma RecallPatchFillsBlankWrite(stored: Trace, patch: Trace, now: string)
    ensures var row, p, w := Merge(Some(stored), patch, RecallPhase, now), patch.write, stored.write;
            && row.recall == patch.recall
            && FilledIn(row.write.candidates, p.candidates, w.candidates, "[]")
            && FilledIn(row.write.results, p.results, w.results, "[]")
            && row.write.latency == (if p.latency == 0 then w.latency else p.latency)
  {
  }

  /**
   The patch object itself is completed with what is stored: identity, session and time of
   creation; its own event thread goes first.
   */
  lemma PatchTakesStoredIdentity(stored: Trace, patch: Trace, phase: Phase, now: string)
    ensures var t := Completed(Some(stored), patch, phase, now);
            && t.traceId == stored.traceId && t.runId == patch.runId && t.updatedAt == now
            && t.sessionId == (if stored.sessionId == "" then patch.sessionId else stored.sessionId)
            && t.eventThreadId == (if patch.eventThreadId == "" then stored.eventThreadId else patch.eventThreadId)
            && t.createdAt == (if stored.createdAt != "" then stored.createdAt
                               else if patch.createdAt != "" then patch.createdAt else now)
  {
  }

  // ---- a write phase that is not quiet ------------------------------------------------------------

  /** The trace of a direct user correction is a write-phase patch that carries a recall intent. */
  function CorrectionPatch(runId: string, sessionId: string, intent: string): Trace {
    Trace("memtrace_correction_" + runId, runId, sessionId, NO_RECALL.(intent := intent), NO_WRITE, "", "", "")
  }

  /** It leaves the recall fields of the run as they were exactly when the recall had that same intent. */
  lemma CorrectionKeepsRecallIff(stored: Trace, intent: string, now: string)
    requires RecallSpelledOut(stored.recall) && intent != ""
    ensures Merge(Some(stored), CorrectionPatch(stored.runId, stored.sessionId, intent), WritePhase, now).recall == stored.recall
       <==> stored.recall.intent == intent
  {
    var merged := KeepRecall(NO_RECALL.(intent := intent), stored.recall);
    QuietWriteKeepsRecall(stored.recall);
    assert merged == stored.recall.(intent := intent);
  }

  /** As a write patch it also clears what the write phase of the run had recorded. */
  lemma CorrectionTraceIsStored(stored: Option<Trace>, runId: string, sessionId: string, intent: string, now: string)
    ensures var row := Merge(stored, CorrectionPatch(runId, sessionId, intent), WritePhase, now);
            && row.write == WriteFields("[]", "[]", 0) && row.runId == runId && row.updatedAt == now
            && (intent != "" ==> row.recall.intent == intent)
            && (stored.None? ==>
                  && row.traceId == "memtrace_correction_" + runId && row.sessionId == sessionId && row.createdAt == now
                  && row.recall == RecallFields(intent, "{}", "{}", "[]", "[]", "[]", "{}", 0, 0) && row.eventThreadId == "")
            && (stored.Some? ==>
                  && row.traceId == stored.value.traceId && row.createdAt == stored.value.createdAt
                  && row.eventThreadId == stored.value.eventThreadId
                  && row.sessionId == (if stored.value.sessionId == "" then sessionId else stored.value.sessionId))
  {
  }
}
