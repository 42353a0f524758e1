/**
 Normalized evidence rows and the ranking key computed from them.
 Relevance scores are whole numbers in every branch, so they are modelled as int.
 */
module Projections {
  import opened Common

  /** A JSON value as Python's json module produces and consumes it. */
  datatype Json =
    | JNull
    | JBool(b: bool)
    | JInt(n: int)
    | JFloat(x: Float)
    | JStr(s: string)
    | JList(items: seq<Json>)
    | JObj(fields: map<string, Json>)

  type Fields = map<string, Json>

  /** dict.get(key): a missing key reads as None. */
  function Get(fields: Fields, key: string): Json {
    if key in fields then fields[key] else JNull
  }

  predicate Truthy(j: Json) {
    match j
    case JNull => false
    case JBool(b) => b
    case JInt(n) => n != 0
    case JFloat(x) => x != ZERO
    case JStr(s) => s != ""
    case JList(items) => items != []
    case JObj(fields) => fields != map[]
  }

  datatype TrustClass = T0System | T1Tool | T2Agent | T3Knowledge | T4External

  function TrustOrdinal(t: TrustClass): int {
    match t
    case T0System => 0
    case T1Tool => 1
    case T2Agent => 2
    case T3Knowledge => 3
    case T4External => 4
  }

  datatype SourceProjection = SourceProjection(
    sourceRef: string,
    sourceType: string,
    trustClass: TrustClass,
    normalizedFields: Fields,
    timestamp: string,
    nodeId: string,
    stableContentHash: string
  )

  /** What the decision point is looking at. */
  datatype Focus = Focus(stepId: string, nodeId: string, explicitRefs: seq<string>)

  const POLICY_AUDIT_EVENT_TYPES: set<string> := {"tool_denied", "tool_approval_required", "tool_allowed"}

  predicate IsStringIn(j: Json, options: set<string>) {
    j.JStr? && j.s in options
  }

  predicate Fails(p: SourceProjection) {
    Truthy(Get(p.normalizedFields, "error")) || IsStringIn(Get(p.normalizedFields, "status"), {"failed", "timed_out"})
  }

  predicate IsPolicyAudit(p: SourceProjection) {
    IsStringIn(Get(p.normalizedFields, "eventType"), POLICY_AUDIT_EVENT_TYPES)
  }

  function Locality(p: SourceProjection, focus: Focus): int {
    if focus.stepId != "" && p.nodeId == focus.stepId then 40
    else if focus.nodeId != "" && p.nodeId == focus.nodeId then 30
    else 0
  }

  function Relevance(p: SourceProjection, focus: Focus): int {
    (if p.sourceRef in focus.explicitRefs then 100 else 0)
    + Locality(p, focus)
    + (if Fails(p) then 20 else 0)
    + (if IsPolicyAudit(p) then 20 else 0)
    + (4 - TrustOrdinal(p.trustClass)) * 5
  }

  /** The score is accumulated term by term, as the planner does. */
  method ScoreRelevance(p: SourceProjection, focus: Focus) returns (score: int)
    ensures score == Relevance(p, focus)
  {
    score := 0;
    if p.sourceRef in focus.explicitRefs {
      score := score + 100;
    }
    if focus.stepId != "" && p.nodeId == focus.stepId {
      score := score + 40;
    } else if focus.nodeId != "" && p.nodeId == focus.nodeId {
      score := score + 30;
    }
    if Fails(p) {
      score := score + 20;
    }
    if IsPolicyAudit(p) {
      score := score + 20;
    }
    score := score + (4 - TrustOrdinal(p.trustClass)) * 5;
  }

  // ---- what relevance consists of ------------------------------------------------------

  /** Seven values are falsy: None, False, zero, and everything empty. */
  lemma TruthyUnlessEmpty(j: Json)
    ensures Truthy(j) <==> j !in [JNull, JBool(false), JInt(0), JFloat(ZERO), JStr(""), JList([]), JObj(map[])]
  {
  }

  /** A row of the lowest trust that nothing speaks for scores nothing. */
  lemma NothingScoresNothing(p: SourceProjection, focus: Focus)
    requires p.sourceRef !in focus.explicitRefs && p.trustClass == T4External && p.normalizedFields == map[]
    requires focus.stepId == focus.nodeId == "" || p.nodeId !in [focus.stepId, focus.nodeId]
    ensures Relevance(p, focus) == 0
  {
  }

  /** Being referred to is worth 100. */
  lemma ReferenceAdds100(p: SourceProjection, focus: Focus, other: string)
    requires p.sourceRef in focus.explicitRefs && other !in focus.explicitRefs
    ensures Relevance(p, focus) == Relevance(p.(sourceRef := other), focus) + 100
  {
  }

  /** Belonging to the current step is worth 40, whatever the current node is. */
  lemma StepAdds40(p: SourceProjection, focus: Focus, other: string)
    requires p.nodeId == focus.stepId != "" && other !in [focus.stepId, focus.nodeId]
    ensures Relevance(p, focus) == Relevance(p.(nodeId := other), focus) + 40
  {
  }

  /** Belonging to the current node and not to the current step is worth 30. */
  lemma NodeAdds30(p: SourceProjection, focus: Focus, other: string)
    requires p.nodeId == focus.nodeId != "" && p.nodeId != focus.stepId && other !in [focus.stepId, focus.nodeId]
    ensures Relevance(p, focus) == Relevance(p.(nodeId := other), focus) + 30
  {
  }

  /** Without a current step or node no row is local: an empty id matches nothing. */
  lemma EmptyIdsMatchNothing(p: SourceProjection, focus: Focus, other: string)
    requires focus.stepId == focus.nodeId == ""
    ensures Relevance(p, focus) == Relevance(p.(nodeId := other), focus)
  {
  }

  /** A truthy error, or one of two statuses, is worth 20, however many of them there are. */
  lemma FailureAdds20(p: SourceProjection, focus: Focus, error: Json, status: Json)
    ensures var plain := p.normalizedFields - {"error", "status"};
            Relevance(p.(normalizedFields := plain["error" := error]["status" := status]), focus)
            == Relevance(p.(normalizedFields := plain), focus)
               + (if Truthy(error) || status in [JStr("failed"), JStr("timed_out")] then 20 else 0)
  {
    var plain := p.normalizedFields - {"error", "status"};
    var fields := plain["error" := error]["status" := status];
    assert Get(fields, "eventType") == Get(plain, "eventType");
    assert Get(fields, "error") == error && Get(fields, "status") == status;
    assert Get(plain, "error") == JNull && Get(plain, "status") == JNull;
  }

  /** A policy decision is worth 20. */
  lemma PolicyEventAdds20(p: SourceProjection, focus: Focus, event: Json)
    ensures var plain := p.normalizedFields - {"eventType"};
            Relevance(p.(normalizedFields := plain["eventType" := event]), focus)
            == Relevance(p.(normalizedFields := plain), focus)
               + (if event in [JStr("tool_denied"), JStr("tool_approval_required"), JStr("tool_allowed")] then 20 else 0)
  {
    var plain := p.normalizedFields - {"eventType"};
    var fields := plain["eventType" := event];
    assert forall k | k != "eventType" :: Get(fields, k) == Get(plain, k);
    assert Get(fields, "eventType") == event && Get(plain, "eventType") == JNull;
  }

  /** Nothing else in a row's fields counts. */
  lemma OtherFieldsDoNotCount(p: SourceProjection, focus: Focus, fields: Fields)
    requires forall k | k in ["error", "status", "eventType"] :: Get(fields, k) == Get(p.normalizedFields, k)
    ensures Relevance(p.(normalizedFields := fields), focus) == Relevance(p, focus)
  {
    assert "error" in ["error", "status", "eventType"] && "status" in ["error", "status", "eventType"];
    assert "eventType" in ["error", "status", "eventType"];
  }

  /** Each level of trust is worth 5. */
  lemma TrustLevelAdds5(p: SourceProjection, focus: Focus, lower: TrustClass, higher: TrustClass)
    requires (lower, higher) in [(T4External, T3Knowledge), (T3Knowledge, T2Agent), (T2Agent, T1Tool), (T1Tool, T0System)]
    ensures Relevance(p.(trustClass := higher), focus) == Relevance(p.(trustClass := lower), focus) + 5
    ensures TrustOrdinal(higher) < TrustOrdinal(lower)
  {
  }

  /** Nothing but its reference speaks for the row. */
  predicate Bare(p: SourceProjection, focus: Focus) {
    p.trustClass == T4External && Locality(p, focus) == 0 && !Fails(p) && !IsPolicyAudit(p)
  }

  /** Everything but a reference speaks for the row. */
  predicate Laden(p: SourceProjection, focus: Focus) {
    p.trustClass == T0System && Locality(p, focus) == 40 && Fails(p) && IsPolicyAudit(p)
  }

  /** A referenced row is never less relevant than one that is not, and more relevant but for one exact tie. */
  lemma ReferencedOutranksIff(p: SourceProjection, q: SourceProjection, focus: Focus)
    requires p.sourceRef in focus.explicitRefs && q.sourceRef !in focus.explicitRefs
    ensures Relevance(p, focus) >= Relevance(q, focus)
    ensures Relevance(p, focus) > Relevance(q, focus) <==> !(Bare(p, focus) && Laden(q, focus))
  {
    assert 0 <= Locality(p, focus) <= 40 && 0 <= Locality(q, focus) <= 40;
  }

  /** Evidence cannot lift itself far: what its own fields say is worth at most 40, less than a reference. */
  lemma OwnFieldsAddAtMost40(p: SourceProjection, q: SourceProjection, focus: Focus)
    requires p.sourceRef == q.sourceRef && p.nodeId == q.nodeId && p.trustClass == q.trustClass
    ensures Relevance(p, focus) <= Relevance(q, focus) + 40
    ensures Relevance(p, focus) == Relevance(q, focus) + 40 <==> Fails(p) && IsPolicyAudit(p) && !Fails(q) && !IsPolicyAudit(q)
  {
  }

  /** Python's string comparison: code point by code point. */
  predicate StrLeq(a: string, b: string) {
    if a == [] then true
    else if b == [] then false
    else if a[0] != b[0] then a[0] < b[0]
    else StrLeq(a[1..], b[1..])
  }

  /** Where two texts first differ, the first has the smaller character. */
  predicate SmallerAt(a: string, b: string, k: nat) {
    k < |a| && k < |b| && a[..k] == b[..k] && a[k] < b[k]
  }

  lemma SmallerAtTail(a: string, b: string, k: nat)
    requires a != [] && b != [] && a[0] == b[0]
    ensures SmallerAt(a[1..], b[1..], k) <==> SmallerAt(a, b, k + 1)
  {
    if k < |a| - 1 && k < |b| - 1 {
      assert a[..k + 1][1..] == a[1..][..k] && b[..k + 1][1..] == b[1..][..k];
      assert a[..k + 1] == [a[0]] + a[..k + 1][1..];
      assert b[..k + 1] == [b[0]] + b[..k + 1][1..];
    }
  }

  /** That is: a is a prefix of b, or has the smaller character where they first differ. */
  lemma {:induction false} StrLeqIff(a: string, b: string)
    ensures StrLeq(a, b) <==> a <= b || exists k: nat :: SmallerAt(a, b, k)
  {
    if a != [] && b != [] && a[0] == b[0] {
      StrLeqIff(a[1..], b[1..]);
      assert a == [a[0]] + a[1..] && b == [b[0]] + b[1..];
      if k: nat :| SmallerAt(a[1..], b[1..], k) {
        SmallerAtTail(a, b, k);
      }
      if k: nat :| SmallerAt(a, b, k) {
        assert k > 0;
        SmallerAtTail(a, b, k - 1);
      }
    } else if a != [] && b != [] {
      assert a[0] < b[0] ==> SmallerAt(a, b, 0);
      if k: nat :| SmallerAt(a, b, k) {
        assert k > 0 ==> a[..k][0] == b[..k][0];
      }
    }
  }

  lemma {:induction false} StrTotal(a: string, b: string)
    ensures StrLeq(a, b) || StrLeq(b, a)
  {
    if a != [] && b != [] && a[0] == b[0] {
      StrTotal(a[1..], b[1..]);
    }
  }

  lemma {:induction false} StrAntisymmetric(a: string, b: string)
    requires StrLeq(a, b) && StrLeq(b, a)
    ensures a == b
  {
    if a != [] && b != [] {
      assert a[0] == b[0];
      StrAntisymmetric(a[1..], b[1..]);
      assert a == [a[0]] + a[1..] && b == [b[0]] + b[1..];
    }
  }

  predicate StrBefore(a: string, b: string) {
    StrLeq(a, b) && a != b
  }

  lemma StrBeforeIff(a: string, b: string)
    ensures StrBefore(a, b) <==> !StrLeq(b, a)
  {
    StrTotal(a, b);
    if StrLeq(a, b) && StrLeq(b, a) {
      StrAntisymmetric(a, b);
    }
  }

  lemma {:induction false} StrTransitive(a: string, b: string, c: string)
    requires StrLeq(a, b) && StrLeq(b, c)
    ensures StrLeq(a, c)
  {
    if a != [] && b != [] && c != [] && a[0] == b[0] && b[0] == c[0] {
      StrTransitive(a[1..], b[1..], c[1..]);
    }
  }

  datatype RankKey = RankKey(
    negRelevance: int, trustOrdinal: int, timestamp: string, sourceType: string, sourceRef: string)

  function KeyOf(p: SourceProjection, focus: Focus): RankKey {
    RankKey(-Relevance(p, focus), TrustOrdinal(p.trustClass), p.timestamp, p.sourceType, p.sourceRef)
  }

  /** Tuple comparison: the first component that differs decides. */
  predicate KeyLeq(a: RankKey, b: RankKey) {
    if a.negRelevance != b.negRelevance then a.negRelevance < b.negRelevance
    else if a.trustOrdinal != b.trustOrdinal then a.trustOrdinal < b.trustOrdinal
    else if a.timestamp != b.timestamp then StrLeq(a.timestamp, b.timestamp)
    else if a.sourceType != b.sourceType then StrLeq(a.sourceType, b.sourceType)
    else StrLeq(a.sourceRef, b.sourceRef)
  }

  lemma KeyTotal(a: RankKey, b: RankKey)
    ensures KeyLeq(a, b) || KeyLeq(b, a)
  {
    StrTotal(a.timestamp, b.timestamp);
    StrTotal(a.sourceType, b.sourceType);
    StrTotal(a.sourceRef, b.sourceRef);
  }

  lemma KeyAntisymmetric(a: RankKey, b: RankKey)
    requires KeyLeq(a, b) && KeyLeq(b, a)
    ensures a == b
  {
    if a.timestamp != b.timestamp {
      StrAntisymmetric(a.timestamp, b.timestamp);
    } else if a.sourceType != b.sourceType {
      StrAntisymmetric(a.sourceType, b.sourceType);
    } else {
      StrAntisymmetric(a.sourceRef, b.sourceRef);
    }
  }

  lemma KeyTransitive(a: RankKey, b: RankKey, c: RankKey)
    requires KeyLeq(a, b) && KeyLeq(b, c)
    ensures KeyLeq(a, c)
  {
    if a.negRelevance == b.negRelevance == c.negRelevance && a.trustOrdinal == b.trustOrdinal == c.trustOrdinal {
      TieBreakTransitive(a, b, c);
    }
  }

  lemma TieBreakTransitive(a: RankKey, b: RankKey, c: RankKey)
    requires a.negRelevance == b.negRelevance == c.negRelevance && a.trustOrdinal == b.trustOrdinal == c.trustOrdinal
    requires KeyLeq(a, b) && KeyLeq(b, c)
    ensures KeyLeq(a, c)
  {
    if a.timestamp != b.timestamp && b.timestamp != c.timestamp {
      StrTransitive(a.timestamp, b.timestamp, c.timestamp);
      if a.timestamp == c.timestamp {
        StrAntisymmetric(a.timestamp, b.timestamp);
      }
    } else if a.timestamp == b.timestamp == c.timestamp {
      if a.sourceType != b.sourceType && b.sourceType != c.sourceType {
        StrTransitive(a.sourceType, b.sourceType, c.sourceType);
        if a.sourceType == c.sourceType {
          StrAntisymmetric(a.sourceType, b.sourceType);
        }
      } else if a.sourceType == b.sourceType == c.sourceType {
        StrTransitive(a.sourceRef, b.sourceRef, c.sourceRef);
      }
    }
  }
}
