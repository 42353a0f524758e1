/**
 The source snapshot digest and the wiring of the decision context: the digest
 names everything the ranking and the packing can see, so it determines them.
 SHA-256 and canonical JSON are parameters; where a claim needs them free of
 collisions, it says so.
 */
module Digest {
  import opened Common
  import opened Sorting
  import opened Projections
  import opened Ranking
  import opened Packing

  datatype DigestProjection = DigestProjection(
    sourceRef: string, sourceType: string, trustClass: TrustClass,
    stableContentHash: string, timestamp: string, nodeId: string)

  datatype SystemState = SystemState(
    decisionType: DecisionType,
    runId: string,
    rootRunId: string,
    planId: string,
    planVersion: int,
    runStatus: string,
    goalHash: string,
    planGoalType: string,
    currentStepId: string,
    currentNodeId: string,
    explicitRefs: seq<string>,
    boundCriticRecommendationHash: Option<string>,
    budgetState: Json
  )

  datatype Canon = Canon(
    normalizerVersion: string, assemblerVersion: string,
    sources: seq<DigestProjection>, systemState: SystemState)

  /** Canonical JSON of a row's fields and of the digest record, and SHA-256. */
  datatype Hashing = Hashing(canon: Fields -> string, canonRecord: Canon -> string, sha: string -> string)

  ghost predicate CollisionFree(h: Hashing) {
    Injective(h.canon) && Injective(h.canonRecord) && Injective(h.sha)
  }

  /** Everything a decision context is assembled from. */
  datatype Snapshot = Snapshot(
    projections: seq<SourceProjection>,
    decisionType: DecisionType,
    focus: Focus,
    runId: string,
    lineageRootRunId: string,
    planId: string,
    planVersion: int,
    runStatus: string,
    goal: string,
    planGoalType: string,
    criticRecommendation: Option<Fields>,
    budgetState: Json
  )

  function ContentHash(h: Hashing, fields: Fields): string {
    h.sha(h.canon(fields))
  }

  /** A row built without a supplied hash carries the hash of its own fields. */
  ghost predicate WellHashed(h: Hashing, ps: seq<SourceProjection>) {
    forall p | p in ps :: p.stableContentHash == ContentHash(h, p.normalizedFields)
  }

  function DigestRow(p: SourceProjection): DigestProjection {
    DigestProjection(p.sourceRef, p.sourceType, p.trustClass, p.stableContentHash, p.timestamp, p.nodeId)
  }

  function DigestRows(ps: seq<SourceProjection>): seq<DigestProjection> {
    if ps == [] then [] else DigestRows(Init(ps)) + [DigestRow(Last(ps))]
  }

  predicate RefLeq(a: DigestProjection, b: DigestProjection) {
    if a.sourceRef != b.sourceRef then StrLeq(a.sourceRef, b.sourceRef) else StrLeq(a.sourceType, b.sourceType)
  }

  function SystemStateOf(h: Hashing, s: Snapshot): SystemState {
    SystemState(
      s.decisionType, s.runId, if s.lineageRootRunId != "" then s.lineageRootRunId else s.runId,
      s.planId, s.planVersion, s.runStatus, h.sha(s.goal), s.planGoalType,
      s.focus.stepId, s.focus.nodeId, Sort(StrLeq, s.focus.explicitRefs),
      if s.criticRecommendation.Some? && s.criticRecommendation.value != map[]
      then Some(ContentHash(h, s.criticRecommendation.value)) else None,
      s.budgetState)
  }

  function SnapshotDigest(h: Hashing, s: Snapshot): string {
    h.sha(h.canonRecord(Canon("srcnorm_v1", "dca_v1", Sort(RefLeq, DigestRows(s.projections)), SystemStateOf(h, s))))
  }

  /** The part of the decision context that depends on ranking and packing. */
  datatype Assembled = Assembled(evidence: seq<EvidenceRef>, truncated: bool, provenance: seq<Provenance>)

  function Assemble(h: Hashing, s: Snapshot): Assembled {
    var k := Packer(ForDecision(s.decisionType), h.canon);
    var ranked := Rank(s.projections, s.focus);
    Assembled(Evidences(k, s.focus, Kept(k, ranked)), SomeCut(k, ranked) || DroppedRows(k, ranked) != [],
              ProvenanceOf(k, ranked))
  }

  method AssembleDecisionContext(h: Hashing, s: Snapshot) returns (context: Assembled, digest: string)
    ensures context == Assemble(h, s) && digest == SnapshotDigest(h, s)
  {
    var ordered := RankProjections(s.projections, s.focus);
    var budget := ForDecision(s.decisionType);
    var packed, truncated, provenance := PackEvidence(Packer(budget, h.canon), ordered, s.focus);
    digest := SnapshotDigest(h, s);
    context := Assembled(packed, truncated, provenance);
  }

  // ---- the digest identifies the rows --------------------------------------

  /** A map that tells the listed elements apart keeps their multiplicities. */
  lemma {:induction false} DigestRowsCount(h: Hashing, ps: seq<SourceProjection>, p: SourceProjection)
    requires CollisionFree(h) && WellHashed(h, ps) && p.stableContentHash == ContentHash(h, p.normalizedFields)
    ensures multiset(DigestRows(ps))[DigestRow(p)] == multiset(ps)[p]
  {
    if ps != [] {
      DigestRowsCount(h, Init(ps), p);
      SplitLast(ps);
      SplitLast(DigestRows(ps));
      assert Init(DigestRows(ps)) == DigestRows(Init(ps));
      if DigestRow(Last(ps)) == DigestRow(p) {
        DigestRowInjective(h, Last(ps), p);
      }
    }
  }

  lemma DigestRowInjective(h: Hashing, p: SourceProjection, q: SourceProjection)
    requires CollisionFree(h) && WellHashed(h, [p, q]) && DigestRow(p) == DigestRow(q)
    ensures p == q
  {
    assert p in [p, q] && q in [p, q];
    assert h.canon(p.normalizedFields) == h.canon(q.normalizedFields);
  }

  lemma SameDigestRowsSameRows(h: Hashing, ps: seq<SourceProjection>, qs: seq<SourceProjection>)
    requires CollisionFree(h) && WellHashed(h, ps) && WellHashed(h, qs)
    requires multiset(DigestRows(ps)) == multiset(DigestRows(qs))
    ensures multiset(ps) == multiset(qs)
  {
    forall p
      ensures multiset(ps)[p] == multiset(qs)[p]
    {
      if p in ps || p in qs {
        DigestRowsCount(h, ps, p);
        DigestRowsCount(h, qs, p);
      }
    }
  }

  lemma RefLeqIsTotalPreorder()
    ensures TotalPreorder(RefLeq)
  {
    forall a, b
      ensures RefLeq(a, b) || RefLeq(b, a)
    {
      StrTotal(a.sourceRef, b.sourceRef);
      StrTotal(a.sourceType, b.sourceType);
    }
    forall a, b, c | RefLeq(a, b) && RefLeq(b, c)
      ensures RefLeq(a, c)
    {
      RefLeqTransitive(a, b, c);
    }
  }

  lemma RefLeqTransitive(a: DigestProjection, b: DigestProjection, c: DigestProjection)
    requires RefLeq(a, b) && RefLeq(b, c)
    ensures RefLeq(a, c)
  {
    if a.sourceRef != b.sourceRef && b.sourceRef != c.sourceRef {
      StrTransitive(a.sourceRef, b.sourceRef, c.sourceRef);
      if a.sourceRef == c.sourceRef {
        StrAntisymmetric(a.sourceRef, b.sourceRef);
      }
    } else if a.sourceRef == b.sourceRef == c.sourceRef {
      StrTransitive(a.sourceType, b.sourceType, c.sourceType);
    }
  }

  // ---- same digest, same selection -----------------------------------------

  lemma SameDigestSameRecord(h: Hashing, a: Snapshot, b: Snapshot)
    requires CollisionFree(h) && SnapshotDigest(h, a) == SnapshotDigest(h, b)
    ensures Sort(RefLeq, DigestRows(a.projections)) == Sort(RefLeq, DigestRows(b.projections))
    ensures SystemStateOf(h, a) == SystemStateOf(h, b)
  {
    var ca := Canon("srcnorm_v1", "dca_v1", Sort(RefLeq, DigestRows(a.projections)), SystemStateOf(h, a));
    var cb := Canon("srcnorm_v1", "dca_v1", Sort(RefLeq, DigestRows(b.projections)), SystemStateOf(h, b));
    assert h.canonRecord(ca) == h.canonRecord(cb);
    assert ca == cb;
  }

  /** Equal digests come from the same rows, seen from the same place, for the same decision. */
  lemma SameDigestSameInput(h: Hashing, a: Snapshot, b: Snapshot)
    requires CollisionFree(h) && WellHashed(h, a.projections) && WellHashed(h, b.projections)
    requires SnapshotDigest(h, a) == SnapshotDigest(h, b)
    ensures multiset(a.projections) == multiset(b.projections)
    ensures a.decisionType == b.decisionType
    ensures a.focus.stepId == b.focus.stepId && a.focus.nodeId == b.focus.nodeId
    ensures multiset(a.focus.explicitRefs) == multiset(b.focus.explicitRefs)
    ensures SystemStateOf(h, a) == SystemStateOf(h, b)
  {
    SameDigestSameRecord(h, a, b);
    SortPermutes(RefLeq, DigestRows(a.projections));
    SortPermutes(RefLeq, DigestRows(b.projections));
    SameDigestRowsSameRows(h, a.projections, b.projections);
    SortPermutes(StrLeq, a.focus.explicitRefs);
    SortPermutes(StrLeq, b.focus.explicitRefs);
  }

  lemma SameFocusSameKeys(f: Focus, g: Focus, p: SourceProjection)
    requires f.stepId == g.stepId && f.nodeId == g.nodeId && multiset(f.explicitRefs) == multiset(g.explicitRefs)
    ensures Relevance(p, f) == Relevance(p, g) && KeyOf(p, f) == KeyOf(p, g)
  {
    PermutationMembers(f.explicitRefs, g.explicitRefs);
  }

  lemma {:induction false} InsertCongruence<T(!new)>(leq: (T, T) -> bool, leq': (T, T) -> bool, x: T, xs: seq<T>)
    requires forall a, b :: leq(a, b) == leq'(a, b)
    ensures Insert(leq, x, xs) == Insert(leq', x, xs)
  {
    if xs != [] {
      InsertCongruence(leq, leq', x, Init(xs));
    }
  }

  lemma {:induction false} SortCongruence<T(!new)>(leq: (T, T) -> bool, leq': (T, T) -> bool, xs: seq<T>)
    requires forall a, b :: leq(a, b) == leq'(a, b)
    ensures Sort(leq, xs) == Sort(leq', xs)
  {
    if xs != [] {
      SortCongruence(leq, leq', Init(xs));
      InsertCongruence(leq, leq', Last(xs), Sort(leq, Init(xs)));
    }
  }

  lemma SameFocusSameAssembly(h: Hashing, a: Snapshot, b: Snapshot)
    requires a.projections == b.projections && a.decisionType == b.decisionType
    requires a.focus.stepId == b.focus.stepId && a.focus.nodeId == b.focus.nodeId
    requires multiset(a.focus.explicitRefs) == multiset(b.focus.explicitRefs)
    ensures Assemble(h, a) == Assemble(h, b)
  {
    var f, g, ps := a.focus, b.focus, a.projections;
    forall p
      ensures Relevance(p, f) == Relevance(p, g) && KeyOf(p, f) == KeyOf(p, g)
    {
      SameFocusSameKeys(f, g, p);
    }
    SortCongruence(RankLeq(f), RankLeq(g), ps);
    var k := Packer(ForDecision(a.decisionType), h.canon);
    var kept := Kept(k, Rank(ps, f));
    assert Evidences(k, f, kept) == Evidences(k, g, kept);
  }

  // ---- rows of one source keep their order ------------------------------------

  function OfSource(ref: string, sourceType: string): SourceProjection -> bool {
    (p: SourceProjection) => p.sourceRef == ref && p.sourceType == sourceType
  }

  function RowOfSource(ref: string, sourceType: string): DigestProjection -> bool {
    (d: DigestProjection) => d.sourceRef == ref && d.sourceType == sourceType
  }

  /** The rows of every source stand in the same order in both deliveries. */
  ghost predicate SourcesAgree(ps: seq<SourceProjection>, qs: seq<SourceProjection>) {
    forall ref, t :: Filter(OfSource(ref, t), ps) == Filter(OfSource(ref, t), qs)
  }

  lemma {:induction false} DigestRowsOfSource(ps: seq<SourceProjection>, ref: string, t: string)
    ensures Filter(RowOfSource(ref, t), DigestRows(ps)) == DigestRows(Filter(OfSource(ref, t), ps))
  {
    if ps != [] {
      DigestRowsOfSource(Init(ps), ref, t);
      assert Init(DigestRows(ps)) == DigestRows(Init(ps));
      var earlier := Filter(OfSource(ref, t), Init(ps));
      assert Init(earlier + [Last(ps)]) == earlier && earlier + [] == earlier;
    }
  }

  lemma {:induction false} SameDigestRowsInOrder(h: Hashing, ps: seq<SourceProjection>, qs: seq<SourceProjection>)
    requires CollisionFree(h) && WellHashed(h, ps) && WellHashed(h, qs)
    ensures DigestRows(ps) == DigestRows(qs) <==> ps == qs
  {
    if DigestRows(ps) == DigestRows(qs) {
      if ps != [] && qs != [] {
        assert ps == Init(ps) + [Last(ps)] && qs == Init(qs) + [Last(qs)];
        assert Init(DigestRows(ps)) == DigestRows(Init(ps)) && Init(DigestRows(qs)) == DigestRows(Init(qs));
        assert Last(DigestRows(ps)) == DigestRow(Last(ps)) && Last(DigestRows(qs)) == DigestRow(Last(qs));
        SameDigestRowsInOrder(h, Init(ps), Init(qs));
        DigestRowInjective(h, Last(ps), Last(qs));
      }
    }
  }

  /** Digest rows tie exactly when they come from one source. */
  lemma TieMeansSameSource(a: DigestProjection, b: DigestProjection)
    ensures Tie(RefLeq, a, b) <==> RowOfSource(a.sourceRef, a.sourceType)(b)
  {
    StrTotal(a.sourceType, a.sourceType);
    if Tie(RefLeq, a, b) {
      if a.sourceRef != b.sourceRef {
        StrAntisymmetric(a.sourceRef, b.sourceRef);
      } else {
        StrAntisymmetric(a.sourceType, b.sourceType);
      }
    }
  }

  lemma {:induction false} TiedIsOfSource(ds: seq<DigestProjection>, a: DigestProjection)
    ensures Filter(TiedWith(RefLeq, a), ds) == Filter(RowOfSource(a.sourceRef, a.sourceType), ds)
  {
    if ds != [] {
      TiedIsOfSource(Init(ds), a);
      TieMeansSameSource(a, Last(ds));
    }
  }

  lemma SourceAgrees(h: Hashing, ps: seq<SourceProjection>, qs: seq<SourceProjection>, a: DigestProjection)
    requires CollisionFree(h) && WellHashed(h, ps) && WellHashed(h, qs)
    ensures Filter(TiedWith(RefLeq, a), DigestRows(ps)) == Filter(TiedWith(RefLeq, a), DigestRows(qs))
            <==> Filter(OfSource(a.sourceRef, a.sourceType), ps) == Filter(OfSource(a.sourceRef, a.sourceType), qs)
  {
    TiedIsOfSource(DigestRows(ps), a);
    TiedIsOfSource(DigestRows(qs), a);
    DigestRowsOfSource(ps, a.sourceRef, a.sourceType);
    DigestRowsOfSource(qs, a.sourceRef, a.sourceType);
    FilterMembers(OfSource(a.sourceRef, a.sourceType), ps);
    FilterMembers(OfSource(a.sourceRef, a.sourceType), qs);
    SameDigestRowsInOrder(h, Filter(OfSource(a.sourceRef, a.sourceType), ps), Filter(OfSource(a.sourceRef, a.sourceType), qs));
  }

  /** The sorted digest rows agree exactly when the rows of every source do, in order. */
  lemma SortedRowsAgreeIffSourcesAgree(h: Hashing, ps: seq<SourceProjection>, qs: seq<SourceProjection>)
    requires CollisionFree(h) && WellHashed(h, ps) && WellHashed(h, qs)
    ensures Sort(RefLeq, DigestRows(ps)) == Sort(RefLeq, DigestRows(qs)) <==> SourcesAgree(ps, qs)
  {
    RefLeqIsTotalPreorder();
    SortsAgreeIffClassesAgree(RefLeq, DigestRows(ps), DigestRows(qs));
    forall a
      ensures Filter(TiedWith(RefLeq, a), DigestRows(ps)) == Filter(TiedWith(RefLeq, a), DigestRows(qs))
              <==> Filter(OfSource(a.sourceRef, a.sourceType), ps) == Filter(OfSource(a.sourceRef, a.sourceType), qs)
    {
      SourceAgrees(h, ps, qs, a);
    }
    if ClassesAgree(RefLeq, DigestRows(ps), DigestRows(qs)) {
      forall ref, t
        ensures Filter(OfSource(ref, t), ps) == Filter(OfSource(ref, t), qs)
      {
        var a := DigestProjection(ref, t, T0System, "", "", "");
        SourceAgrees(h, ps, qs, a);
      }
    }
  }

  /**
   The digest says neither too much nor too little: digests agree exactly when the
   system state does and the rows of every source stand in the same order. How rows
   of different sources are interleaved is not digested.
   */
  lemma DigestAgreesIffInputAgrees(h: Hashing, a: Snapshot, b: Snapshot)
    requires CollisionFree(h) && WellHashed(h, a.projections) && WellHashed(h, b.projections)
    ensures SnapshotDigest(h, a) == SnapshotDigest(h, b)
            <==> SystemStateOf(h, a) == SystemStateOf(h, b) && SourcesAgree(a.projections, b.projections)
  {
    SortedRowsAgreeIffSourcesAgree(h, a.projections, b.projections);
    if SnapshotDigest(h, a) == SnapshotDigest(h, b) {
      SameDigestSameRecord(h, a, b);
    }
  }

  /** Rows that share a ranking key come from one source, so they arrive in the same order too. */
  lemma SourcesAgreeTiedRowsAgree(focus: Focus, ps: seq<SourceProjection>, qs: seq<SourceProjection>)
    requires SourcesAgree(ps, qs)
    ensures TiedRowsAgree(focus, ps, qs)
  {
    forall a
      ensures Filter(SameKey(focus, a), ps) == Filter(SameKey(focus, a), qs)
    {
      FilterOfFilter(SameKey(focus, a), OfSource(a.sourceRef, a.sourceType), ps);
      FilterOfFilter(SameKey(focus, a), OfSource(a.sourceRef, a.sourceType), qs);
      assert Filter(OfSource(a.sourceRef, a.sourceType), ps) == Filter(OfSource(a.sourceRef, a.sourceType), qs);
    }
  }

  /**
   Same digest, same evidence: whatever order the collectors delivered the rows in,
   and however many of them share a ranking key, equal digests mean equal evidence,
   truncation flag and provenance.
   */
  lemma SameDigestSameEvidence(h: Hashing, a: Snapshot, b: Snapshot)
    requires CollisionFree(h) && WellHashed(h, a.projections) && WellHashed(h, b.projections)
    requires SnapshotDigest(h, a) == SnapshotDigest(h, b)
    ensures Assemble(h, a) == Assemble(h, b)
  {
    SameDigestSameInput(h, a, b);
    DigestAgreesIffInputAgrees(h, a, b);
    SourcesAgreeTiedRowsAgree(a.focus, a.projections, b.projections);
    RanksAgreeIffTiedRowsAgree(a.focus, a.projections, b.projections);
    var reordered := a.(projections := b.projections);
    assert Assemble(h, a) == Assemble(h, reordered);
    SameFocusSameAssembly(h, reordered, b);
  }

  // ---- what the digest covers, on the snapshots alone --------------------------------

  /** An empty recommendation is no recommendation. */
  function Bound(recommendation: Option<Fields>): Option<Fields> {
    if recommendation == Some(map[]) then None else recommendation
  }

  function RootOf(s: Snapshot): string {
    if s.lineageRootRunId == "" then s.runId else s.lineageRootRunId
  }

  /** Everything about the decision, the run, the plan and the budget; of the references, which and how often. */
  ghost predicate SameSystem(a: Snapshot, b: Snapshot) {
    && a.decisionType == b.decisionType
    && a.runId == b.runId && RootOf(a) == RootOf(b) && a.runStatus == b.runStatus
    && a.planId == b.planId && a.planVersion == b.planVersion && a.goal == b.goal && a.planGoalType == b.planGoalType
    && a.focus.stepId == b.focus.stepId && a.focus.nodeId == b.focus.nodeId
    && multiset(a.focus.explicitRefs) == multiset(b.focus.explicitRefs)
    && Bound(a.criticRecommendation) == Bound(b.criticRecommendation)
    && a.budgetState == b.budgetState
  }

  lemma SortedRefsAgreeIff(xs: seq<string>, ys: seq<string>)
    ensures Sort(StrLeq, xs) == Sort(StrLeq, ys) <==> multiset(xs) == multiset(ys)
  {
    SortPermutes(StrLeq, xs);
    SortPermutes(StrLeq, ys);
    if multiset(xs) == multiset(ys) {
      StrLeqIsTotalOrder(xs);
      SortOrderIndependent(StrLeq, xs, ys);
    }
  }

  lemma StrLeqIsTotalOrder(xs: seq<string>)
    ensures TotalPreorder(StrLeq) && NoTies(StrLeq, xs)
  {
    forall a, b
      ensures StrLeq(a, b) || StrLeq(b, a)
      ensures Tie(StrLeq, a, b) ==> a == b
    {
      StrTotal(a, b);
      if Tie(StrLeq, a, b) {
        StrAntisymmetric(a, b);
      }
    }
    forall a, b, c | StrLeq(a, b) && StrLeq(b, c)
      ensures StrLeq(a, c)
    {
      StrTransitive(a, b, c);
    }
  }

  lemma RecommendationsHashedAlikeIff(h: Hashing, a: Snapshot, b: Snapshot)
    requires CollisionFree(h)
    ensures SystemStateOf(h, a).boundCriticRecommendationHash == SystemStateOf(h, b).boundCriticRecommendationHash
            <==> Bound(a.criticRecommendation) == Bound(b.criticRecommendation)
  {
    var f, g := Bound(a.criticRecommendation), Bound(b.criticRecommendation);
    if f.Some? && g.Some? && ContentHash(h, f.value) == ContentHash(h, g.value) {
      assert h.canon(f.value) == h.canon(g.value);
    }
  }

  lemma SystemStatesAgreeIff(h: Hashing, a: Snapshot, b: Snapshot)
    requires CollisionFree(h)
    ensures SystemStateOf(h, a) == SystemStateOf(h, b) <==> SameSystem(a, b)
  {
    SortedRefsAgreeIff(a.focus.explicitRefs, b.focus.explicitRefs);
    RecommendationsHashedAlikeIff(h, a, b);
    assert h.sha(a.goal) == h.sha(b.goal) <==> a.goal == b.goal;
  }

  /**
   Two snapshots have one digest exactly when they describe the same decision, run, plan,
   goal, status, recommendation and budget, and the rows of every source stand in the
   same order.
   */
  lemma DigestIdentifiesSnapshot(h: Hashing, a: Snapshot, b: Snapshot)
    requires CollisionFree(h) && WellHashed(h, a.projections) && WellHashed(h, b.projections)
    ensures SnapshotDigest(h, a) == SnapshotDigest(h, b)
            <==> SameSystem(a, b) && SourcesAgree(a.projections, b.projections)
  {
    DigestAgreesIffInputAgrees(h, a, b);
    SystemStatesAgreeIff(h, a, b);
  }

  lemma {:induction false} RowIsDigested(ps: seq<SourceProjection>, p: SourceProjection)
    requires p in ps
    ensures DigestRow(p) in DigestRows(ps)
  {
    if p != Last(ps) {
      assert ps == Init(ps) + [Last(ps)];
      RowIsDigested(Init(ps), p);
    }
  }

  /**
   What is hashed: a record that names the versions, the decision, the run, the plan and the
   focus, with one entry per row.
   */
  lemma DigestedRecord(h: Hashing, s: Snapshot) returns (c: Canon)
    ensures SnapshotDigest(h, s) == h.sha(h.canonRecord(c))
    ensures c.normalizerVersion == "srcnorm_v1" && c.assemblerVersion == "dca_v1"
    ensures var y := c.systemState;
            && y.decisionType == s.decisionType && y.runId == s.runId && y.rootRunId == RootOf(s) && y.runStatus == s.runStatus
            && y.planId == s.planId && y.planVersion == s.planVersion && y.planGoalType == s.planGoalType
            && y.goalHash == h.sha(s.goal) && y.budgetState == s.budgetState
            && y.currentStepId == s.focus.stepId && y.currentNodeId == s.focus.nodeId
            && multiset(y.explicitRefs) == multiset(s.focus.explicitRefs)
            && y.boundCriticRecommendationHash
               == (if Bound(s.criticRecommendation).Some? then Some(h.sha(h.canon(Bound(s.criticRecommendation).value))) else None)
    ensures |c.sources| == |s.projections|
    ensures forall p | p in s.projections :: exists d | d in c.sources ::
              && d.sourceRef == p.sourceRef && d.sourceType == p.sourceType && d.trustClass == p.trustClass
              && d.stableContentHash == p.stableContentHash && d.timestamp == p.timestamp && d.nodeId == p.nodeId
  {
    c := Canon("srcnorm_v1", "dca_v1", Sort(RefLeq, DigestRows(s.projections)), SystemStateOf(h, s));
    SortPermutes(StrLeq, s.focus.explicitRefs);
    SortPermutes(RefLeq, DigestRows(s.projections));
    PermutationMembers(c.sources, DigestRows(s.projections));
    OneEntryPerRow(s.projections);
    forall p | p in s.projections
      ensures DigestRow(p) in c.sources
    {
      RowIsDigested(s.projections, p);
    }
  }

  lemma {:induction false} OneEntryPerRow(ps: seq<SourceProjection>)
    ensures |DigestRows(ps)| == |ps|
  {
    if ps != [] {
      OneEntryPerRow(Init(ps));
    }
  }

  /** The evidence of a context is the packed ranking, and no decision spends more than its characters. */
  lemma ContextStaysWithinBudget(h: Hashing, s: Snapshot)
    ensures var total := if s.decisionType.Critic? then 6000 else if s.decisionType.SemanticReplan? then 4000 else 5000;
            var es := Assemble(h, s).evidence;
            && es == Packed(Packer(ForDecision(s.decisionType), h.canon), s.focus, Rank(s.projections, s.focus))
            && Chars(es) <= total
            && 5 * ClassChars(T1Tool, es) <= 2 * total && 4 * ClassChars(T2Agent, es) <= total
            && 20 * ClassChars(T3Knowledge, es) <= 3 * total && 10 * ClassChars(T4External, es) <= total
  {
    SharesHold(Packer(ForDecision(s.decisionType), h.canon), s.focus, Rank(s.projections, s.focus));
  }

  // ---- what a context reports ----------------------------------------------------------

  lemma {:induction false} InsertCounts(leq: (SourceProjection, SourceProjection) -> bool, p: SourceProjection -> bool,
                                        x: SourceProjection, xs: seq<SourceProjection>)
    ensures Count(p, Insert(leq, x, xs)) == Count(p, xs) + (if p(x) then 1 else 0)
  {
    if xs == [] {
      assert Init([x]) == [];
    } else if leq(Last(xs), x) {
      assert Init(xs + [x]) == xs;
    } else {
      InsertCounts(leq, p, x, Init(xs));
      assert Init(Insert(leq, x, Init(xs)) + [Last(xs)]) == Insert(leq, x, Init(xs));
    }
  }

  lemma {:induction false} SortCounts(leq: (SourceProjection, SourceProjection) -> bool, p: SourceProjection -> bool,
                                      xs: seq<SourceProjection>)
    ensures Count(p, Sort(leq, xs)) == Count(p, xs)
  {
    if xs != [] {
      SortCounts(leq, p, Init(xs));
      InsertCounts(leq, p, Last(xs), Sort(leq, Init(xs)));
    }
  }

  lemma RankCounts(ps: seq<SourceProjection>, focus: Focus, t: string)
    ensures Count(OfType(t), Rank(ps, focus)) == Count(OfType(t), ps)
  {
    DiversityKeepsFilter(OfType(t), t, Sort(RankLeq(focus), ps));
    SortCounts(RankLeq(focus), OfType(t), ps);
  }

  function EntryOfType(t: string): EvidenceRef -> bool {
    (e: EvidenceRef) => e.sourceType == t
  }

  lemma {:induction false} EntriesCount(k: Packer, focus: Focus, ps: seq<SourceProjection>, t: string)
    ensures Count(EntryOfType(t), Evidences(k, focus, ps)) == Count(OfType(t), ps)
  {
    if ps != [] {
      EntriesCount(k, focus, Init(ps), t);
      assert Init(Evidences(k, focus, ps)) == Evidences(k, focus, Init(ps));
    }
  }

  /**
   The report of a context counts, for each source type, the rows collected and the entries
   shown, and then the rows left out.
   */
  lemma ContextReportsRows(h: Hashing, s: Snapshot, i: nat)
    requires i < |ALL_SOURCE_TYPES|
    ensures var c, t := Assemble(h, s), ALL_SOURCE_TYPES[i];
            && |c.provenance| == |ALL_SOURCE_TYPES| + 1
            && c.provenance[i] == TypeCount(t, Count(OfType(t), s.projections), Count(EntryOfType(t), c.evidence))
            && Last(c.provenance) == DroppedCount(|s.projections| - |c.evidence|)
  {
    var k, ranked := Packer(ForDecision(s.decisionType), h.canon), Rank(s.projections, s.focus);
    LineOfType(ALL_SOURCE_TYPES, ranked, Kept(k, ranked), i);
    RankCounts(s.projections, s.focus, ALL_SOURCE_TYPES[i]);
    EntriesCount(k, s.focus, Kept(k, ranked), ALL_SOURCE_TYPES[i]);
    ReportConserved(k, ranked);
    RankPermutes(s.projections, s.focus);
    PermutationMembers(ranked, s.projections);
  }

  /** A context is flagged as truncated unless every row is shown, in the order of the ranking and with its full text. */
  lemma ContextTruncatedUnlessComplete(h: Hashing, s: Snapshot)
    ensures |Rank(s.projections, s.focus)| == |s.projections|
    ensures var c := Assemble(h, s);
            !c.truncated
            <==> && |c.evidence| == |s.projections|
                 && forall i | 0 <= i < |s.projections| ::
                      c.evidence[i].summary == h.canon(Rank(s.projections, s.focus)[i].normalizedFields)
  {
    var k, ranked := Packer(ForDecision(s.decisionType), h.canon), Rank(s.projections, s.focus);
    RankPermutes(s.projections, s.focus);
    PermutationMembers(ranked, s.projections);
    UntruncatedIffAllShown(k, s.focus, ranked);
  }
}
