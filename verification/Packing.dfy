/**
 Greedy packing of ranked evidence under a total character budget and a budget
 per trust class. Canonical JSON is a parameter: any function from fields to text.
 The budget ratios are whole percentages of the total.
 */
module Packing {
  import opened Common
  import opened Sorting
  import opened Projections

  datatype DecisionType = Critic | SemanticReplan | Assessment

  datatype ContextBudget = ContextBudget(
    totalChars: nat,
    perEvidenceChars: nat,
    t3ProjectionChars: nat,
    t1Percent: nat,
    t2Percent: nat,
    t3Percent: nat,
    t4Percent: nat
  )

  function ForDecision(d: DecisionType): ContextBudget {
    var total := match d case Critic => 6000 case SemanticReplan => 4000 case Assessment => 5000;
    ContextBudget(total, 400, 200, 40, 25, 15, 10)
  }

  function CapFor(b: ContextBudget, t: TrustClass): nat {
    match t
    case T0System => b.totalChars
    case T1Tool => b.totalChars * b.t1Percent / 100
    case T2Agent => b.totalChars * b.t2Percent / 100
    case T3Knowledge => b.totalChars * b.t3Percent / 100
    case T4External => b.totalChars * b.t4Percent / 100
  }

  /** A packing job: the budget and the canonical JSON encoder in use. */
  datatype Packer = Packer(budget: ContextBudget, canon: Fields -> string)

  datatype EvidenceRef = EvidenceRef(
    evidenceId: string, sourceType: string, sourceRef: string, trustClass: TrustClass,
    summary: string, timestamp: string, relevance: int, contentHash: string)

  datatype DropReason = TotalBudget | TrustSubcap

  datatype Dropped = Dropped(sourceRef: string, reason: DropReason)

  datatype Provenance = TypeCount(sourceType: string, considered: int, selected: int) | DroppedCount(dropped: int)

  const ALL_SOURCE_TYPES: seq<string> := [
    "node_run", "node_output", "event", "action", "approval", "agent_output",
    "risk", "policy_audit", "rag_trace", "memory", "simulation", "error"
  ]

  function PerEvidenceCap(k: Packer, p: SourceProjection): nat {
    if p.trustClass == T3Knowledge then k.budget.t3ProjectionChars else k.budget.perEvidenceChars
  }

  function FullText(k: Packer, p: SourceProjection): string {
    k.canon(p.normalizedFields)
  }

  predicate Cut(k: Packer, p: SourceProjection) {
    |FullText(k, p)| > PerEvidenceCap(k, p)
  }

  function Summary(k: Packer, p: SourceProjection): (s: string)
    ensures |s| <= PerEvidenceCap(k, p) && s <= FullText(k, p)
    ensures s == FullText(k, p) <==> !Cut(k, p)
  {
    if Cut(k, p) then FullText(k, p)[..PerEvidenceCap(k, p)] else FullText(k, p)
  }

  function EvidenceOf(k: Packer, focus: Focus, p: SourceProjection): EvidenceRef {
    EvidenceRef(p.sourceRef, p.sourceType, p.sourceRef, p.trustClass, Summary(k, p), p.timestamp,
                Relevance(p, focus), p.stableContentHash)
  }

  function Evidences(k: Packer, focus: Focus, ps: seq<SourceProjection>): seq<EvidenceRef> {
    seq(|ps|, i requires 0 <= i < |ps| => EvidenceOf(k, focus, ps[i]))
  }

  // ---- what the packer keeps, stated on the rows alone ---------------------

  function Size(k: Packer, ps: seq<SourceProjection>): nat {
    if ps == [] then 0 else Size(k, Init(ps)) + |Summary(k, Last(ps))|
  }

  function ClassSize(k: Packer, t: TrustClass, ps: seq<SourceProjection>): nat {
    if ps == [] then 0
    else ClassSize(k, t, Init(ps)) + (if Last(ps).trustClass == t then |Summary(k, Last(ps))| else 0)
  }

  /** Adding p to the kept rows breaks no budget. */
  predicate FitsTotal(k: Packer, kept: seq<SourceProjection>, p: SourceProjection) {
    Size(k, kept) + |Summary(k, p)| <= k.budget.totalChars
  }

  predicate FitsClass(k: Packer, kept: seq<SourceProjection>, p: SourceProjection) {
    p.trustClass == T0System || ClassSize(k, p.trustClass, kept) + |Summary(k, p)| <= CapFor(k.budget, p.trustClass)
  }

  function Kept(k: Packer, ps: seq<SourceProjection>): seq<SourceProjection> {
    if ps == [] then []
    else
      var prior := Kept(k, Init(ps));
      if FitsTotal(k, prior, Last(ps)) && FitsClass(k, prior, Last(ps)) then prior + [Last(ps)] else prior
  }

  function DroppedRows(k: Packer, ps: seq<SourceProjection>): seq<SourceProjection> {
    if ps == [] then []
    else
      var kept := Kept(k, Init(ps));
      var prior := DroppedRows(k, Init(ps));
      if FitsTotal(k, kept, Last(ps)) && FitsClass(k, kept, Last(ps)) then prior else prior + [Last(ps)]
  }

  function OfType(t: string): SourceProjection -> bool {
    (p: SourceProjection) => p.sourceType == t
  }

  function TypeLines(types: seq<string>, considered: seq<SourceProjection>, selected: seq<SourceProjection>): seq<Provenance> {
    if types == [] then []
    else
      TypeLines(Init(types), considered, selected)
      + [TypeCount(Last(types), Count(OfType(Last(types)), considered), Count(OfType(Last(types)), selected))]
  }

  /** The report line of every known source type, then the number of dropped rows. */
  function ProvenanceOf(k: Packer, ps: seq<SourceProjection>): seq<Provenance> {
    TypeLines(ALL_SOURCE_TYPES, ps, Kept(k, ps)) + [DroppedCount(|DroppedRows(k, ps)|)]
  }

  predicate SomeCut(k: Packer, ps: seq<SourceProjection>) {
    exists p | p in ps :: Cut(k, p)
  }

  function GetOr(m: map<string, int>, key: string): int {
    if key in m then m[key] else 0
  }

  /** A dict of counters agrees with the rows counted so far. */
  ghost predicate CountsTypes(counts: map<string, int>, ps: seq<SourceProjection>) {
    forall st :: GetOr(counts, st) == Count(OfType(st), ps)
  }

  /** The running totals are the sizes of the rows kept so far. */
  ghost predicate CountsSizes(k: Packer, usedTotal: int, usedByTrust: map<TrustClass, int>, kept: seq<SourceProjection>) {
    && usedTotal == Size(k, kept)
    && (forall t :: t in usedByTrust && usedByTrust[t] == ClassSize(k, t, kept))
  }

  lemma NothingUsedYet(k: Packer, used: map<TrustClass, int>)
    requires used == map[T0System := 0, T1Tool := 0, T2Agent := 0, T3Knowledge := 0, T4External := 0]
    ensures CountsSizes(k, 0, used, [])
  {
    forall t: TrustClass
      ensures t in used && used[t] == 0
    {
      match t case T0System => case T1Tool => case T2Agent => case T3Knowledge => case T4External =>
    }
  }

  lemma TypeCounted(counts: map<string, int>, ps: seq<SourceProjection>, p: SourceProjection)
    requires CountsTypes(counts, ps)
    ensures CountsTypes(counts[p.sourceType := GetOr(counts, p.sourceType) + 1], ps + [p])
  {
    assert Init(ps + [p]) == ps;
  }

  lemma SizeCounted(k: Packer, usedTotal: int, used: map<TrustClass, int>, kept: seq<SourceProjection>, p: SourceProjection)
    requires CountsSizes(k, usedTotal, used, kept)
    ensures var size := |Summary(k, p)|;
            CountsSizes(k, usedTotal + size, used[p.trustClass := used[p.trustClass] + size], kept + [p])
  {
    assert Init(kept + [p]) == kept;
  }

  lemma CutsSoFar(k: Packer, ps: seq<SourceProjection>, p: SourceProjection)
    ensures SomeCut(k, ps + [p]) <==> SomeCut(k, ps) || Cut(k, p)
  {
    assert p in ps + [p];
    assert forall x | x in ps :: x in ps + [p];
  }

  lemma EvidencesSnoc(k: Packer, focus: Focus, ps: seq<SourceProjection>, p: SourceProjection)
    ensures Evidences(k, focus, ps + [p]) == Evidences(k, focus, ps) + [EvidenceOf(k, focus, p)]
  {
  }

  method PackEvidence(k: Packer, ordered: seq<SourceProjection>, focus: Focus)
    returns (packed: seq<EvidenceRef>, truncated: bool, provenance: seq<Provenance>)
    ensures packed == Evidences(k, focus, Kept(k, ordered))
    ensures truncated <==> SomeCut(k, ordered) || DroppedRows(k, ordered) != []
    ensures provenance == ProvenanceOf(k, ordered)
  {
    var usedTotal := 0;
    var usedByTrust: map<TrustClass, int> :=
      map[T0System := 0, T1Tool := 0, T2Agent := 0, T3Knowledge := 0, T4External := 0];
    NothingUsedYet(k, usedByTrust);
    packed, truncated := [], false;
    var consideredByType: map<string, int> := map[];
    var selectedByType: map<string, int> := map[];
    var dropped: seq<Dropped> := [];
    ghost var kept: seq<SourceProjection> := [];
    for i := 0 to |ordered|
      invariant kept == Kept(k, ordered[..i])
      invariant packed == Evidences(k, focus, kept)
      invariant CountsSizes(k, usedTotal, usedByTrust, kept)
      invariant CountsTypes(consideredByType, ordered[..i]) && CountsTypes(selectedByType, kept)
      invariant |dropped| == |DroppedRows(k, ordered[..i])|
      invariant truncated <==> SomeCut(k, ordered[..i]) || dropped != []
    {
      var p := ordered[i];
      ghost var seen := ordered[..i];
      assert ordered[..i + 1] == seen + [p] && Init(seen + [p]) == seen;
      CutsSoFar(k, seen, p);
      TypeCounted(consideredByType, seen, p);
      consideredByType := consideredByType[p.sourceType := GetOr(consideredByType, p.sourceType) + 1];
      var summary := Summary(k, p);
      if Cut(k, p) {
        truncated := true;
      }
      var size := |summary|;
      if usedTotal + size > k.budget.totalChars {
        truncated := true;
        dropped := dropped + [Dropped(p.sourceRef, TotalBudget)];
      } else if p.trustClass != T0System && usedByTrust[p.trustClass] + size > CapFor(k.budget, p.trustClass) {
        truncated := true;
        dropped := dropped + [Dropped(p.sourceRef, TrustSubcap)];
      } else {
        SizeCounted(k, usedTotal, usedByTrust, kept, p);
        TypeCounted(selectedByType, kept, p);
        EvidencesSnoc(k, focus, kept, p);
        usedTotal := usedTotal + size;
        usedByTrust := usedByTrust[p.trustClass := usedByTrust[p.trustClass] + size];
        selectedByType := selectedByType[p.sourceType := GetOr(selectedByType, p.sourceType) + 1];
        packed := packed + [EvidenceOf(k, focus, p)];
        kept := kept + [p];
      }
    }
    assert ordered[..|ordered|] == ordered;
    provenance := BuildTypeLines(ALL_SOURCE_TYPES, consideredByType, selectedByType, ordered, kept);
    provenance := provenance + [DroppedCount(|dropped|)];
  }

  method BuildTypeLines(
    types: seq<string>, considered: map<string, int>, selected: map<string, int>,
    ghost ps: seq<SourceProjection>, ghost kept: seq<SourceProjection>)
    returns (report: seq<Provenance>)
    requires CountsTypes(considered, ps) && CountsTypes(selected, kept)
    ensures report == TypeLines(types, ps, kept)
  {
    report := [];
    for j := 0 to |types|
      invariant report == TypeLines(types[..j], ps, kept)
    {
      var st := types[j];
      assert types[..j + 1] == types[..j] + [st] && Init(types[..j + 1]) == types[..j];
      report := report + [TypeCount(st, GetOr(considered, st), GetOr(selected, st))];
    }
    assert types[..|types|] == types;
  }

  // ---- what the packing guarantees ----------------------------------------

  /** xs is what remains of ys after deleting some of its elements. */
  ghost predicate Subsequence<T>(xs: seq<T>, ys: seq<T>) {
    if xs == [] then true
    else if ys == [] then false
    else (Last(xs) == Last(ys) && Subsequence(Init(xs), Init(ys))) || Subsequence(xs, Init(ys))
  }

  /** Nothing exceeds its budget: the total, every capped class, every single summary. */
  lemma {:induction false} PackingBounded(k: Packer, focus: Focus, ps: seq<SourceProjection>)
    ensures Size(k, Kept(k, ps)) <= k.budget.totalChars
    ensures forall t | t != T0System :: ClassSize(k, t, Kept(k, ps)) <= CapFor(k.budget, t)
    ensures Subsequence(Kept(k, ps), ps)
    ensures forall e | e in Evidences(k, focus, Kept(k, ps)) ::
              |e.summary| <= if e.trustClass == T3Knowledge then k.budget.t3ProjectionChars else k.budget.perEvidenceChars
  {
    if ps != [] {
      PackingBounded(k, focus, Init(ps));
      var prior, p := Kept(k, Init(ps)), Last(ps);
      if FitsTotal(k, prior, p) && FitsClass(k, prior, p) {
        assert Init(prior + [p]) == prior;
      }
    }
  }

  /** Used budgets only grow along the input. */
  lemma {:induction false} KeptGrows(k: Packer, ps: seq<SourceProjection>, t: TrustClass)
    requires ps != []
    ensures Size(k, Kept(k, Init(ps))) <= Size(k, Kept(k, ps))
    ensures ClassSize(k, t, Kept(k, Init(ps))) <= ClassSize(k, t, Kept(k, ps))
  {
    var prior, p := Kept(k, Init(ps)), Last(ps);
    if FitsTotal(k, prior, p) && FitsClass(k, prior, p) {
      assert Init(prior + [p]) == prior;
    }
  }

  /** Adding any dropped row to the final selection would break a budget. */
  lemma {:induction false} PackingMaximal(k: Packer, ps: seq<SourceProjection>, d: SourceProjection)
    requires d in DroppedRows(k, ps)
    ensures !FitsTotal(k, Kept(k, ps), d) || !FitsClass(k, Kept(k, ps), d)
  {
    KeptGrows(k, ps, d.trustClass);
    if d in DroppedRows(k, Init(ps)) {
      PackingMaximal(k, Init(ps), d);
    }
  }

  /** Every row is either kept or dropped, never both and never twice. */
  lemma {:induction false} PackingPartitions(k: Packer, ps: seq<SourceProjection>)
    ensures multiset(Kept(k, ps)) + multiset(DroppedRows(k, ps)) == multiset(ps)
    ensures |Kept(k, ps)| + |DroppedRows(k, ps)| == |ps|
  {
    if ps != [] {
      PackingPartitions(k, Init(ps));
      SplitLast(ps);
    }
  }

  /** Nothing is flagged as truncated exactly when every row is packed with its full text. */
  lemma UntruncatedIffComplete(k: Packer, focus: Focus, ps: seq<SourceProjection>)
    ensures !(SomeCut(k, ps) || DroppedRows(k, ps) != [])
            <==> && Kept(k, ps) == ps
                 && (forall i | 0 <= i < |ps| :: Evidences(k, focus, ps)[i].summary == FullText(k, ps[i]))
  {
    PackingPartitions(k, ps);
    if DroppedRows(k, ps) == [] {
      NothingDroppedKeepsAll(k, ps);
    }
    if SomeCut(k, ps) {
      var p :| p in ps && Cut(k, p);
      var i :| 0 <= i < |ps| && ps[i] == p;
      assert Evidences(k, focus, ps)[i].summary == Summary(k, p);
    }
  }

  lemma {:induction false} NothingDroppedKeepsAll(k: Packer, ps: seq<SourceProjection>)
    requires DroppedRows(k, ps) == []
    ensures Kept(k, ps) == ps
  {
    if ps != [] {
      var prior, p := Init(ps), Last(ps);
      assert FitsTotal(k, Kept(k, prior), p) && FitsClass(k, Kept(k, prior), p);
      NothingDroppedKeepsAll(k, prior);
      assert prior + [p] == ps;
    }
  }

  // ---- the report accounts for every row ----------------------------------

  predicate KnownType(p: SourceProjection) {
    p.sourceType in ALL_SOURCE_TYPES
  }

  function CountsOver(types: seq<string>, ps: seq<SourceProjection>): seq<int> {
    seq(|types|, i requires 0 <= i < |types| => Count(OfType(types[i]), ps))
  }

  /** One more row raises the count of its own type by one, if that type is listed. */
  lemma {:induction false} CountsStep(types: seq<string>, ps: seq<SourceProjection>)
    requires ps != [] && Distinct(types)
    ensures Sum(CountsOver(types, ps))
            == Sum(CountsOver(types, Init(ps))) + (if Last(ps).sourceType in types then 1 else 0)
  {
    if types != [] {
      CountsStep(Init(types), ps);
      assert Init(CountsOver(types, ps)) == CountsOver(Init(types), ps);
      assert Init(CountsOver(types, Init(ps))) == CountsOver(Init(types), Init(ps));
      assert types == Init(types) + [Last(types)];
    } else {
      assert CountsOver(types, ps) == [] && CountsOver(types, Init(ps)) == [];
    }
  }

  lemma {:induction false} CountsCover(types: seq<string>, ps: seq<SourceProjection>)
    requires Distinct(types)
    ensures Sum(CountsOver(types, ps)) == |Filter((p: SourceProjection) => p.sourceType in types, ps)|
  {
    if ps == [] {
      AllZero(CountsOver(types, ps));
    } else {
      CountsCover(types, Init(ps));
      CountsStep(types, ps);
    }
  }

  lemma {:induction false} AllZero(xs: seq<int>)
    requires forall i | 0 <= i < |xs| :: xs[i] == 0
    ensures Sum(xs) == 0
  {
    if xs != [] {
      AllZero(Init(xs));
    }
  }

  lemma {:induction false} FilterAllIff<T>(p: T -> bool, xs: seq<T>)
    ensures |Filter(p, xs)| <= |xs|
    ensures |Filter(p, xs)| == |xs| <==> forall x | x in xs :: p(x)
  {
    if xs != [] {
      FilterAllIff(p, Init(xs));
      assert xs == Init(xs) + [Last(xs)];
    }
  }

  function ConsideredTotal(report: seq<Provenance>): int {
    if report == [] then 0
    else ConsideredTotal(Init(report)) + (if Last(report).TypeCount? then Last(report).considered else 0)
  }

  function SelectedTotal(report: seq<Provenance>): int {
    if report == [] then 0
    else SelectedTotal(Init(report)) + (if Last(report).TypeCount? then Last(report).selected else 0)
  }

  lemma {:induction false} LinesTotal(types: seq<string>, ps: seq<SourceProjection>, kept: seq<SourceProjection>)
    ensures ConsideredTotal(TypeLines(types, ps, kept)) == Sum(CountsOver(types, ps))
    ensures SelectedTotal(TypeLines(types, ps, kept)) == Sum(CountsOver(types, kept))
  {
    if types != [] {
      LinesTotal(Init(types), ps, kept);
      var lines := TypeLines(types, ps, kept);
      assert Init(lines) == TypeLines(Init(types), ps, kept);
      assert Init(CountsOver(types, ps)) == CountsOver(Init(types), ps);
      assert Init(CountsOver(types, kept)) == CountsOver(Init(types), kept);
    }
  }

  lemma SourceTypesDistinct()
    ensures Distinct(ALL_SOURCE_TYPES)
  {
  }

  /** The twelve source types the collectors know. */
  lemma KnownTypeIff(p: SourceProjection)
    ensures KnownType(p)
       <==> p.sourceType in {"node_run", "node_output", "event", "action", "approval", "agent_output",
                             "risk", "policy_audit", "rag_trace", "memory", "simulation", "error"}
  {
  }

  /**
   The report is conserved: dropped is the input length less the output length,
   and the considered counts add up to the input length exactly when every row
   has one of the twelve known source types (the report has no line for others).
   */
  lemma ReportConserved(k: Packer, ps: seq<SourceProjection>)
    ensures Last(ProvenanceOf(k, ps)) == DroppedCount(|ps| - |Kept(k, ps)|)
    ensures ConsideredTotal(ProvenanceOf(k, ps)) == |ps| <==> forall p | p in ps :: KnownType(p)
    ensures SelectedTotal(ProvenanceOf(k, ps)) == |Kept(k, ps)| <==> forall p | p in Kept(k, ps) :: KnownType(p)
  {
    PackingPartitions(k, ps);
    SourceTypesDistinct();
    var report := ProvenanceOf(k, ps);
    var types := ALL_SOURCE_TYPES;
    assert Init(report) == TypeLines(types, ps, Kept(k, ps));
    LinesTotal(types, ps, Kept(k, ps));
    CountsCover(types, ps);
    CountsCover(types, Kept(k, ps));
    var known := (p: SourceProjection) => p.sourceType in types;
    FilterAllIff(known, ps);
    FilterAllIff(known, Kept(k, ps));
  }

  // ---- what the packed entries add up to --------------------------------------

  function Chars(es: seq<EvidenceRef>): nat {
    if es == [] then 0 else Chars(Init(es)) + |Last(es).summary|
  }

  function OfClass(t: TrustClass): EvidenceRef -> bool {
    (e: EvidenceRef) => e.trustClass == t
  }

  function ClassChars(t: TrustClass, es: seq<EvidenceRef>): nat {
    Chars(Filter(OfClass(t), es))
  }

  function Packed(k: Packer, focus: Focus, ps: seq<SourceProjection>): seq<EvidenceRef> {
    Evidences(k, focus, Kept(k, ps))
  }

  /** The characters a row takes: its canonical text, cut at the cap of its class. */
  function Needs(k: Packer, p: SourceProjection): nat {
    var full := |k.canon(p.normalizedFields)|;
    var cap := if p.trustClass.T3Knowledge? then k.budget.t3ProjectionChars else k.budget.perEvidenceChars;
    if full <= cap then full else cap
  }

  /** Whether there is room for a row beside these entries, in the numbers of the budget. */
  predicate HasRoom(k: Packer, es: seq<EvidenceRef>, p: SourceProjection) {
    && Chars(es) + Needs(k, p) <= k.budget.totalChars
    && (p.trustClass == T1Tool ==>
          100 * (ClassChars(T1Tool, es) + Needs(k, p)) <= k.budget.totalChars * k.budget.t1Percent)
    && (p.trustClass == T2Agent ==>
          100 * (ClassChars(T2Agent, es) + Needs(k, p)) <= k.budget.totalChars * k.budget.t2Percent)
    && (p.trustClass == T3Knowledge ==>
          100 * (ClassChars(T3Knowledge, es) + Needs(k, p)) <= k.budget.totalChars * k.budget.t3Percent)
    && (p.trustClass == T4External ==>
          100 * (ClassChars(T4External, es) + Needs(k, p)) <= k.budget.totalChars * k.budget.t4Percent)
  }

  /** An entry of the output says of its row what the row says of itself, and shows the start of its text. */
  lemma EntryDescribesItsRow(k: Packer, focus: Focus, ps: seq<SourceProjection>, i: nat)
    requires i < |Kept(k, ps)|
    ensures |Packed(k, focus, ps)| == |Kept(k, ps)|
    ensures var e, p := Packed(k, focus, ps)[i], Kept(k, ps)[i];
            && e.evidenceId == e.sourceRef == p.sourceRef && e.sourceType == p.sourceType && e.trustClass == p.trustClass
            && e.timestamp == p.timestamp && e.relevance == Relevance(p, focus) && e.contentHash == p.stableContentHash
            && e.summary <= k.canon(p.normalizedFields) && |e.summary| == Needs(k, p)
  {
  }

  lemma {:induction false} SizesAreChars(k: Packer, focus: Focus, ps: seq<SourceProjection>, t: TrustClass)
    ensures Size(k, ps) == Chars(Evidences(k, focus, ps))
    ensures ClassSize(k, t, ps) == ClassChars(t, Evidences(k, focus, ps))
  {
    if ps != [] {
      var es := Evidences(k, focus, ps);
      SizesAreChars(k, focus, Init(ps), t);
      assert Init(es) == Evidences(k, focus, Init(ps));
      var earlier := Filter(OfClass(t), Init(es));
      assert Init(earlier + [Last(es)]) == earlier && earlier + [] == earlier;
    } else {
      assert Evidences(k, focus, ps) == [];
    }
  }

  /** A cap rounded down is kept exactly when the percentage is. */
  lemma WithinCapIff(total: nat, percent: nat, size: nat)
    ensures size <= total * percent / 100 <==> 100 * size <= total * percent
  {
  }

  lemma FitsIffHasRoom(k: Packer, focus: Focus, kept: seq<SourceProjection>, p: SourceProjection)
    ensures FitsTotal(k, kept, p) && FitsClass(k, kept, p) <==> HasRoom(k, Evidences(k, focus, kept), p)
  {
    SizesAreChars(k, focus, kept, p.trustClass);
    var b, size := k.budget, ClassSize(k, p.trustClass, kept) + |Summary(k, p)|;
    WithinCapIff(b.totalChars, b.t1Percent, size);
    WithinCapIff(b.totalChars, b.t2Percent, size);
    WithinCapIff(b.totalChars, b.t3Percent, size);
    WithinCapIff(b.totalChars, b.t4Percent, size);
  }

  /** One row more: it is packed behind the others exactly when there is room, and otherwise changes nothing. */
  lemma RowIsPackedIffRoom(k: Packer, focus: Focus, ps: seq<SourceProjection>, p: SourceProjection)
    ensures Kept(k, ps + [p]) == if HasRoom(k, Packed(k, focus, ps), p) then Kept(k, ps) + [p] else Kept(k, ps)
    ensures DroppedRows(k, ps + [p]) == if HasRoom(k, Packed(k, focus, ps), p) then DroppedRows(k, ps) else DroppedRows(k, ps) + [p]
  {
    assert Init(ps + [p]) == ps;
    FitsIffHasRoom(k, focus, Kept(k, ps), p);
  }

  /** Whatever is packed, in all and of each class, stays within its share of the budget. */
  lemma SharesHold(k: Packer, focus: Focus, ps: seq<SourceProjection>)
    ensures var b, es := k.budget, Packed(k, focus, ps);
            && Chars(es) <= b.totalChars
            && 100 * ClassChars(T1Tool, es) <= b.totalChars * b.t1Percent
            && 100 * ClassChars(T2Agent, es) <= b.totalChars * b.t2Percent
            && 100 * ClassChars(T3Knowledge, es) <= b.totalChars * b.t3Percent
            && 100 * ClassChars(T4External, es) <= b.totalChars * b.t4Percent
  {
    var b := k.budget;
    PackingBounded(k, focus, ps);
    ShareHolds(k, focus, ps, T1Tool, b.t1Percent);
    ShareHolds(k, focus, ps, T2Agent, b.t2Percent);
    ShareHolds(k, focus, ps, T3Knowledge, b.t3Percent);
    ShareHolds(k, focus, ps, T4External, b.t4Percent);
  }

  lemma ShareHolds(k: Packer, focus: Focus, ps: seq<SourceProjection>, t: TrustClass, percent: nat)
    requires ClassSize(k, t, Kept(k, ps)) <= CapFor(k.budget, t) <= k.budget.totalChars * percent / 100
    ensures 100 * ClassChars(t, Packed(k, focus, ps)) <= k.budget.totalChars * percent
    ensures Size(k, Kept(k, ps)) == Chars(Packed(k, focus, ps))
  {
    SizesAreChars(k, focus, Kept(k, ps), t);
    WithinCapIff(k.budget.totalChars, percent, ClassSize(k, t, Kept(k, ps)));
  }

  /** A dropped row has no room beside the final selection either. */
  lemma DroppedRowHasNoRoom(k: Packer, focus: Focus, ps: seq<SourceProjection>, d: SourceProjection)
    requires d in DroppedRows(k, ps)
    ensures !HasRoom(k, Packed(k, focus, ps), d)
  {
    PackingMaximal(k, ps, d);
    FitsIffHasRoom(k, focus, Kept(k, ps), d);
  }

  /** Nothing is flagged exactly when there are as many entries as rows, each with the full text of its row. */
  lemma UntruncatedIffAllShown(k: Packer, focus: Focus, ps: seq<SourceProjection>)
    ensures !(SomeCut(k, ps) || DroppedRows(k, ps) != [])
       <==> && |Packed(k, focus, ps)| == |ps|
            && forall i | 0 <= i < |ps| :: Packed(k, focus, ps)[i].summary == k.canon(ps[i].normalizedFields)
  {
    UntruncatedIffComplete(k, focus, ps);
    PackingPartitions(k, ps);
    if DroppedRows(k, ps) == [] {
      NothingDroppedKeepsAll(k, ps);
    }
  }

  /** The report has one line for each source type, which counts its rows before and after packing. */
  lemma ReportCountsEachType(k: Packer, ps: seq<SourceProjection>, i: nat)
    requires i < |ALL_SOURCE_TYPES|
    ensures var t := ALL_SOURCE_TYPES[i];
            && |ProvenanceOf(k, ps)| == |ALL_SOURCE_TYPES| + 1
            && ProvenanceOf(k, ps)[i]
               == TypeCount(t, |Filter((p: SourceProjection) => p.sourceType == t, ps)|,
                            |Filter((p: SourceProjection) => p.sourceType == t, Kept(k, ps))|)
  {
    LineOfType(ALL_SOURCE_TYPES, ps, Kept(k, ps), i);
  }

  lemma {:induction false} LineOfType(types: seq<string>, ps: seq<SourceProjection>, kept: seq<SourceProjection>, i: nat)
    requires i < |types|
    ensures |TypeLines(types, ps, kept)| == |types|
    ensures TypeLines(types, ps, kept)[i] == TypeCount(types[i], Count(OfType(types[i]), ps), Count(OfType(types[i]), kept))
  {
    if i < |types| - 1 {
      LineOfType(Init(types), ps, kept, i);
    } else if i > 0 {
      LineOfType(Init(types), ps, kept, i - 1);
    }
  }

  /**
   The numbers of the three decisions: 6000, 4000 or 5000 characters in all, 400 for a row
   and 200 for knowledge, and for the classes T1 to T4 two fifths, a quarter, three
   twentieths and a tenth of the total.
   */
  lemma DecisionHasRoomIff(d: DecisionType, canon: Fields -> string, es: seq<EvidenceRef>, p: SourceProjection)
    ensures var total := if d.Critic? then 6000 else if d.SemanticReplan? then 4000 else 5000;
            var cap := if p.trustClass.T3Knowledge? then 200 else 400;
            var text := |canon(p.normalizedFields)|;
            var size := if text <= cap then text else cap;
            HasRoom(Packer(ForDecision(d), canon), es, p)
            <==> && Chars(es) + size <= total
                 && (p.trustClass.T1Tool? ==> 5 * (ClassChars(T1Tool, es) + size) <= 2 * total)
                 && (p.trustClass.T2Agent? ==> 4 * (ClassChars(T2Agent, es) + size) <= total)
                 && (p.trustClass.T3Knowledge? ==> 20 * (ClassChars(T3Knowledge, es) + size) <= 3 * total)
                 && (p.trustClass.T4External? ==> 10 * (ClassChars(T4External, es) + size) <= total)
  {
  }
}
