/**
 Deterministic evidence ranking: a sort by ranking key followed by a source
 diversity pass that promotes the best row of every source type.
 */
module Ranking {
  import opened Common
  import opened Sorting
  import opened Projections

  function RankLeq(focus: Focus): (SourceProjection, SourceProjection) -> bool {
    (p, q) => KeyLeq(KeyOf(p, focus), KeyOf(q, focus))
  }

  /** The ranking key is a total key: it orders every pair of rows. */
  lemma RankLeqIsTotalPreorder(focus: Focus)
    ensures TotalPreorder(RankLeq(focus))
  {
    var leq := RankLeq(focus);
    forall a, b
      ensures leq(a, b) || leq(b, a)
    {
      KeyTotal(KeyOf(a, focus), KeyOf(b, focus));
    }
    forall a, b, c | leq(a, b) && leq(b, c)
      ensures leq(a, c)
    {
      KeyTransitive(KeyOf(a, focus), KeyOf(b, focus), KeyOf(c, focus));
    }
  }

  /** Rows tie exactly when their whole ranking keys coincide. */
  lemma TieMeansSameKey(focus: Focus, a: SourceProjection, b: SourceProjection)
    ensures Tie(RankLeq(focus), a, b) <==> KeyOf(a, focus) == KeyOf(b, focus)
  {
    KeyTotal(KeyOf(a, focus), KeyOf(a, focus));
    if Tie(RankLeq(focus), a, b) {
      KeyAntisymmetric(KeyOf(a, focus), KeyOf(b, focus));
    }
  }

  function TypesOf(ps: seq<SourceProjection>): set<string> {
    set p | p in ps :: p.sourceType
  }

  /** The rows the diversity pass promotes: the first of each source type. */
  function Firsts(ps: seq<SourceProjection>): seq<SourceProjection> {
    if ps == [] then []
    else if Last(ps).sourceType in TypesOf(Init(ps)) then Firsts(Init(ps))
    else Firsts(Init(ps)) + [Last(ps)]
  }

  /** The rows the diversity pass leaves for afterwards. */
  function Rests(ps: seq<SourceProjection>): seq<SourceProjection> {
    if ps == [] then []
    else if Last(ps).sourceType in TypesOf(Init(ps)) then Rests(Init(ps)) + [Last(ps)]
    else Rests(Init(ps))
  }

  function Rank(ps: seq<SourceProjection>, focus: Focus): seq<SourceProjection> {
    var ordered := Sort(RankLeq(focus), ps);
    Firsts(ordered) + Rests(ordered)
  }

  method RankProjections(ps: seq<SourceProjection>, focus: Focus) returns (ranked: seq<SourceProjection>)
    ensures ranked == Rank(ps, focus)
  {
    var ordered := Sort(RankLeq(focus), ps);
    var seen: set<string> := {};
    var firstPass: seq<SourceProjection> := [];
    var rest: seq<SourceProjection> := [];
    for i := 0 to |ordered|
      invariant seen == TypesOf(ordered[..i])
      invariant firstPass == Firsts(ordered[..i])
      invariant rest == Rests(ordered[..i])
    {
      var p := ordered[i];
      assert Init(ordered[..i + 1]) == ordered[..i];
      TypesOfSnoc(ordered[..i + 1]);
      if p.sourceType !in seen {
        seen := seen + {p.sourceType};
        firstPass := firstPass + [p];
      } else {
        rest := rest + [p];
      }
    }
    assert ordered[..|ordered|] == ordered;
    ranked := firstPass + rest;
  }

  lemma TypesOfSnoc(ps: seq<SourceProjection>)
    requires ps != []
    ensures TypesOf(ps) == TypesOf(Init(ps)) + {Last(ps).sourceType}
  {
    assert ps == Init(ps) + [Last(ps)];
    assert Last(ps) in ps;
  }

  // ---- the diversity pass -------------------------------------------------

  lemma {:induction false} DiversityPermutes(ps: seq<SourceProjection>)
    ensures multiset(Firsts(ps)) + multiset(Rests(ps)) == multiset(ps)
  {
    if ps != [] {
      DiversityPermutes(Init(ps));
      SplitLast(ps);
    }
  }

  lemma {:induction false} RestsTypes(ps: seq<SourceProjection>)
    ensures TypesOf(Rests(ps)) <= TypesOf(ps)
  {
    DiversityPermutes(ps);
    forall p | p in Rests(ps)
      ensures p in ps
    {
      assert p in multiset(Rests(ps));
      assert p in multiset(ps);
    }
  }

  /** The promoted rows carry every source type exactly once, and each is the first of its type. */
  lemma {:induction false} FirstsCoverTypes(ps: seq<SourceProjection>)
    ensures TypesOf(Firsts(ps)) == TypesOf(ps)
    ensures |Firsts(ps)| == |TypesOf(ps)|
  {
    if ps != [] {
      FirstsCoverTypes(Init(ps));
      TypesOfSnoc(ps);
      if Last(ps).sourceType !in TypesOf(Init(ps)) {
        TypesOfSnoc(Firsts(ps));
        assert Init(Firsts(ps)) == Firsts(Init(ps));
      }
    }
  }

  lemma DiversityMembers(ps: seq<SourceProjection>)
    ensures forall p :: p in Firsts(ps) || p in Rests(ps) <==> p in ps
  {
    DiversityPermutes(ps);
    PermutationMembers(Firsts(ps) + Rests(ps), ps);
    forall p
      ensures p in Firsts(ps) || p in Rests(ps) <==> p in ps
    {
      assert p in Firsts(ps) + Rests(ps) <==> p in Firsts(ps) || p in Rests(ps);
    }
  }

  lemma SortedSnoc(leq: (SourceProjection, SourceProjection) -> bool, xs: seq<SourceProjection>, x: SourceProjection)
    requires Sorted(leq, xs) && forall y | y in xs :: leq(y, x)
    ensures Sorted(leq, xs + [x])
  {
  }

  lemma {:induction false} DiversityKeepsSorted(
    leq: (SourceProjection, SourceProjection) -> bool, ps: seq<SourceProjection>)
    requires TotalPreorder(leq) && Sorted(leq, ps)
    ensures Sorted(leq, Firsts(ps)) && Sorted(leq, Rests(ps))
  {
    if ps != [] {
      DiversityKeepsSorted(leq, Init(ps));
      DiversityMembers(Init(ps));
      SortedLastIsTop(leq, ps);
      if Last(ps).sourceType in TypesOf(Init(ps)) {
        SortedSnoc(leq, Rests(Init(ps)), Last(ps));
      } else {
        SortedSnoc(leq, Firsts(Init(ps)), Last(ps));
      }
    }
  }

  lemma {:induction false} FirstsAreBest(
    leq: (SourceProjection, SourceProjection) -> bool, ps: seq<SourceProjection>,
    f: SourceProjection, p: SourceProjection)
    requires TotalPreorder(leq) && Sorted(leq, ps)
    requires f in Firsts(ps) && p in ps && f.sourceType == p.sourceType
    ensures leq(f, p)
  {
    DiversityMembers(ps);
    SortedLastIsTop(leq, ps);
    if p in Init(ps) && f in Firsts(Init(ps)) {
      FirstsAreBest(leq, Init(ps), f, p);
    }
  }

  /** Rows singled out by a property of one source type keep their relative order. */
  lemma {:induction false} DiversityKeepsTypeOrder(p: SourceProjection -> bool, t: string, ps: seq<SourceProjection>)
    requires forall x | p(x) :: x.sourceType == t
    ensures Filter(p, Firsts(ps)) + Filter(p, Rests(ps)) == Filter(p, ps)
  {
    if ps != [] {
      var before, x := Init(ps), Last(ps);
      DiversityKeepsTypeOrder(p, t, before);
      var kept := if p(x) then [x] else [];
      if x.sourceType in TypesOf(before) {
        FilterSnoc(p, Rests(before), x);
        Regroup(Filter(p, Firsts(before)), Filter(p, Rests(before)), kept);
      } else {
        FilterSnoc(p, Firsts(before), x);
        NoRestOfNewType(p, t, before, x);
        MovePast(Filter(p, Firsts(before)), Filter(p, Rests(before)), kept);
      }
    }
  }

  lemma NoRestOfNewType(p: SourceProjection -> bool, t: string, before: seq<SourceProjection>, x: SourceProjection)
    requires (forall y | p(y) :: y.sourceType == t) && x.sourceType !in TypesOf(before)
    ensures p(x) ==> Filter(p, Rests(before)) == []
  {
    if p(x) {
      RestsTypes(before);
      FilterNone(p, Rests(before));
    }
  }

  lemma MovePast(a: seq<SourceProjection>, b: seq<SourceProjection>, kept: seq<SourceProjection>)
    requires b == [] || kept == []
    ensures (a + kept) + b == (a + b) + kept
  {
    assert b == [] ==> (a + kept) + b == a + kept && a + b == a;
    assert kept == [] ==> a + kept == a && (a + b) + kept == a + b;
  }

  lemma Regroup(a: seq<SourceProjection>, b: seq<SourceProjection>, c: seq<SourceProjection>)
    ensures a + (b + c) == (a + b) + c
  {
  }

  lemma FilterSnoc(p: SourceProjection -> bool, xs: seq<SourceProjection>, x: SourceProjection)
    ensures Filter(p, xs + [x]) == Filter(p, xs) + (if p(x) then [x] else [])
  {
    assert Init(xs + [x]) == xs;
  }

  lemma DiversityKeepsFilter(p: SourceProjection -> bool, t: string, ps: seq<SourceProjection>)
    requires forall x | p(x) :: x.sourceType == t
    ensures Filter(p, Firsts(ps) + Rests(ps)) == Filter(p, ps)
  {
    DiversityKeepsTypeOrder(p, t, ps);
    FilterAppend(p, Firsts(ps), Rests(ps));
  }

  // ---- the ranking --------------------------------------------------------

  lemma RankPermutes(ps: seq<SourceProjection>, focus: Focus)
    ensures multiset(Rank(ps, focus)) == multiset(ps)
  {
    SortPermutes(RankLeq(focus), ps);
    DiversityPermutes(Sort(RankLeq(focus), ps));
  }

  /**
   The first k rows, k the number of source types present, carry each type once
   and are the best-ranked rows of their types, best first; the remaining rows
   follow in ranking order.
   */
  lemma RankLeadsWithBestOfEachType(ps: seq<SourceProjection>, focus: Focus)
    ensures var k := |TypesOf(ps)|; var ranked := Rank(ps, focus);
            && k <= |ranked|
            && TypesOf(ranked[..k]) == TypesOf(ps)
            && (forall i, p | 0 <= i < k && p in ps && p.sourceType == ranked[i].sourceType ::
                 KeyLeq(KeyOf(ranked[i], focus), KeyOf(p, focus)))
            && Sorted(RankLeq(focus), ranked[..k])
            && Sorted(RankLeq(focus), ranked[k..])
  {
    var leq := RankLeq(focus);
    var ordered := Sort(leq, ps);
    RankLeqIsTotalPreorder(focus);
    SortSorts(leq, ps);
    SortPermutes(leq, ps);
    PermutationMembers(ordered, ps);
    FirstsCoverTypes(ordered);
    DiversityKeepsSorted(leq, ordered);
    assert TypesOf(ordered) == TypesOf(ps);
    var k, ranked := |TypesOf(ps)|, Rank(ps, focus);
    assert ranked[..k] == Firsts(ordered) && ranked[k..] == Rests(ordered);
    forall i, p | 0 <= i < k && p in ps && p.sourceType == ranked[i].sourceType
      ensures KeyLeq(KeyOf(ranked[i], focus), KeyOf(p, focus))
    {
      assert ranked[i] == Firsts(ordered)[i];
      FirstsAreBest(leq, ordered, ranked[i], p);
    }
  }

  /** Within one source type the ranking is exactly the sorted order. */
  lemma RankKeepsOrderWithinType(ps: seq<SourceProjection>, focus: Focus, t: string)
    ensures var ofType := (p: SourceProjection) => p.sourceType == t;
            Filter(ofType, Rank(ps, focus)) == Filter(ofType, Sort(RankLeq(focus), ps))
  {
    DiversityKeepsFilter((p: SourceProjection) => p.sourceType == t, t, Sort(RankLeq(focus), ps));
  }

  ghost predicate KeysIdentifyRows(ps: seq<SourceProjection>, focus: Focus) {
    forall a, b | a in ps && b in ps && KeyOf(a, focus) == KeyOf(b, focus) :: a == b
  }

  lemma KeysIdentifyRowsIsNoTies(ps: seq<SourceProjection>, focus: Focus)
    ensures KeysIdentifyRows(ps, focus) <==> NoTies(RankLeq(focus), ps)
  {
    forall a, b | a in ps && b in ps
      ensures Tie(RankLeq(focus), a, b) <==> KeyOf(a, focus) == KeyOf(b, focus)
    {
      TieMeansSameKey(focus, a, b);
    }
  }

  lemma RankOrderIndependent(ps: seq<SourceProjection>, qs: seq<SourceProjection>, focus: Focus)
    requires KeysIdentifyRows(ps, focus) && multiset(ps) == multiset(qs)
    ensures Rank(ps, focus) == Rank(qs, focus)
  {
    RankLeqIsTotalPreorder(focus);
    KeysIdentifyRowsIsNoTies(ps, focus);
    SortOrderIndependent(RankLeq(focus), ps, qs);
  }

  /** Two different rows with one ranking key make the ranking depend on arrival order. */
  lemma TieBreaksDeterminism(ps: seq<SourceProjection>, focus: Focus, a: SourceProjection, b: SourceProjection)
    returns (ab: seq<SourceProjection>, ba: seq<SourceProjection>)
    requires a in ps && b in ps && a != b && KeyOf(a, focus) == KeyOf(b, focus)
    ensures multiset(ab) == multiset(ps) && multiset(ba) == multiset(ps)
    ensures Rank(ab, focus) != Rank(ba, focus)
  {
    ab, ba := TiedArrangements(ps, a, b);
    var tied := SameKey(focus, a);
    FirstTied(tied, ab, a);
    FirstTied(tied, ba, b);
    TiedOrderSurvives(ab, focus, a);
    TiedOrderSurvives(ba, focus, a);
  }

  lemma TiedOrderSurvives(ps: seq<SourceProjection>, focus: Focus, a: SourceProjection)
    ensures Filter(SameKey(focus, a), Rank(ps, focus)) == Filter(SameKey(focus, a), ps)
  {
    var tied := SameKey(focus, a);
    forall x, y | tied(x) && tied(y)
      ensures Tie(RankLeq(focus), x, y)
    {
      TieMeansSameKey(focus, x, y);
    }
    SortStable(RankLeq(focus), tied, ps);
    DiversityKeepsFilter(tied, a.sourceType, Sort(RankLeq(focus), ps));
  }

  lemma FirstTied(p: SourceProjection -> bool, xs: seq<SourceProjection>, a: SourceProjection)
    requires xs != [] && xs[0] == a && p(a)
    ensures Filter(p, xs) != [] && Filter(p, xs)[0] == a
  {
    assert xs == [a] + xs[1..];
    FilterAppend(p, [a], xs[1..]);
    assert Init([a]) == [];
  }

  /** Rows that share a ranking key with this one. */
  function SameKey(focus: Focus, a: SourceProjection): SourceProjection -> bool {
    (p: SourceProjection) => KeyOf(p, focus) == KeyOf(a, focus)
  }

  ghost predicate TiedRowsAgree(focus: Focus, ps: seq<SourceProjection>, qs: seq<SourceProjection>) {
    forall a :: Filter(SameKey(focus, a), ps) == Filter(SameKey(focus, a), qs)
  }

  lemma TiedRowsAreClasses(focus: Focus, ps: seq<SourceProjection>, qs: seq<SourceProjection>)
    ensures ClassesAgree(RankLeq(focus), ps, qs) <==> TiedRowsAgree(focus, ps, qs)
  {
    forall a
      ensures Filter(TiedWith(RankLeq(focus), a), ps) == Filter(SameKey(focus, a), ps)
      ensures Filter(TiedWith(RankLeq(focus), a), qs) == Filter(SameKey(focus, a), qs)
    {
      SameKeyIsTied(focus, a, ps);
      SameKeyIsTied(focus, a, qs);
    }
  }

  lemma {:induction false} SameKeyIsTied(focus: Focus, a: SourceProjection, ps: seq<SourceProjection>)
    ensures Filter(TiedWith(RankLeq(focus), a), ps) == Filter(SameKey(focus, a), ps)
  {
    if ps != [] {
      SameKeyIsTied(focus, a, Init(ps));
      TieMeansSameKey(focus, a, Last(ps));
    }
  }

  /** Two deliveries of rows rank alike exactly when rows that share a ranking key arrive in the same order. */
  lemma RanksAgreeIffTiedRowsAgree(focus: Focus, ps: seq<SourceProjection>, qs: seq<SourceProjection>)
    ensures Rank(ps, focus) == Rank(qs, focus) <==> TiedRowsAgree(focus, ps, qs)
  {
    RankLeqIsTotalPreorder(focus);
    TiedRowsAreClasses(focus, ps, qs);
    SortsAgreeIffClassesAgree(RankLeq(focus), ps, qs);
    forall a
      ensures Filter(SameKey(focus, a), Rank(ps, focus)) == Filter(SameKey(focus, a), ps)
      ensures Filter(SameKey(focus, a), Rank(qs, focus)) == Filter(SameKey(focus, a), qs)
    {
      TiedOrderSurvives(ps, focus, a);
      TiedOrderSurvives(qs, focus, a);
    }
  }

  /** The ranking ignores the collectors' row order exactly when no two different rows share a key. */
  lemma RankOrderIndependentIff(ps: seq<SourceProjection>, focus: Focus)
    ensures (forall qs, rs | multiset(qs) == multiset(ps) && multiset(rs) == multiset(ps) ::
               Rank(qs, focus) == Rank(rs, focus))
            <==> KeysIdentifyRows(ps, focus)
  {
    if KeysIdentifyRows(ps, focus) {
      forall qs, rs | multiset(qs) == multiset(ps) && multiset(rs) == multiset(ps)
        ensures Rank(qs, focus) == Rank(rs, focus)
      {
        RankOrderIndependent(ps, qs, focus);
        RankOrderIndependent(ps, rs, focus);
      }
    } else {
      var a, b :| a in ps && b in ps && KeyOf(a, focus) == KeyOf(b, focus) && a != b;
      var ab, ba := TieBreaksDeterminism(ps, focus, a, b);
      assert multiset(ab) == multiset(ps) && multiset(ba) == multiset(ps);
    }
  }

  // ---- who stands before whom ------------------------------------------------

  /** More relevance first, then more trust, then the earlier time, then type and reference. */
  predicate Outranks(p: SourceProjection, q: SourceProjection, focus: Focus) {
    || Relevance(p, focus) > Relevance(q, focus)
    || (Relevance(p, focus) == Relevance(q, focus)
        && (|| TrustOrdinal(p.trustClass) < TrustOrdinal(q.trustClass)
            || (p.trustClass == q.trustClass
                && (|| StrBefore(p.timestamp, q.timestamp)
                    || (p.timestamp == q.timestamp
                        && (|| StrBefore(p.sourceType, q.sourceType)
                            || (p.sourceType == q.sourceType && StrBefore(p.sourceRef, q.sourceRef))))))))
  }

  lemma OutranksIsStrictOrder(p: SourceProjection, q: SourceProjection, focus: Focus)
    ensures Outranks(p, q, focus) <==> !RankLeq(focus)(q, p)
  {
    if p.timestamp != q.timestamp {
      StrBeforeIff(p.timestamp, q.timestamp);
    } else if p.sourceType != q.sourceType {
      StrBeforeIff(p.sourceType, q.sourceType);
    } else {
      StrBeforeIff(p.sourceRef, q.sourceRef);
    }
  }

  /** Rows stand in sorted order within their type and within each of the two blocks. */
  lemma EarlierRanksAtOrBefore(ps: seq<SourceProjection>, focus: Focus, i: nat, j: nat)
    requires i < j < |Rank(ps, focus)|
    requires var ranked, k := Rank(ps, focus), |TypesOf(ps)|;
             ranked[i].sourceType == ranked[j].sourceType || (i < k <==> j < k)
    ensures RankLeq(focus)(Rank(ps, focus)[i], Rank(ps, focus)[j])
  {
    var ranked, k := Rank(ps, focus), |TypesOf(ps)|;
    RankLeadsWithBestOfEachType(ps, focus);
    if j < k {
      assert ranked[..k][i] == ranked[i] && ranked[..k][j] == ranked[j];
    } else if k <= i {
      assert ranked[k..][i - k] == ranked[i] && ranked[k..][j - k] == ranked[j];
    } else {
      RankMembers(ps, focus, j);
    }
  }

  /**
   Of two rows of one source type the one that outranks the other stands first; so it
   does among the first rows of their types, and among all the others.
   */
  lemma OutrankingRowsStandFirst(ps: seq<SourceProjection>, focus: Focus, i: nat, j: nat)
    requires i < |Rank(ps, focus)| && j < |Rank(ps, focus)| && Outranks(Rank(ps, focus)[i], Rank(ps, focus)[j], focus)
    requires var ranked, k := Rank(ps, focus), |TypesOf(ps)|;
             ranked[i].sourceType == ranked[j].sourceType || (i < k <==> j < k)
    ensures i < j
  {
    OutranksIsStrictOrder(Rank(ps, focus)[i], Rank(ps, focus)[j], focus);
    if j < i {
      EarlierRanksAtOrBefore(ps, focus, j, i);
    }
  }

  lemma RankMembers(ps: seq<SourceProjection>, focus: Focus, i: nat)
    requires i < |Rank(ps, focus)|
    ensures Rank(ps, focus)[i] in ps
  {
    RankPermutes(ps, focus);
    PermutationMembers(Rank(ps, focus), ps);
  }

  /** The first rows, one per source type: no two share their type, and each type is among them. */
  lemma EveryTypeLeadsOnce(ps: seq<SourceProjection>, focus: Focus)
    ensures var ranked, k := Rank(ps, focus), |TypesOf(ps)|;
            && |ranked| == |ps| && k <= |ps|
            && (forall p | p in ps :: exists i :: 0 <= i < k && ranked[i].sourceType == p.sourceType)
            && (forall i, j | 0 <= i < j < k :: ranked[i].sourceType != ranked[j].sourceType)
  {
    var ranked, k := Rank(ps, focus), |TypesOf(ps)|;
    RankHasLeaders(ps, focus);
    AsManyTypesAsRows(ranked[..k]);
    forall p | p in ps
      ensures exists i :: 0 <= i < k && ranked[i].sourceType == p.sourceType
    {
      LeaderOfType(ranked[..k], p.sourceType);
    }
  }

  lemma RankHasLeaders(ps: seq<SourceProjection>, focus: Focus)
    ensures |Rank(ps, focus)| == |ps| && |TypesOf(ps)| <= |ps|
    ensures TypesOf(Rank(ps, focus)[..|TypesOf(ps)|]) == TypesOf(ps)
  {
    RankLeadsWithBestOfEachType(ps, focus);
    RankPermutes(ps, focus);
    PermutationMembers(Rank(ps, focus), ps);
  }

  lemma LeaderOfType(ps: seq<SourceProjection>, t: string)
    requires t in TypesOf(ps)
    ensures exists i :: 0 <= i < |ps| && ps[i].sourceType == t
  {
    var q :| q in ps && q.sourceType == t;
    var i :| 0 <= i < |ps| && ps[i] == q;
  }

  /** As many types as rows: each row has its own. */
  lemma {:induction false} AsManyTypesAsRows(ps: seq<SourceProjection>)
    ensures |TypesOf(ps)| <= |ps|
    ensures |TypesOf(ps)| == |ps| ==> forall i, j | 0 <= i < j < |ps| :: ps[i].sourceType != ps[j].sourceType
  {
    if ps != [] {
      AsManyTypesAsRows(Init(ps));
      TypesOfSnoc(ps);
      if |TypesOf(ps)| == |ps| {
        assert Last(ps).sourceType !in TypesOf(Init(ps));
        forall i | 0 <= i < |ps| - 1
          ensures ps[i].sourceType != Last(ps).sourceType
        {
          assert Init(ps)[i] in Init(ps);
        }
      }
    }
  }
}
