/**
 The stable sort the planner relies on, for any ranking relation, with the two
 facts that make "sorted by a total key" deterministic: a sorted arrangement is
 unique exactly when no two different elements tie.
 */
module Sorting {
  import opened Common

  ghost predicate TotalPreorder<T(!new)>(leq: (T, T) -> bool) {
    && (forall a, b :: leq(a, b) || leq(b, a))
    && (forall a, b, c :: leq(a, b) && leq(b, c) ==> leq(a, c))
  }

  predicate Tie<T>(leq: (T, T) -> bool, a: T, b: T) {
    leq(a, b) && leq(b, a)
  }

  ghost predicate Sorted<T>(leq: (T, T) -> bool, xs: seq<T>) {
    forall i, j | 0 <= i < j < |xs| :: leq(xs[i], xs[j])
  }

  /** Two elements may share a rank only if they are the same element. */
  ghost predicate NoTies<T>(leq: (T, T) -> bool, xs: seq<T>) {
    forall a, b | a in xs && b in xs && Tie(leq, a, b) :: a == b
  }

  /** Inserts x after every element that ranks at or before it. */
  function Insert<T>(leq: (T, T) -> bool, x: T, xs: seq<T>): (r: seq<T>) {
    if xs == [] then [x]
    else if leq(Last(xs), x) then xs + [x]
    else Insert(leq, x, Init(xs)) + [Last(xs)]
  }

  function Sort<T>(leq: (T, T) -> bool, xs: seq<T>): (r: seq<T>) {
    if xs == [] then [] else Insert(leq, Last(xs), Sort(leq, Init(xs)))
  }

  lemma {:induction false} InsertPermutes<T>(leq: (T, T) -> bool, x: T, xs: seq<T>)
    ensures multiset(Insert(leq, x, xs)) == multiset(xs) + multiset{x}
  {
    if xs != [] {
      assert xs == Init(xs) + [Last(xs)];
      InsertPermutes(leq, x, Init(xs));
    }
  }

  lemma {:induction false} SortPermutes<T>(leq: (T, T) -> bool, xs: seq<T>)
    ensures multiset(Sort(leq, xs)) == multiset(xs)
  {
    if xs != [] {
      var prior, x := Init(xs), Last(xs);
      SortPermutes(leq, prior);
      InsertPermutes(leq, x, Sort(leq, prior));
      SplitLast(xs);
    }
  }

  lemma SplitLast<T>(xs: seq<T>)
    requires xs != []
    ensures multiset(xs) == multiset(Init(xs)) + multiset{Last(xs)}
  {
    assert xs == Init(xs) + [Last(xs)];
  }

  lemma {:induction false} InsertSorted<T(!new)>(leq: (T, T) -> bool, x: T, xs: seq<T>)
    requires TotalPreorder(leq) && Sorted(leq, xs)
    ensures Sorted(leq, Insert(leq, x, xs))
  {
    if xs != [] {
      if leq(Last(xs), x) {
        forall i | 0 <= i < |xs|
          ensures leq(xs[i], x)
        {
          assert leq(xs[i], Last(xs)) || i == |xs| - 1;
        }
      } else {
        InsertSorted(leq, x, Init(xs));
        InsertPermutes(leq, x, Init(xs));
        PermutationMembers(Insert(leq, x, Init(xs)), Init(xs) + [x]);
        var r := Insert(leq, x, Init(xs));
        forall i | 0 <= i < |r|
          ensures leq(r[i], Last(xs))
        {
          assert r[i] in Init(xs) + [x];
        }
      }
    }
  }

  lemma {:induction false} SortSorts<T(!new)>(leq: (T, T) -> bool, xs: seq<T>)
    requires TotalPreorder(leq)
    ensures Sorted(leq, Sort(leq, xs))
  {
    if xs != [] {
      SortSorts(leq, Init(xs));
      InsertSorted(leq, Last(xs), Sort(leq, Init(xs)));
    }
  }

  lemma {:induction false} SortedIsFixed<T(!new)>(leq: (T, T) -> bool, xs: seq<T>)
    requires Sorted(leq, xs)
    ensures Sort(leq, xs) == xs
  {
    if xs != [] {
      SortedIsFixed(leq, Init(xs));
      if Init(xs) != [] {
        assert Last(Init(xs)) == xs[|xs| - 2];
        assert leq(xs[|xs| - 2], xs[|xs| - 1]);
      }
    }
  }

  /** Two sorted arrangements of the same tie-free elements coincide. */
  lemma {:induction false} SortedUnique<T(!new)>(leq: (T, T) -> bool, xs: seq<T>, ys: seq<T>)
    requires TotalPreorder(leq)
    requires Sorted(leq, xs) && Sorted(leq, ys) && multiset(xs) == multiset(ys)
    requires NoTies(leq, xs)
    ensures xs == ys
  {
    PermutationMembers(xs, ys);
    if xs != [] {
      SortedLastIsTop(leq, xs);
      SortedLastIsTop(leq, ys);
      assert Tie(leq, Last(xs), Last(ys));
      SplitLast(xs);
      SplitLast(ys);
      InitsAgree(xs, ys);
      SortedUnique(leq, Init(xs), Init(ys));
      assert xs == Init(xs) + [Last(xs)] && ys == Init(ys) + [Last(ys)];
    }
  }

  lemma SortedLastIsTop<T(!new)>(leq: (T, T) -> bool, xs: seq<T>)
    requires TotalPreorder(leq) && Sorted(leq, xs) && xs != []
    ensures forall x | x in xs :: leq(x, Last(xs))
  {
  }

  lemma InitsAgree<T>(xs: seq<T>, ys: seq<T>)
    requires xs != [] && ys != [] && multiset(xs) == multiset(ys) && Last(xs) == Last(ys)
    ensures multiset(Init(xs)) == multiset(Init(ys))
  {
    SplitLast(xs);
    SplitLast(ys);
    assert multiset(Init(xs)) == multiset(xs) - multiset{Last(xs)};
    assert multiset(Init(ys)) == multiset(ys) - multiset{Last(ys)};
  }

  /** A class of mutually tied elements keeps its arrival order. */
  lemma {:induction false} InsertStable<T(!new)>(leq: (T, T) -> bool, p: T -> bool, x: T, xs: seq<T>)
    requires forall a, b | p(a) && p(b) :: Tie(leq, a, b)
    ensures Filter(p, Insert(leq, x, xs)) == Filter(p, xs) + (if p(x) then [x] else [])
  {
    if xs == [] {
      assert Insert(leq, x, xs) == [x];
      assert Init([x]) == [];
    } else if leq(Last(xs), x) {
      FilterAppend(p, xs, [x]);
      assert Init([x]) == [];
    } else {
      InsertStable(leq, p, x, Init(xs));
      FilterAppend(p, Insert(leq, x, Init(xs)), [Last(xs)]);
      assert Init([Last(xs)]) == [];
      assert p(x) && p(Last(xs)) ==> Tie(leq, x, Last(xs));
    }
  }

  lemma {:induction false} SortStable<T(!new)>(leq: (T, T) -> bool, p: T -> bool, xs: seq<T>)
    requires forall a, b | p(a) && p(b) :: Tie(leq, a, b)
    ensures Filter(p, Sort(leq, xs)) == Filter(p, xs)
  {
    if xs != [] {
      SortStable(leq, p, Init(xs));
      InsertStable(leq, p, Last(xs), Sort(leq, Init(xs)));
    }
  }

  // ---- a stable sort sees the tie classes only ---------------------------------

  function TiedWith<T>(leq: (T, T) -> bool, a: T): T -> bool {
    x => Tie(leq, a, x)
  }

  /** Tied elements arrive in the same order in both sequences. */
  ghost predicate ClassesAgree<T(!new)>(leq: (T, T) -> bool, xs: seq<T>, ys: seq<T>) {
    forall a :: Filter(TiedWith(leq, a), xs) == Filter(TiedWith(leq, a), ys)
  }

  lemma FilterSplitLast<T>(p: T -> bool, xs: seq<T>)
    requires xs != []
    ensures p(Last(xs)) ==> Filter(p, xs) == Filter(p, Init(xs)) + [Last(xs)]
    ensures !p(Last(xs)) ==> Filter(p, xs) == Filter(p, Init(xs))
  {
  }

  lemma ClassesAgreeMembers<T(!new)>(leq: (T, T) -> bool, xs: seq<T>, ys: seq<T>, a: T)
    requires TotalPreorder(leq) && ClassesAgree(leq, xs, ys) && a in xs
    ensures exists b :: b in ys && Tie(leq, a, b)
  {
    var p := TiedWith(leq, a);
    FilterMembers(p, xs);
    FilterMembers(p, ys);
    assert a in Filter(p, ys);
  }

  /** The greatest elements of two sorted sequences with the same tie classes coincide. */
  lemma LastsAgree<T(!new)>(leq: (T, T) -> bool, xs: seq<T>, ys: seq<T>)
    requires TotalPreorder(leq) && Sorted(leq, xs) && Sorted(leq, ys) && ClassesAgree(leq, xs, ys)
    requires xs != [] && ys != []
    ensures Last(xs) == Last(ys)
  {
    SortedLastIsTop(leq, xs);
    SortedLastIsTop(leq, ys);
    ClassesAgreeMembers(leq, xs, ys, Last(xs));
    ClassesAgreeMembers(leq, ys, xs, Last(ys));
    var p := TiedWith(leq, Last(xs));
    FilterSplitLast(p, xs);
    FilterSplitLast(p, ys);
    assert Last(Filter(p, xs)) == Last(Filter(p, ys));
  }

  lemma ClassesOfInitsAgree<T(!new)>(leq: (T, T) -> bool, xs: seq<T>, ys: seq<T>)
    requires xs != [] && ys != [] && Last(xs) == Last(ys) && ClassesAgree(leq, xs, ys)
    ensures ClassesAgree(leq, Init(xs), Init(ys))
  {
    forall a
      ensures Filter(TiedWith(leq, a), Init(xs)) == Filter(TiedWith(leq, a), Init(ys))
    {
      var p := TiedWith(leq, a);
      FilterSplitLast(p, xs);
      FilterSplitLast(p, ys);
      assert Filter(p, xs) == Filter(p, ys);
      assert p(Last(xs)) ==> Filter(p, Init(xs)) == Init(Filter(p, xs)) && Filter(p, Init(ys)) == Init(Filter(p, ys));
    }
  }

  /** A sorted sequence is made up of its tie classes. */
  lemma {:induction false} SortedClassesPin<T(!new)>(leq: (T, T) -> bool, xs: seq<T>, ys: seq<T>)
    requires TotalPreorder(leq) && Sorted(leq, xs) && Sorted(leq, ys) && ClassesAgree(leq, xs, ys)
    ensures xs == ys
  {
    if xs == [] || ys == [] {
      if xs != [] {
        ClassesAgreeMembers(leq, xs, ys, xs[0]);
      } else if ys != [] {
        ClassesAgreeMembers(leq, ys, xs, ys[0]);
      }
    } else {
      LastsAgree(leq, xs, ys);
      ClassesOfInitsAgree(leq, xs, ys);
      SortedClassesPin(leq, Init(xs), Init(ys));
      assert xs == Init(xs) + [Last(xs)] && ys == Init(ys) + [Last(ys)];
    }
  }

  lemma SortKeepsClass<T(!new)>(leq: (T, T) -> bool, xs: seq<T>, a: T)
    requires TotalPreorder(leq)
    ensures Filter(TiedWith(leq, a), Sort(leq, xs)) == Filter(TiedWith(leq, a), xs)
  {
    SortStable(leq, TiedWith(leq, a), xs);
  }

  /** Two sequences sort alike exactly when their tied elements arrive in the same order. */
  lemma SortsAgreeIffClassesAgree<T(!new)>(leq: (T, T) -> bool, xs: seq<T>, ys: seq<T>)
    requires TotalPreorder(leq)
    ensures Sort(leq, xs) == Sort(leq, ys) <==> ClassesAgree(leq, xs, ys)
  {
    forall a
      ensures Filter(TiedWith(leq, a), Sort(leq, xs)) == Filter(TiedWith(leq, a), xs)
      ensures Filter(TiedWith(leq, a), Sort(leq, ys)) == Filter(TiedWith(leq, a), ys)
    {
      SortKeepsClass(leq, xs, a);
      SortKeepsClass(leq, ys, a);
    }
    if ClassesAgree(leq, xs, ys) {
      SortSorts(leq, xs);
      SortSorts(leq, ys);
      SortedClassesPin(leq, Sort(leq, xs), Sort(leq, ys));
    }
  }

  /** The same tie-free elements, in whatever order they arrive, sort to the same sequence. */
  lemma SortOrderIndependent<T(!new)>(leq: (T, T) -> bool, xs: seq<T>, ys: seq<T>)
    requires TotalPreorder(leq) && NoTies(leq, xs) && multiset(xs) == multiset(ys)
    ensures Sort(leq, xs) == Sort(leq, ys)
  {
    SortPermutes(leq, xs);
    SortPermutes(leq, ys);
    SortSorts(leq, xs);
    SortSorts(leq, ys);
    PermutationMembers(Sort(leq, xs), xs);
    SortedUnique(leq, Sort(leq, xs), Sort(leq, ys));
  }

  /** Two tied elements in both orders: the witnesses that a tie makes a sort depend on arrival order. */
  lemma TiedArrangements<T(!new)>(xs: seq<T>, a: T, b: T) returns (ab: seq<T>, ba: seq<T>)
    requires a in xs && b in xs && a != b
    ensures multiset(ab) == multiset(xs) && multiset(ba) == multiset(xs)
    ensures |ab| >= 2 && |ba| == |ab|
    ensures ab[0] == a && ab[1] == b && ba[0] == b && ba[1] == a && ab[2..] == ba[2..]
  {
    var rest := Without(Without(xs, a), b);
    WithoutRemoves(xs, a);
    assert b in Without(xs, a) by {
      assert multiset(Without(xs, a))[b] == multiset(xs)[b];
      assert b in multiset(Without(xs, a));
    }
    WithoutRemoves(Without(xs, a), b);
    ab, ba := [a, b] + rest, [b, a] + rest;
    assert multiset(ab) == multiset{a} + multiset{b} + multiset(rest);
    assert multiset(ba) == multiset{a} + multiset{b} + multiset(rest);
  }

  ghost function Without<T>(xs: seq<T>, a: T): (r: seq<T>) {
    if xs == [] then []
    else if Last(xs) == a then Init(xs)
    else Without(Init(xs), a) + [Last(xs)]
  }

  lemma {:induction false} WithoutRemoves<T>(xs: seq<T>, a: T)
    requires a in xs
    ensures multiset(Without(xs, a)) + multiset{a} == multiset(xs)
  {
    assert xs == Init(xs) + [Last(xs)];
    if Last(xs) != a {
      WithoutRemoves(Init(xs), a);
    }
  }
}
