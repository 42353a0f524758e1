/** Small building blocks shared by every component model. */
module Common {

  datatype Option<+T> = None | Some(value: T)

  datatype Result<+T, +E> = Ok(value: T) | Err(error: E)

  /**
   A finite binary float, mantissa * 2^exponent in lowest terms. Unlike the real
   numbers, floats can each be given a text of their own.
   */
  datatype FloatForm = FloatForm(mantissa: int, exponent: int)

  predicate LowestTerms(x: FloatForm) {
    x.mantissa % 2 == 1 || x == FloatForm(0, 0)
  }

  type Float = x: FloatForm | LowestTerms(x) witness FloatForm(0, 0)

  const ZERO: Float := FloatForm(0, 0)

  ghost predicate Injective<A(!new), B(!new)>(f: A -> B) {
    forall x, y :: f(x) == f(y) ==> x == y
  }

  /** All elements of a sequence without its last one. */
  function Init<T>(xs: seq<T>): (r: seq<T>)
    requires xs != []
  {
    xs[..|xs| - 1]
  }

  function Last<T>(xs: seq<T>): T
    requires xs != []
  {
    xs[|xs| - 1]
  }

  function Filter<T>(p: T -> bool, xs: seq<T>): (r: seq<T>)
  {
    if xs == [] then []
    else Filter(p, Init(xs)) + (if p(Last(xs)) then [Last(xs)] else [])
  }

  function Count<T>(p: T -> bool, xs: seq<T>): nat {
    |Filter(p, xs)|
  }

  function Sum(xs: seq<int>): int {
    if xs == [] then 0 else Sum(Init(xs)) + Last(xs)
  }

  ghost predicate Distinct<T>(xs: seq<T>) {
    forall i, j | 0 <= i < j < |xs| :: xs[i] != xs[j]
  }

  /** The elements of a permutation are the elements of the original. */
  lemma PermutationMembers<T>(xs: seq<T>, ys: seq<T>)
    requires multiset(xs) == multiset(ys)
    ensures |xs| == |ys|
    ensures forall x :: x in xs <==> x in ys
  {
    assert |multiset(xs)| == |multiset(ys)|;
    forall x
      ensures x in xs <==> x in ys
    {
      assert x in multiset(xs) <==> x in multiset(ys);
    }
  }

  lemma {:induction false} FilterAppend<T>(p: T -> bool, xs: seq<T>, ys: seq<T>)
    ensures Filter(p, xs + ys) == Filter(p, xs) + Filter(p, ys)
  {
    if ys == [] {
      assert xs + ys == xs;
    } else {
      assert Init(xs + ys) == xs + Init(ys);
      FilterAppend(p, xs, Init(ys));
    }
  }

  lemma {:induction false} FilterMembers<T>(p: T -> bool, xs: seq<T>)
    ensures forall x :: x in Filter(p, xs) <==> x in xs && p(x)
  {
    if xs != [] {
      FilterMembers(p, Init(xs));
      assert xs == Init(xs) + [Last(xs)];
    }
  }

  /** Filtering by the weaker condition first makes no difference. */
  lemma {:induction false} FilterOfFilter<T>(p: T -> bool, q: T -> bool, xs: seq<T>)
    requires forall x | p(x) :: q(x)
    ensures Filter(p, Filter(q, xs)) == Filter(p, xs)
  {
    if xs != [] {
      FilterOfFilter(p, q, Init(xs));
      FilterAppend(p, Filter(q, Init(xs)), if q(Last(xs)) then [Last(xs)] else []);
      assert Init([Last(xs)]) == [];
      assert xs == Init(xs) + [Last(xs)];
    }
  }

  lemma {:induction false} FilterNone<T>(p: T -> bool, xs: seq<T>)
    requires forall x | x in xs :: !p(x)
    ensures Filter(p, xs) == []
  {
    if xs != [] {
      FilterNone(p, Init(xs));
    }
  }
}
