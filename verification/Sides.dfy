/**
 The fingerprint does not say into which half a string goes. This module says what
 two trees with one fingerprint need to have in common for their halves to agree.
 */
module Sides {
  import opened Common
  import opened PromptTree
  import opened Fingerprints

  predicate IsText(v: Val) {
    v.Str? && v.marker == Free
  }

  /** Free text stands at the same places, as far as the two trees have places in common. */
  predicate SameTextPlaces(v: Val, w: Val) {
    && (IsText(v) <==> IsText(w))
    && (v.Dict? && w.Dict? ==> forall k | k in v.fields && k in w.fields :: SameTextPlaces(v.fields[k], w.fields[k]))
    && (v.List? && w.List? ==> forall i | 0 <= i < |v.items| && i < |w.items| :: SameTextPlaces(v.items[i], w.items[i]))
  }

  datatype Side = TrustedSide | UntrustedSide

  function Share(x: Side, v: Val): Option<Val> {
    if x == TrustedSide then Walk(v).trusted else Walk(v).untrusted
  }

  predicate Has(x: Side, v: Val) {
    if x == TrustedSide then HasTrusted(v) else HasUntrusted(v)
  }

  /** In a list item, the side of an entry that is rendered. */
  function Rendered(v: Val): Side {
    if HasUntrusted(v) then UntrustedSide else TrustedSide
  }

  /**
   What v puts on side x stands at the same places as what w puts on side y: a leaf is
   on both or on neither, a list is rendered alike item by item, and a list that is
   trusted as it is has strings of the same kinds.
   */
  predicate SameShare(x: Side, v: Val, y: Side, w: Val)
    decreases v, 0
  {
    if v.Dict? && w.Dict? then
      forall k | k in v.fields && k in w.fields :: SameShare(x, v.fields[k], y, w.fields[k])
    else
      && (Has(x, v) <==> Has(y, w))
      && (v.List? && w.List? && Has(x, v) ==>
            && x == y
            && (x == TrustedSide ==> SameKinds(v, w))
            && (x == UntrustedSide ==> forall i | 0 <= i < |v.items| && i < |w.items| :: SameItem(v.items[i], w.items[i])))
  }

  /** In a rendered item it does not matter on which side a string is, only which entries of a dict are rendered. */
  predicate SameItem(v: Val, w: Val)
    decreases v, 1
  {
    if v.Dict? && w.Dict? then
      forall k | k in v.fields && k in w.fields ::
        SameShare(Rendered(v.fields[k]), v.fields[k], Rendered(w.fields[k]), w.fields[k])
    else SameShare(Rendered(v), v, Rendered(w), w)
  }

  /** Strings go to the same sides. */
  predicate SameSides(v: Val, w: Val) {
    SameShare(TrustedSide, v, TrustedSide, w) && SameShare(UntrustedSide, v, UntrustedSide, w)
  }

  // ---- shares of leaves, dicts and lists ---------------------------------------------

  lemma SharePresent(x: Side, v: Val)
    ensures Share(x, v).Some? <==> Has(x, v)
  {
    HalvesPresent(v);
  }

  /** Leaves with one fingerprint, free text at the same places: shown alike if shown at all. */
  lemma LeafSharesAgreeIff(h: string -> string, x: Side, v: Val, y: Side, w: Val)
    requires Injective(h) && (IsText(v) <==> IsText(w)) && !v.Dict? && !v.List?
    requires Fingerprint(h, v) == Fingerprint(h, w)
    ensures !w.Dict? && !w.List?
    ensures Share(x, v) == Share(y, w) <==> (Has(x, v) <==> Has(y, w))
  {
    SharePresent(x, v);
    SharePresent(y, w);
    if IsText(v) {
      SameStringSameText(h, v, w);
    }
  }

  function Shares(x: Side, fields: map<string, Val>): map<string, Val> {
    map k | k in fields && Share(x, fields[k]).Some? :: Share(x, fields[k]).value
  }

  lemma ShareOfDict(x: Side, fields: map<string, Val>)
    ensures Share(x, Dict(fields)) == NonEmpty(Shares(x, fields))
  {
    CollectedHalves(fields, Shares(TrustedSide, fields), Shares(UntrustedSide, fields));
    match x
    case TrustedSide =>
    case UntrustedSide =>
  }

  /** Maps that hold just the entries there are agree exactly when the entries do. */
  lemma SomesAgreeIff(a: map<string, Option<Val>>, b: map<string, Option<Val>>, m: map<string, Val>, n: map<string, Val>)
    requires a.Keys == b.Keys
    requires m == map k | k in a && a[k].Some? :: a[k].value
    requires n == map k | k in b && b[k].Some? :: b[k].value
    ensures m == n <==> forall k | k in a :: a[k] == b[k]
  {
    if m == n {
      forall k | k in a
        ensures a[k] == b[k]
      {
        assert (k in m <==> a[k].Some?) && (k in n <==> b[k].Some?);
        assert a[k].Some? ==> m[k] == a[k].value && n[k] == b[k].value;
      }
    }
  }

  lemma DictSharesAgreeIff(x: Side, a: map<string, Val>, y: Side, b: map<string, Val>)
    requires a.Keys == b.Keys
    ensures Share(x, Dict(a)) == Share(y, Dict(b)) <==> forall k | k in a :: Share(x, a[k]) == Share(y, b[k])
  {
    ShareOfDict(x, a);
    ShareOfDict(y, b);
    if Shares(x, a) == Shares(y, b) {
      forall k | k in a
        ensures Share(x, a[k]) == Share(y, b[k])
      {
        SharedEntry(x, a, k);
        SharedEntry(y, b, k);
      }
    }
    if forall k | k in a :: Share(x, a[k]) == Share(y, b[k]) {
      SameEntriesSameShares(x, a, y, b);
    }
  }

  lemma SameEntriesSameShares(x: Side, a: map<string, Val>, y: Side, b: map<string, Val>)
    requires a.Keys == b.Keys && forall k | k in a :: Share(x, a[k]) == Share(y, b[k])
    ensures Shares(x, a) == Shares(y, b)
  {
  }

  lemma SharedEntry(x: Side, fields: map<string, Val>, k: string)
    requires k in fields
    ensures Share(x, fields[k]) == if k in Shares(x, fields) then Some(Shares(x, fields)[k]) else None
  {
  }

  function RenderedItems(items: seq<Val>): seq<Val> {
    seq(|items|, i requires 0 <= i < |items| => RenderItem(Walk(items[i])))
  }

  lemma ShareOfList(x: Side, items: seq<Val>)
    ensures Share(x, List(items))
         == if !Has(x, List(items)) then None
            else if x == TrustedSide then Some(List(items))
            else Some(List(RenderedItems(items)))
  {
    SharePresent(x, List(items));
  }

  lemma RenderedItemsAgreeIff(a: seq<Val>, b: seq<Val>)
    requires |a| == |b|
    ensures RenderedItems(a) == RenderedItems(b) <==> forall i | 0 <= i < |a| :: RenderItem(Walk(a[i])) == RenderItem(Walk(b[i]))
  {
    var p, q := RenderedItems(a), RenderedItems(b);
    assert forall i | 0 <= i < |a| :: p[i] == RenderItem(Walk(a[i])) && q[i] == RenderItem(Walk(b[i]));
  }

  /** What is untrusted is so after rendering: unmarked strings. */
  lemma {:induction false} UntrustedHalfIsUntrusted(v: Val)
    requires Walk(v).untrusted.Some?
    ensures HasUntrusted(Walk(v).untrusted.value)
  {
    HalvesPresent(v);
    if v.Dict? {
      DictHalves(v.fields);
      var k :| k in v.fields && Walk(v.fields[k]).untrusted.Some?;
      UntrustedHalfIsUntrusted(v.fields[k]);
    } else if v.List? {
      var i :| 0 <= i < |v.items| && HasUntrusted(v.items[i]);
      HalvesPresent(v.items[i]);
      UntrustedHalfIsUntrusted(v.items[i]);
      RenderedIsUntrusted(v.items[i]);
      ShareOfList(UntrustedSide, v.items);
      assert HasUntrusted(RenderedItems(v.items)[i]);
    }
  }

  lemma RenderedIsUntrusted(v: Val)
    requires Walk(v).untrusted.Some? && HasUntrusted(Walk(v).untrusted.value)
    ensures HasUntrusted(RenderItem(Walk(v)))
  {
    var h := Walk(v);
    if h.trusted.Some? {
      var k :| k in h.untrusted.value.fields && HasUntrusted(h.untrusted.value.fields[k]);
      assert RenderItem(h).fields[k] == h.untrusted.value.fields[k];
    }
  }

  /** A list shown as it is never equals a rendered one. */
  lemma ShownIsNotRendered(v: Val, w: Val)
    requires v.List? && w.List? && Has(TrustedSide, v) && Has(UntrustedSide, w)
    ensures Share(TrustedSide, v) != Share(UntrustedSide, w)
  {
    SharePresent(UntrustedSide, w);
    ShareOfList(TrustedSide, v.items);
    UntrustedHalfIsUntrusted(w);
  }

  // ---- list items ----------------------------------------------------------------------

  /** The entries of a dict in a list item, each as it is rendered. */
  function Picked(fields: map<string, Val>): map<string, Option<Val>> {
    map k | k in fields :: Share(Rendered(fields[k]), fields[k])
  }

  function Picks(fields: map<string, Val>): map<string, Val> {
    map k | k in Picked(fields) && Picked(fields)[k].Some? :: Picked(fields)[k].value
  }

  lemma PicksOfShares(fields: map<string, Val>)
    ensures Picks(fields) == Shares(TrustedSide, fields) + Shares(UntrustedSide, fields)
  {
    forall k | k in fields
      ensures Share(Rendered(fields[k]), fields[k])
           == if Share(UntrustedSide, fields[k]).Some? then Share(UntrustedSide, fields[k]) else Share(TrustedSide, fields[k])
    {
      SharePresent(UntrustedSide, fields[k]);
    }
  }

  lemma RenderedDict(fields: map<string, Val>)
    ensures RenderItem(Walk(Dict(fields))) == OrNull(NonEmpty(Picks(fields)))
  {
    ShareOfDict(TrustedSide, fields);
    ShareOfDict(UntrustedSide, fields);
    PicksOfShares(fields);
    RenderedHalvesOfDict(Shares(TrustedSide, fields), Shares(UntrustedSide, fields));
  }

  lemma RenderedHalvesOfDict(t: map<string, Val>, u: map<string, Val>)
    ensures RenderItem(Halves(NonEmpty(t), NonEmpty(u))) == OrNull(NonEmpty(t + u))
  {
    assert t == map[] ==> t + u == u;
    assert u == map[] ==> t + u == t;
    if t != map[] {
      var k :| k in t;
      assert k in t + u;
    }
  }

  lemma RenderedDictsAgreeIff(a: map<string, Val>, b: map<string, Val>)
    requires a.Keys == b.Keys
    ensures RenderItem(Walk(Dict(a))) == RenderItem(Walk(Dict(b)))
       <==> forall k | k in a :: Share(Rendered(a[k]), a[k]) == Share(Rendered(b[k]), b[k])
  {
    RenderedDict(a);
    RenderedDict(b);
    SomesAgreeIff(Picked(a), Picked(b), Picks(a), Picks(b));
    forall k | k in a
      ensures Picked(a)[k] == Share(Rendered(a[k]), a[k]) && Picked(b)[k] == Share(Rendered(b[k]), b[k])
    {
    }
    assert (forall k | k in a :: Share(Rendered(a[k]), a[k]) == Share(Rendered(b[k]), b[k]))
      <==> forall k | k in Picked(a) :: Picked(a)[k] == Picked(b)[k];
  }

  lemma RenderedOther(v: Val)
    requires !v.Dict?
    ensures RenderItem(Walk(v)) == OrNull(Share(Rendered(v), v))
    ensures Share(Rendered(v), v) != Some(Null)
  {
    SharePresent(TrustedSide, v);
    SharePresent(UntrustedSide, v);
  }

  // ---- with equal fingerprints, places decide ----------------------------------------------

  lemma {:induction false} SharesAgreeIff(h: string -> string, x: Side, v: Val, y: Side, w: Val)
    requires Injective(h) && SameTextPlaces(v, w) && Fingerprint(h, v) == Fingerprint(h, w)
    ensures Share(x, v) == Share(y, w) <==> SameShare(x, v, y, w)
    decreases v, 0
  {
    if v.Dict? {
      FingerprintFields(h, v.fields, w.fields);
      forall k | k in v.fields
        ensures Share(x, v.fields[k]) == Share(y, w.fields[k]) <==> SameShare(x, v.fields[k], y, w.fields[k])
      {
        SharesAgreeIff(h, x, v.fields[k], y, w.fields[k]);
      }
      DictSharesAgreeIff(x, v.fields, y, w.fields);
    } else if v.List? {
      FingerprintItems(h, v.items, w.items);
      forall i | 0 <= i < |v.items|
        ensures RenderItem(Walk(v.items[i])) == RenderItem(Walk(w.items[i])) <==> SameItem(v.items[i], w.items[i])
      {
        ItemsAgreeIff(h, v.items[i], w.items[i]);
      }
      ListSharesAgreeIff(h, x, v, y, w);
    } else {
      LeafSharesAgreeIff(h, x, v, y, w);
    }
  }

  lemma ListSharesAgreeIff(h: string -> string, x: Side, v: Val, y: Side, w: Val)
    requires Injective(h) && Fingerprint(h, v) == Fingerprint(h, w)
    requires v.List? && w.List? && |v.items| == |w.items|
    requires forall i | 0 <= i < |v.items| ::
               RenderItem(Walk(v.items[i])) == RenderItem(Walk(w.items[i])) <==> SameItem(v.items[i], w.items[i])
    ensures Share(x, v) == Share(y, w) <==> SameShare(x, v, y, w)
  {
    ShareOfList(x, v.items);
    ShareOfList(y, w.items);
    if Has(x, v) && Has(y, w) {
      if x != y {
        if x == TrustedSide {
          ShownIsNotRendered(v, w);
        } else {
          ShownIsNotRendered(w, v);
        }
      } else if x == TrustedSide {
        SameKindsWithItself(v);
        if SameKinds(v, w) {
          FingerprintPinsTree(h, v, w);
        }
      } else {
        RenderedItemsAgreeIff(v.items, w.items);
      }
    }
  }

  lemma {:induction false} ItemsAgreeIff(h: string -> string, v: Val, w: Val)
    requires Injective(h) && SameTextPlaces(v, w) && Fingerprint(h, v) == Fingerprint(h, w)
    ensures RenderItem(Walk(v)) == RenderItem(Walk(w)) <==> SameItem(v, w)
    decreases v, 1
  {
    if v.Dict? {
      FingerprintFields(h, v.fields, w.fields);
      forall k | k in v.fields
        ensures Share(Rendered(v.fields[k]), v.fields[k]) == Share(Rendered(w.fields[k]), w.fields[k])
           <==> SameShare(Rendered(v.fields[k]), v.fields[k], Rendered(w.fields[k]), w.fields[k])
      {
        SharesAgreeIff(h, Rendered(v.fields[k]), v.fields[k], Rendered(w.fields[k]), w.fields[k]);
      }
      RenderedDictsAgreeIff(v.fields, w.fields);
    } else {
      SharesAgreeIff(h, Rendered(v), v, Rendered(w), w);
      RenderedOther(v);
      RenderedOther(w);
    }
  }

  /**
   With equal fingerprints, and free text at the same places, two trees are shown
   alike exactly when their strings go to the same sides.
   */
  lemma ShownAlikeIffSameSides(h: string -> string, v: Val, w: Val)
    requires Injective(h) && SameTextPlaces(v, w) && Fingerprint(h, v) == Fingerprint(h, w)
    ensures Walk(v) == Walk(w) <==> SameSides(v, w)
  {
    SharesAgreeIff(h, TrustedSide, v, TrustedSide, w);
    SharesAgreeIff(h, UntrustedSide, v, UntrustedSide, w);
  }
}
