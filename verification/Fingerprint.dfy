/**
 The fingerprint of a prompt tree, compared with the two halves that are shown:
 what each of them tells apart and the other does not.
 */
module Fingerprints {
  import opened Common
  import opened PromptTree

  /** Free text is hashed, every other string and enum value is kept, nothing is dropped. */
  function Fingerprint(h: string -> string, v: Val): Val {
    match v
    case Str(Free, s) => Plain("h:" + h(s))
    case Str(_, s) => Plain(s)
    case EnumVal(s) => Plain(s)
    case Dict(fields) => Dict(map k | k in fields :: Fingerprint(h, fields[k]))
    case List(items) => List(seq(|items|, i requires 0 <= i < |items| => Fingerprint(h, items[i])))
    case _ => v
  }

  /** Strings of one kind (free, system, unmarked, enum) stand at the places two trees have in common. */
  predicate SameKinds(v: Val, w: Val) {
    && (v.Str? && w.Str? ==> v.marker == w.marker)
    && !(v.Str? && w.EnumVal?) && !(v.EnumVal? && w.Str?)
    && (v.Dict? && w.Dict? ==> forall k | k in v.fields && k in w.fields :: SameKinds(v.fields[k], w.fields[k]))
    && (v.List? && w.List? ==> forall i | 0 <= i < |v.items| && i < |w.items| :: SameKinds(v.items[i], w.items[i]))
  }

  lemma {:induction false} SameKindsWithItself(v: Val)
    ensures SameKinds(v, v)
  {
    match v
    case Dict(fields) => forall k | k in fields { SameKindsWithItself(fields[k]); }
    case List(items) => forall i | 0 <= i < |items| { SameKindsWithItself(items[i]); }
    case _ =>
  }

  // ---- the fingerprint pins the tree ---------------------------------------------------

  lemma FingerprintFields(h: string -> string, a: map<string, Val>, b: map<string, Val>)
    requires Fingerprint(h, Dict(a)) == Fingerprint(h, Dict(b))
    ensures a.Keys == b.Keys && forall k | k in a :: Fingerprint(h, a[k]) == Fingerprint(h, b[k])
  {
    var fa, fb := Fingerprint(h, Dict(a)).fields, Fingerprint(h, Dict(b)).fields;
    assert fa.Keys == a.Keys && fb.Keys == b.Keys;
    assert forall k | k in a :: fa[k] == Fingerprint(h, a[k]) && fb[k] == Fingerprint(h, b[k]);
  }

  lemma FingerprintItems(h: string -> string, a: seq<Val>, b: seq<Val>)
    requires Fingerprint(h, List(a)) == Fingerprint(h, List(b))
    ensures |a| == |b| && forall i | 0 <= i < |a| :: Fingerprint(h, a[i]) == Fingerprint(h, b[i])
  {
    var fa, fb := Fingerprint(h, List(a)).items, Fingerprint(h, List(b)).items;
    assert |fa| == |a| && |fb| == |b|;
    assert forall i | 0 <= i < |a| :: fa[i] == Fingerprint(h, a[i]) && fb[i] == Fingerprint(h, b[i]);
  }

  lemma SameStringSameText(h: string -> string, v: Val, w: Val)
    requires Injective(h) && v.Str? && w.Str? && v.marker == w.marker
    requires Fingerprint(h, v) == Fingerprint(h, w)
    ensures v == w
  {
    var a, b := "h:" + h(v.s), "h:" + h(w.s);
    assert a[2..] == h(v.s) && b[2..] == h(w.s);
  }

  /** Among trees whose strings are of the same kinds, a fingerprint belongs to one tree. */
  lemma {:induction false} FingerprintPinsTree(h: string -> string, v: Val, w: Val)
    requires Injective(h) && SameKinds(v, w)
    ensures Fingerprint(h, v) == Fingerprint(h, w) <==> v == w
    decreases v
  {
    if Fingerprint(h, v) == Fingerprint(h, w) {
      if v.Str? {
        SameStringSameText(h, v, w);
      } else if v.Dict? {
        FingerprintFields(h, v.fields, w.fields);
        forall k | k in v.fields
          ensures v.fields[k] == w.fields[k]
        {
          FingerprintPinsTree(h, v.fields[k], w.fields[k]);
        }
        assert v.fields == w.fields;
      } else if v.List? {
        FingerprintItems(h, v.items, w.items);
        forall i | 0 <= i < |v.items|
          ensures v.items[i] == w.items[i]
        {
          FingerprintPinsTree(h, v.items[i], w.items[i]);
        }
        assert v.items == w.items;
      }
    }
  }

  // ---- what the halves do not show -------------------------------------------------------

  /** None, or a dict of nothing but such: the split drops it. */
  predicate Gone(v: Val) {
    match v
    case Null => true
    case Dict(fields) => forall k | k in fields :: Gone(fields[k])
    case _ => false
  }

  /** What the split drops stands at the same places and is the same there. */
  predicate SameGaps(v: Val, w: Val) {
    && (Gone(v) || Gone(w) ==> v == w)
    && (v.Dict? && w.Dict? ==>
          && (forall k | k in v.fields && k !in w.fields :: !Gone(v.fields[k]))
          && (forall k | k in w.fields && k !in v.fields :: !Gone(w.fields[k]))
          && (forall k | k in v.fields && k in w.fields :: SameGaps(v.fields[k], w.fields[k])))
    && (v.List? && w.List? ==> forall i | 0 <= i < |v.items| && i < |w.items| :: SameGaps(v.items[i], w.items[i]))
  }

  lemma {:induction false} SameGapsWithItself(v: Val)
    ensures SameGaps(v, v)
  {
    match v
    case Dict(fields) => forall k | k in fields { SameGapsWithItself(fields[k]); }
    case List(items) => forall i | 0 <= i < |items| { SameGapsWithItself(items[i]); }
    case _ =>
  }

  lemma {:induction false} GoneMeansNothingLeft(v: Val)
    ensures Gone(v) <==> Norm(v).None?
    ensures Gone(v) <==> !HasTrusted(v) && !HasUntrusted(v)
    decreases v
  {
    match v
    case Dict(fields) =>
      forall k | k in fields { GoneMeansNothingLeft(fields[k]); }
      NothingLeftOfFields(fields);
    case _ =>
  }

  lemma NothingLeftOfFields(fields: map<string, Val>)
    ensures Norm(Dict(fields)).None? <==> forall k | k in fields :: Norm(fields[k]).None?
  {
    var n := Norm(Dict(fields));
    forall k
      ensures Field(n, k) == if k in fields then Norm(fields[k]) else None
    {
      NormField(fields, k);
    }
    NormDictShape(fields);
    if n.Some? {
      var k :| k in n.value.fields;
      assert Field(n, k).Some?;
    }
  }

  lemma ItemsOfEqualNorms(a: seq<Val>, b: seq<Val>)
    requires Norm(List(a)) == Norm(List(b))
    ensures |a| == |b| && forall i | 0 <= i < |a| :: Norm(a[i]) == Norm(b[i])
  {
    var x, y := Norm(List(a)).value.items, Norm(List(b)).value.items;
    assert |x| == |a| && |y| == |b|;
    forall i | 0 <= i < |a|
      ensures Norm(a[i]) == Norm(b[i])
    {
      assert x[i] == OrNull(Norm(a[i])) && y[i] == OrNull(Norm(b[i]));
      NormIsNeverNull(a[i]);
      NormIsNeverNull(b[i]);
    }
  }

  lemma FieldsOfEqualNorms(a: map<string, Val>, b: map<string, Val>, k: string)
    requires Norm(Dict(a)) == Norm(Dict(b)) && SameGaps(Dict(a), Dict(b))
    ensures k in a <==> k in b
    ensures k in a ==> Norm(a[k]) == Norm(b[k])
  {
    NormField(a, k);
    NormField(b, k);
    if k in a && k !in b {
      GoneMeansNothingLeft(a[k]);
    }
    if k in b && k !in a {
      GoneMeansNothingLeft(b[k]);
    }
  }

  /** What is left of a tree, the kinds of its strings and its gaps make up the tree. */
  lemma {:induction false} LeftKindsAndGapsPinTree(v: Val, w: Val)
    requires Norm(v) == Norm(w) && SameKinds(v, w) && SameGaps(v, w)
    ensures v == w
    decreases v
  {
    GoneMeansNothingLeft(v);
    GoneMeansNothingLeft(w);
    if !Gone(v) {
      if v.Dict? {
        DictLike(v, w);
        forall k
          ensures k in v.fields <==> k in w.fields
          ensures k in v.fields ==> v.fields[k] == w.fields[k]
        {
          FieldsOfEqualNorms(v.fields, w.fields, k);
          if k in v.fields {
            LeftKindsAndGapsPinTree(v.fields[k], w.fields[k]);
          }
        }
        assert v.fields == w.fields;
      } else if v.List? {
        ItemsOfEqualNorms(v.items, w.items);
        forall i | 0 <= i < |v.items|
          ensures v.items[i] == w.items[i]
        {
          LeftKindsAndGapsPinTree(v.items[i], w.items[i]);
        }
        assert v.items == w.items;
      }
    }
  }

  lemma DictLike(v: Val, w: Val)
    requires v.Dict? && Norm(v).Some? && Norm(v) == Norm(w)
    ensures w.Dict?
  {
    NormDictShape(v.fields);
  }

  // ---- fingerprint and halves ---------------------------------------------------------------

  lemma SeparableHalvesShowTheRest(v: Val, w: Val)
    requires Separable(v) && Separable(w) && Walk(v) == Walk(w)
    ensures Norm(v) == Norm(w)
  {
    SplitLosesNothingIff(v);
    SplitLosesNothingIff(w);
  }

  /**
   Between separable trees whose strings are of the same kinds, equal fingerprints
   mean equal halves and equal gaps, and the other way round.
   */
  lemma FingerprintIsHalvesAndGaps(h: string -> string, v: Val, w: Val)
    requires Injective(h) && SameKinds(v, w) && Separable(v) && Separable(w)
    ensures Fingerprint(h, v) == Fingerprint(h, w) <==> Walk(v) == Walk(w) && SameGaps(v, w)
  {
    FingerprintPinsTree(h, v, w);
    SameGapsWithItself(v);
    if Walk(v) == Walk(w) && SameGaps(v, w) {
      SeparableHalvesShowTheRest(v, w);
      LeftKindsAndGapsPinTree(v, w);
    }
  }

  // ---- separability is needed -----------------------------------------------------------------

  ghost function LongestKey(keys: set<string>): (n: nat)
    ensures forall k | k in keys :: |k| <= n
  {
    if keys == {} then 0
    else
      var k :| k in keys;
      var n := LongestKey(keys - {k});
      if |k| > n then |k| else n
  }

  lemma UnusedKey(keys: set<string>) returns (k: string)
    ensures k !in keys
  {
    k := seq(LongestKey(keys) + 1, i => 'k');
  }

  lemma EqualHalvesGoneTogether(v: Val, w: Val)
    requires Walk(v) == Walk(w)
    ensures Gone(v) <==> Gone(w)
    ensures HasUntrusted(v) <==> HasUntrusted(w)
  {
    GoneMeansNothingLeft(v);
    GoneMeansNothingLeft(w);
    HalvesPresent(v);
    HalvesPresent(w);
  }

  /** Two trees that agree in kinds, gaps and halves, and still are two. */
  ghost predicate Twins(v: Val, w: Val) {
    SameKinds(v, w) && SameGaps(v, w) && Walk(v) == Walk(w) && v != w
  }

  /** The halves of every entry of a dict; the halves of the dict are read off them. */
  function Parts(fields: map<string, Val>): map<string, Halves> {
    map k | k in fields :: Walk(fields[k])
  }

  function Trusteds(parts: map<string, Halves>): map<string, Val> {
    map k | k in parts && parts[k].trusted.Some? :: parts[k].trusted.value
  }

  function Untrusteds(parts: map<string, Halves>): map<string, Val> {
    map k | k in parts && parts[k].untrusted.Some? :: parts[k].untrusted.value
  }

  lemma HalvesFromParts(fields: map<string, Val>)
    ensures Walk(Dict(fields)) == Halves(NonEmpty(Trusteds(Parts(fields))), NonEmpty(Untrusteds(Parts(fields))))
  {
    CollectedHalves(fields, Trusteds(Parts(fields)), Untrusteds(Parts(fields)));
  }

  lemma PartsAfterReplacing(fields: map<string, Val>, k: string, u: Val)
    ensures Parts(fields[k := u]) == Parts(fields)[k := Walk(u)]
  {
  }

  lemma FieldWithEqualHalves(fields: map<string, Val>, k: string, u: Val)
    requires k in fields && Walk(u) == Walk(fields[k])
    ensures Walk(Dict(fields[k := u])) == Walk(Dict(fields))
  {
    HalvesFromParts(fields);
    HalvesFromParts(fields[k := u]);
    PartsAfterReplacing(fields, k, u);
    assert Parts(fields)[k := Walk(u)] == Parts(fields);
  }

  lemma FieldTwin(fields: map<string, Val>, k: string, u: Val)
    requires k in fields && Twins(fields[k], u) && !Gone(fields[k])
    ensures Twins(Dict(fields), Dict(fields[k := u]))
  {
    FieldWithEqualHalves(fields, k, u);
    EqualHalvesGoneTogether(fields[k], u);
    FieldReplaced(fields, k, u);
  }

  /** Replacing one field by one of the same kinds and gaps. */
  lemma FieldReplaced(fields: map<string, Val>, k: string, u: Val)
    requires k in fields && SameKinds(fields[k], u) && SameGaps(fields[k], u) && fields[k] != u && !Gone(fields[k]) && !Gone(u)
    ensures var v, w := Dict(fields), Dict(fields[k := u]);
            SameKinds(v, w) && SameGaps(v, w) && v != w && !Gone(v) && !Gone(w)
  {
    var v, w := Dict(fields), Dict(fields[k := u]);
    forall j | j in fields
      ensures SameKinds(fields[j], w.fields[j]) && SameGaps(fields[j], w.fields[j])
    {
      SameKindsWithItself(fields[j]);
      SameGapsWithItself(fields[j]);
    }
    assert v.fields[k] != w.fields[k];
    assert k in w.fields && w.fields[k] == u;
  }

  lemma ItemReplaced(items: seq<Val>, i: nat, u: Val)
    requires i < |items| && SameKinds(items[i], u) && SameGaps(items[i], u) && items[i] != u
    ensures var v, w := List(items), List(items[i := u]);
            SameKinds(v, w) && SameGaps(v, w) && v != w
  {
    var v, w := List(items), List(items[i := u]);
    forall j | 0 <= j < |items|
      ensures SameKinds(items[j], w.items[j]) && SameGaps(items[j], w.items[j])
    {
      SameKindsWithItself(items[j]);
      SameGapsWithItself(items[j]);
    }
    assert v.items[i] != w.items[i];
  }

  lemma ItemWithEqualRendering(items: seq<Val>, i: nat, u: Val)
    requires i < |items| && HasUntrusted(List(items))
    requires RenderItem(Walk(u)) == RenderItem(Walk(items[i])) && (HasUntrusted(u) <==> HasUntrusted(items[i]))
    ensures Walk(List(items[i := u])) == Walk(List(items))
  {
    var changed := items[i := u];
    var j :| 0 <= j < |items| && HasUntrusted(items[j]);
    assert HasUntrusted(changed[j]);
    ListsRenderedAlike(items, changed);
  }

  lemma ListsRenderedAlike(a: seq<Val>, b: seq<Val>)
    requires HasUntrusted(List(a)) && HasUntrusted(List(b)) && |a| == |b|
    requires forall n | 0 <= n < |a| :: RenderItem(Walk(a[n])) == RenderItem(Walk(b[n]))
    ensures Walk(List(a)) == Walk(List(b))
  {
    RenderedList(a);
    RenderedList(b);
    assert Walk(List(a)).untrusted.value.items == Walk(List(b)).untrusted.value.items;
  }

  lemma RenderedList(items: seq<Val>)
    requires HasUntrusted(List(items))
    ensures var h := Walk(List(items));
            && h.trusted.None? && h.untrusted.Some? && h.untrusted.value.List? && |h.untrusted.value.items| == |items|
            && forall n | 0 <= n < |items| :: h.untrusted.value.items[n] == RenderItem(Walk(items[n]))
  {
    HalvesPresent(List(items));
  }

  /** A field with a trusted part can be given one more trusted entry; its untrusted part does not notice. */
  lemma WidenedField(f: Val) returns (u: Val)
    requires HasTrusted(f) && HasUntrusted(f)
    ensures f.Dict? && u.Dict? && u != f && SameKinds(f, u) && SameGaps(f, u) && !Gone(f) && !Gone(u)
    ensures Walk(u).untrusted == Walk(f).untrusted && HasTrusted(u) && HasUntrusted(u)
  {
    GoneMeansNothingLeft(f);
    var k := UnusedKey(f.fields.Keys);
    u := Dict(f.fields[k := Str(System, "")]);
    WidenedIsMixed(f.fields, k);
    WidenedLooksAlike(f.fields, k);
    WidenedHidesNothing(f.fields, k);
  }

  lemma WidenedIsMixed(fields: map<string, Val>, k: string)
    requires k !in fields && HasUntrusted(Dict(fields))
    ensures var u := Dict(fields[k := Str(System, "")]);
            HasTrusted(u) && HasUntrusted(u) && !Gone(u) && u != Dict(fields)
  {
    var u := Dict(fields[k := Str(System, "")]);
    assert k in u.fields && HasTrusted(u.fields[k]);
    var j :| j in fields && HasUntrusted(fields[j]);
    assert HasUntrusted(u.fields[j]);
    GoneMeansNothingLeft(u);
  }

  lemma WidenedLooksAlike(fields: map<string, Val>, k: string)
    requires k !in fields && !Gone(Dict(fields)) && !Gone(Dict(fields[k := Str(System, "")]))
    ensures var u := Dict(fields[k := Str(System, "")]);
            SameKinds(Dict(fields), u) && SameGaps(Dict(fields), u)
  {
    var u := Dict(fields[k := Str(System, "")]);
    forall j | j in fields
      ensures SameKinds(fields[j], u.fields[j]) && SameGaps(fields[j], u.fields[j])
    {
      SameKindsWithItself(fields[j]);
      SameGapsWithItself(fields[j]);
    }
  }

  lemma WidenedHidesNothing(fields: map<string, Val>, k: string)
    requires k !in fields
    ensures Walk(Dict(fields[k := Str(System, "")])).untrusted == Walk(Dict(fields)).untrusted
  {
    var u := Str(System, "");
    HalvesFromParts(fields);
    HalvesFromParts(fields[k := u]);
    PartsAfterReplacing(fields, k, u);
    assert Untrusteds(Parts(fields)[k := Walk(u)]) == Untrusteds(Parts(fields));
  }

  /** In a rendered item the untrusted part of such a field overwrites the trusted one. */
  lemma OverwrittenField(fields: map<string, Val>, k: string, u: Val)
    requires k in fields && HasTrusted(fields[k]) && HasUntrusted(fields[k])
    requires HasTrusted(u) && HasUntrusted(u) && Walk(u).untrusted == Walk(fields[k]).untrusted
    ensures RenderItem(Walk(Dict(fields[k := u]))) == RenderItem(Walk(Dict(fields)))
    ensures HasUntrusted(Dict(fields)) && HasUntrusted(Dict(fields[k := u]))
  {
    HalvesPresent(u);
    HalvesPresent(fields[k]);
    HalvesFromParts(fields);
    HalvesFromParts(fields[k := u]);
    PartsAfterReplacing(fields, k, u);
    OverwrittenPart(Parts(fields), k, Walk(u));
    assert fields[k := u][k] == u;
  }

  lemma OverwrittenPart(parts: map<string, Halves>, k: string, part: Halves)
    requires k in parts && parts[k].trusted.Some? && parts[k].untrusted.Some?
    requires part.trusted.Some? && part.untrusted == parts[k].untrusted
    ensures k in Trusteds(parts) && k in Trusteds(parts[k := part]) && k in Untrusteds(parts)
    ensures Untrusteds(parts[k := part]) == Untrusteds(parts)
    ensures Trusteds(parts[k := part]) + Untrusteds(parts) == Trusteds(parts) + Untrusteds(parts)
  {
    assert Trusteds(parts[k := part]) == Trusteds(parts)[k := part.trusted.value];
  }

  lemma {:induction false} GoneIsSeparable(v: Val)
    requires Gone(v)
    ensures Separable(v)
  {
    if v.Dict? {
      forall k | k in v.fields { GoneIsSeparable(v.fields[k]); }
    }
  }

  lemma ItemTwin(items: seq<Val>, i: nat, k: string) returns (w: Val)
    requires i < |items| && HasUntrusted(List(items)) && items[i].Dict? && k in items[i].fields
    requires HasTrusted(items[i].fields[k]) && HasUntrusted(items[i].fields[k])
    ensures Twins(List(items), w)
  {
    var fields := items[i].fields;
    var u := WidenedField(fields[k]);
    OverwrittenField(fields, k, u);
    FieldReplaced(fields, k, u);
    var item := Dict(fields[k := u]);
    ItemReplaced(items, i, item);
    ItemWithEqualRendering(items, i, item);
    w := List(items[i := item]);
  }

  lemma NestedItemTwin(items: seq<Val>, i: nat, u: Val) returns (w: Val)
    requires i < |items| && HasUntrusted(List(items)) && Twins(items[i], u)
    ensures Twins(List(items), w)
  {
    EqualHalvesGoneTogether(items[i], u);
    ItemReplaced(items, i, u);
    ItemWithEqualRendering(items, i, u);
    w := List(items[i := u]);
  }

  /** No condition short of separability will do: every other tree has a twin. */
  lemma {:induction false} InseparableTreesHaveTwins(v: Val) returns (w: Val)
    requires !Separable(v)
    ensures Twins(v, w)
    decreases v
  {
    if v.Dict? {
      var k :| k in v.fields && !Separable(v.fields[k]);
      if Gone(v.fields[k]) {
        GoneIsSeparable(v.fields[k]);
      }
      var u := InseparableTreesHaveTwins(v.fields[k]);
      FieldTwin(v.fields, k, u);
      w := Dict(v.fields[k := u]);
    } else if i :| 0 <= i < |v.items| && !Separable(v.items[i]) {
      var u := InseparableTreesHaveTwins(v.items[i]);
      w := NestedItemTwin(v.items, i, u);
    } else {
      var i, k :| 0 <= i < |v.items| && v.items[i].Dict? && k in v.items[i].fields
                  && HasTrusted(v.items[i].fields[k]) && HasUntrusted(v.items[i].fields[k]);
      w := ItemTwin(v.items, i, k);
    }
  }

  // ---- dicts with equal halves -----------------------------------------------------------------

  lemma SameHalvesSameParts(a: map<string, Val>, b: map<string, Val>)
    requires a.Keys == b.Keys
    ensures Walk(Dict(a)) == Walk(Dict(b)) <==> forall k | k in a :: Walk(a[k]) == Walk(b[k])
  {
    HalvesFromParts(a);
    HalvesFromParts(b);
    var p, q := Parts(a), Parts(b);
    if Walk(Dict(a)) == Walk(Dict(b)) {
      forall k | k in a
        ensures Walk(a[k]) == Walk(b[k])
      {
        PartFromMaps(p, q, k);
      }
    } else {
      assert p != q;
    }
  }

  lemma PartFromMaps(p: map<string, Halves>, q: map<string, Halves>, k: string)
    requires k in p && k in q && Trusteds(p) == Trusteds(q) && Untrusteds(p) == Untrusteds(q)
    ensures p[k] == q[k]
  {
    assert (k in Trusteds(p) <==> p[k].trusted.Some?) && (k in Trusteds(q) <==> q[k].trusted.Some?);
    assert (k in Untrusteds(p) <==> p[k].untrusted.Some?) && (k in Untrusteds(q) <==> q[k].untrusted.Some?);
    assert p[k].trusted.Some? ==> Trusteds(p)[k] == p[k].trusted.value && Trusteds(q)[k] == q[k].trusted.value;
    assert p[k].untrusted.Some? ==> Untrusteds(p)[k] == p[k].untrusted.value && Untrusteds(q)[k] == q[k].untrusted.value;
  }

  lemma SameHalvesSamePart(a: map<string, Val>, b: map<string, Val>, k: string)
    requires Walk(Dict(a)) == Walk(Dict(b)) && k in a && k in b
    ensures Walk(a[k]) == Walk(b[k])
  {
    HalvesFromParts(a);
    HalvesFromParts(b);
    PartFromMaps(Parts(a), Parts(b), k);
  }

  predicate Listless(v: Val) {
    !v.List? && (v.Dict? ==> forall k | k in v.fields :: Listless(v.fields[k]))
  }

  lemma {:induction false} ListlessIsSeparable(v: Val)
    requires Listless(v)
    ensures Separable(v)
  {
    if v.Dict? {
      forall k | k in v.fields { ListlessIsSeparable(v.fields[k]); }
    }
  }
}
