/**
 The marked tree a prompt is built from, its split into a trusted and an
 untrusted half, and its fingerprint. A dict is a map: its key order is not kept.
 */
module PromptTree {
  import opened Common

  /** FreeText, SystemString, or a plain str. */
  datatype Marker = Free | System | Unmarked

  datatype Number = IntNumber(n: int) | FloatNumber(x: Float) | BoolValue(b: bool)

  datatype Val =
    | Null
    | Scalar(num: Number)
    | EnumVal(value: string)
    | Str(marker: Marker, s: string)
    | Dict(fields: map<string, Val>)
    | List(items: seq<Val>)

  datatype Halves = Halves(trusted: Option<Val>, untrusted: Option<Val>)

  function Plain(s: string): Val {
    Str(Unmarked, s)
  }

  /** An empty dict counts as nothing. */
  function NonEmpty(m: map<string, Val>): Option<Val> {
    if m == map[] then None else Some(Dict(m))
  }

  /** A list item rendered into the untrusted half: both parts together, the untrusted fields winning. */
  function RenderItem(h: Halves): Val {
    if h.trusted.None? then (if h.untrusted.None? then Null else h.untrusted.value)
    else if h.untrusted.None? then h.trusted.value
    else if h.trusted.value.Dict? && h.untrusted.value.Dict? then Dict(h.trusted.value.fields + h.untrusted.value.fields)
    else h.untrusted.value
  }

  function Walk(v: Val): (h: Halves)
    ensures h.trusted.Some? && h.untrusted.Some? ==> v.Dict? && h.trusted.value.Dict? && h.untrusted.value.Dict?
  {
    match v
    case Str(System, s) => Halves(Some(Plain(s)), None)
    case Str(_, s) => Halves(None, Some(Plain(s)))
    case EnumVal(s) => Halves(Some(Plain(s)), None)
    case Scalar(_) => Halves(Some(v), None)
    case Null => Halves(None, None)
    case Dict(fields) =>
      Halves(NonEmpty(map k | k in fields && Walk(fields[k]).trusted.Some? :: Walk(fields[k]).trusted.value),
             NonEmpty(map k | k in fields && Walk(fields[k]).untrusted.Some? :: Walk(fields[k]).untrusted.value))
    case List(items) =>
      if forall i | 0 <= i < |items| :: Walk(items[i]).untrusted.None? then Halves(Some(v), None)
      else Halves(None, Some(List(seq(|items|, i requires 0 <= i < |items| => RenderItem(Walk(items[i]))))))
  }

  method WalkTrust(v: Val) returns (h: Halves)
    ensures h == Walk(v)
    decreases v, 1
  {
    match v
    case Str(marker, s) =>
      h := if marker == System then Halves(Some(Plain(s)), None) else Halves(None, Some(Plain(s)));
    case EnumVal(s) => h := Halves(Some(Plain(s)), None);
    case Scalar(_) => h := Halves(Some(v), None);
    case Null => h := Halves(None, None);
    case Dict(fields) => h := WalkDict(v);
    case List(items) => h := WalkList(v);
  }

  /** The halves of the entries already visited. */
  function TrustedPart(fields: map<string, Val>, todo: set<string>): map<string, Val> {
    map k | k in fields && k !in todo && Walk(fields[k]).trusted.Some? :: Walk(fields[k]).trusted.value
  }

  function UntrustedPart(fields: map<string, Val>, todo: set<string>): map<string, Val> {
    map k | k in fields && k !in todo && Walk(fields[k]).untrusted.Some? :: Walk(fields[k]).untrusted.value
  }

  lemma VisitTrusted(fields: map<string, Val>, todo: set<string>, k: string)
    requires k in fields && k in todo
    ensures TrustedPart(fields, todo - {k})
         == if Walk(fields[k]).trusted.Some? then TrustedPart(fields, todo)[k := Walk(fields[k]).trusted.value]
            else TrustedPart(fields, todo)
  {
  }

  lemma VisitUntrusted(fields: map<string, Val>, todo: set<string>, k: string)
    requires k in fields && k in todo
    ensures UntrustedPart(fields, todo - {k})
         == if Walk(fields[k]).untrusted.Some? then UntrustedPart(fields, todo)[k := Walk(fields[k]).untrusted.value]
            else UntrustedPart(fields, todo)
  {
  }

  lemma AllVisited(v: Val)
    requires v.Dict?
    ensures Walk(v) == Halves(NonEmpty(TrustedPart(v.fields, {})), NonEmpty(UntrustedPart(v.fields, {})))
  {
    CollectedHalves(v.fields, TrustedPart(v.fields, {}), UntrustedPart(v.fields, {}));
  }

  method WalkDict(v: Val) returns (h: Halves)
    requires v.Dict?
    ensures h == Walk(v)
    decreases v, 0
  {
    var fields := v.fields;
    var trusted: map<string, Val> := map[];
    var untrusted: map<string, Val> := map[];
    var todo := fields.Keys;
    while todo != {}
      invariant todo <= fields.Keys
      invariant trusted == TrustedPart(fields, todo) && untrusted == UntrustedPart(fields, todo)
      decreases todo
    {
      var k :| k in todo;
      var part := WalkTrust(fields[k]);
      VisitTrusted(fields, todo, k);
      VisitUntrusted(fields, todo, k);
      if part.trusted.Some? {
        trusted := trusted[k := part.trusted.value];
      }
      if part.untrusted.Some? {
        untrusted := untrusted[k := part.untrusted.value];
      }
      todo := todo - {k};
    }
    AllVisited(v);
    h := Halves(NonEmpty(trusted), NonEmpty(untrusted));
  }

  method WalkList(v: Val) returns (h: Halves)
    requires v.List?
    ensures h == Walk(v)
    decreases v, 0
  {
    var items := v.items;
    var parts: seq<Halves> := [];
    for i := 0 to |items|
      invariant |parts| == i && forall j | 0 <= j < i :: parts[j] == Walk(items[j])
    {
      var part := WalkTrust(items[i]);
      parts := parts + [part];
    }
    ListHalves(v, parts);
    if forall i | 0 <= i < |parts| :: parts[i].untrusted.None? {
      return Halves(Some(v), None);
    }
    var rendered := RenderItems(parts);
    h := Halves(None, Some(List(rendered)));
  }

  method RenderItems(parts: seq<Halves>) returns (rendered: seq<Val>)
    ensures rendered == seq(|parts|, i requires 0 <= i < |parts| => RenderItem(parts[i]))
  {
    rendered := [];
    for i := 0 to |parts|
      invariant |rendered| == i && forall j | 0 <= j < i :: rendered[j] == RenderItem(parts[j])
    {
      rendered := rendered + [RenderItem(parts[i])];
    }
  }

  function RenderedHalves(v: Val, parts: seq<Halves>): Halves {
    if forall i | 0 <= i < |parts| :: parts[i].untrusted.None? then Halves(Some(v), None)
    else Halves(None, Some(List(seq(|parts|, i requires 0 <= i < |parts| => RenderItem(parts[i])))))
  }

  /** The split of a list, told from the splits of its items. */
  lemma ListHalves(v: Val, parts: seq<Halves>)
    requires v.List? && |parts| == |v.items| && forall i | 0 <= i < |parts| :: parts[i] == Walk(v.items[i])
    ensures Walk(v) == RenderedHalves(v, parts)
  {
    if exists i :: 0 <= i < |parts| && parts[i].untrusted.Some? {
      MixedListHalves(v, parts);
    } else {
      assert forall i | 0 <= i < |v.items| :: Walk(v.items[i]) == parts[i] && parts[i].untrusted.None?;
    }
  }

  lemma MixedListHalves(v: Val, parts: seq<Halves>)
    requires v.List? && |parts| == |v.items| && forall i | 0 <= i < |parts| :: parts[i] == Walk(v.items[i])
    requires exists i :: 0 <= i < |parts| && parts[i].untrusted.Some?
    ensures Walk(v) == RenderedHalves(v, parts)
  {
    var items := v.items;
    var i :| 0 <= i < |parts| && parts[i].untrusted.Some?;
    assert Walk(items[i]).untrusted.Some?;
    assert seq(|items|, i requires 0 <= i < |items| => RenderItem(Walk(items[i])))
        == seq(|parts|, i requires 0 <= i < |parts| => RenderItem(parts[i]));
  }

  // ---- which trees have which halves ----------------------------------------

  /** Some string in the tree is free text or carries no marker. */
  predicate HasUntrusted(v: Val) {
    match v
    case Str(marker, _) => marker != System
    case Dict(fields) => exists k | k in fields :: HasUntrusted(fields[k])
    case List(items) => exists i | 0 <= i < |items| :: HasUntrusted(items[i])
    case _ => false
  }

  /** Something in the tree may enter the trusted half. */
  predicate HasTrusted(v: Val) {
    match v
    case Str(marker, _) => marker == System
    case Dict(fields) => exists k | k in fields :: HasTrusted(fields[k])
    case List(items) => forall i | 0 <= i < |items| :: !HasUntrusted(items[i])
    case Null => false
    case _ => true
  }

  lemma {:induction false} HalvesPresent(v: Val)
    ensures Walk(v).untrusted.Some? <==> HasUntrusted(v)
    ensures Walk(v).trusted.Some? <==> HasTrusted(v)
    decreases v
  {
    match v
    case Dict(fields) =>
      forall k | k in fields { HalvesPresent(fields[k]); }
      DictHalves(fields);
    case List(items) =>
      forall i | 0 <= i < |items| { HalvesPresent(items[i]); }
    case _ =>
  }

  /** The halves of a dict, key by key. */
  lemma DictHalves(fields: map<string, Val>)
    ensures var h := Walk(Dict(fields));
            && (h.trusted.Some? <==> exists k | k in fields :: Walk(fields[k]).trusted.Some?)
            && (h.untrusted.Some? <==> exists k | k in fields :: Walk(fields[k]).untrusted.Some?)
            && (h.trusted.Some? ==> h.trusted.value.Dict? && forall k | k in fields ::
                 if Walk(fields[k]).trusted.Some?
                 then k in h.trusted.value.fields && h.trusted.value.fields[k] == Walk(fields[k]).trusted.value
                 else k !in h.trusted.value.fields)
            && (h.trusted.Some? ==> h.trusted.value.fields.Keys <= fields.Keys)
            && (h.untrusted.Some? ==> h.untrusted.value.Dict? && forall k | k in fields ::
                 if Walk(fields[k]).untrusted.Some?
                 then k in h.untrusted.value.fields && h.untrusted.value.fields[k] == Walk(fields[k]).untrusted.value
                 else k !in h.untrusted.value.fields)
            && (h.untrusted.Some? ==> h.untrusted.value.fields.Keys <= fields.Keys)
  {
    var t := map k | k in fields && Walk(fields[k]).trusted.Some? :: Walk(fields[k]).trusted.value;
    var u := map k | k in fields && Walk(fields[k]).untrusted.Some? :: Walk(fields[k]).untrusted.value;
    if k :| k in fields && Walk(fields[k]).trusted.Some? {
      assert k in t;
    }
    if k :| k in fields && Walk(fields[k]).untrusted.Some? {
      assert k in u;
    }
    if t != map[] {
      var k :| k in t;
      assert k in fields && Walk(fields[k]).trusted.Some?;
    }
    if u != map[] {
      var k :| k in u;
      assert k in fields && Walk(fields[k]).untrusted.Some?;
    }
  }

  lemma CollectedHalves(fields: map<string, Val>, trusted: map<string, Val>, untrusted: map<string, Val>)
    requires trusted == map k | k in fields && Walk(fields[k]).trusted.Some? :: Walk(fields[k]).trusted.value
    requires untrusted == map k | k in fields && Walk(fields[k]).untrusted.Some? :: Walk(fields[k]).untrusted.value
    ensures Walk(Dict(fields)) == Halves(NonEmpty(trusted), NonEmpty(untrusted))
  {
    DictHalves(fields);
    var h := Walk(Dict(fields));
    assert h.trusted.Some? ==> h.trusted.value.fields == trusted;
    assert h.untrusted.Some? ==> h.untrusted.value.fields == untrusted;
    if trusted != map[] {
      var k :| k in trusted;
      assert k in fields;
    }
    if untrusted != map[] {
      var k :| k in untrusted;
      assert k in fields;
    }
  }

  // ---- the split is fail-closed and keeps paths ------------------------------

  datatype Step = Key(k: string) | Idx(i: nat)

  function At(v: Val, path: seq<Step>): Option<Val> {
    if path == [] then Some(v)
    else match (v, path[0])
      case (Dict(fields), Key(k)) => if k in fields then At(fields[k], path[1..]) else None
      case (List(items), Idx(i)) => if i < |items| then At(items[i], path[1..]) else None
      case _ => None
  }

  lemma {:induction false} NoUntrustedLeaf(v: Val, path: seq<Step>)
    requires !HasUntrusted(v)
    requires At(v, path).Some? && At(v, path).value.Str?
    ensures At(v, path).value.marker == System
    decreases |path|
  {
    if path != [] {
      match v
      case Dict(fields) => NoUntrustedLeaf(fields[path[0].k], path[1..]);
      case List(items) => NoUntrustedLeaf(items[path[0].i], path[1..]);
    }
  }

  /** Every string in the trusted half stands where the tree has the same system string or enum value. */
  lemma {:induction false} TrustedLeavesAreSystem(v: Val, path: seq<Step>, marker: Marker, s: string)
    requires Walk(v).trusted.Some? && At(Walk(v).trusted.value, path) == Some(Str(marker, s))
    ensures At(v, path) == Some(Str(System, s)) || At(v, path) == Some(EnumVal(s))
    decreases |path|
  {
    match v
    case Dict(fields) =>
      DictHalves(fields);
      if path != [] {
        assert path[0].Key? && path[0].k in fields;
        TrustedLeavesAreSystem(fields[path[0].k], path[1..], marker, s);
      }
    case List(_) =>
      HalvesPresent(v);
      NoUntrustedLeaf(v, path);
    case _ =>
  }

  /** Every free or unmarked string of the tree is in the untrusted half, at its own path. */
  lemma {:induction false} UntrustedLeavesKeepPath(v: Val, path: seq<Step>, marker: Marker, s: string)
    requires At(v, path) == Some(Str(marker, s)) && marker != System
    ensures Walk(v).untrusted.Some? && At(Walk(v).untrusted.value, path) == Some(Plain(s))
    decreases |path|
  {
    match v
    case Dict(fields) =>
      var k := path[0].k;
      UntrustedLeavesKeepPath(fields[k], path[1..], marker, s);
      DictHalves(fields);
    case List(items) =>
      var i := path[0].i;
      assert path == [Idx(i)] + path[1..];
      UntrustedLeavesKeepPath(items[i], path[1..], marker, s);
      RenderedLeafStays(items, i, path[1..], s);
    case _ =>
  }

  lemma RenderedLeafStays(items: seq<Val>, i: nat, path: seq<Step>, s: string)
    requires i < |items| && Walk(items[i]).untrusted.Some? && At(Walk(items[i]).untrusted.value, path) == Some(Plain(s))
    ensures var h := Walk(List(items)); h.untrusted.Some? && At(h.untrusted.value, [Idx(i)] + path) == Some(Plain(s))
  {
    RenderKeepsUntrusted(Walk(items[i]), path, s);
    assert ([Idx(i)] + path)[1..] == path;
  }

  lemma RenderKeepsUntrusted(h: Halves, path: seq<Step>, s: string)
    requires h.untrusted.Some? && At(h.untrusted.value, path) == Some(Plain(s))
    requires h.trusted.Some? ==> h.trusted.value.Dict? && h.untrusted.value.Dict?
    ensures At(RenderItem(h), path) == Some(Plain(s))
  {
  }

  // ---- when the split loses nothing ------------------------------------------

  /** Markers erased, None values and empty dicts dropped; a list keeps its length. */
  function Norm(v: Val): Option<Val> {
    match v
    case Null => None
    case Scalar(_) => Some(v)
    case EnumVal(s) => Some(Plain(s))
    case Str(_, s) => Some(Plain(s))
    case Dict(fields) => NonEmpty(map k | k in fields && Norm(fields[k]).Some? :: Norm(fields[k]).value)
    case List(items) => Some(List(seq(|items|, i requires 0 <= i < |items| => OrNull(Norm(items[i])))))
  }

  function OrNull(o: Option<Val>): Val {
    if o.Some? then o.value else Null
  }

  function NormHalf(o: Option<Val>): Option<Val> {
    if o.Some? then Norm(o.value) else None
  }

  /** Puts two halves together again, dict by dict. */
  function Merge(t: Option<Val>, u: Option<Val>): Option<Val> {
    if t.None? then u
    else if u.None? then t
    else Some(MergeVals(t.value, u.value))
  }

  function MergeVals(a: Val, b: Val): Val
    decreases a
  {
    if a.Dict? && b.Dict? then
      Dict(map k | k in a.fields.Keys + b.fields.Keys ::
        if k !in a.fields then b.fields[k]
        else if k !in b.fields then a.fields[k]
        else MergeVals(a.fields[k], b.fields[k]))
    else b
  }

  function Rebuilt(v: Val): Option<Val> {
    NormHalf(Merge(Walk(v).trusted, Walk(v).untrusted))
  }

  /**
   No dict inside a list that carries untrusted text has a field with both a
   trusted and an untrusted part: such a field is the one thing the shallow
   update of list items overwrites.
   */
  predicate Separable(v: Val) {
    match v
    case Dict(fields) => forall k | k in fields :: Separable(fields[k])
    case List(items) =>
      HasUntrusted(v) ==> forall i | 0 <= i < |items| ::
        && Separable(items[i])
        && (items[i].Dict? ==> forall k | k in items[i].fields ::
              !(HasTrusted(items[i].fields[k]) && HasUntrusted(items[i].fields[k])))
    case _ => true
  }

  /** Looking up a key in an optional dict. */
  function Field(o: Option<Val>, k: string): Option<Val> {
    if o.Some? && o.value.Dict? && k in o.value.fields then Some(o.value.fields[k]) else None
  }

  lemma NormField(fields: map<string, Val>, k: string)
    ensures Field(Norm(Dict(fields)), k) == if k in fields then Norm(fields[k]) else None
  {
    var m := map k | k in fields && Norm(fields[k]).Some? :: Norm(fields[k]).value;
    if k in fields && Norm(fields[k]).Some? {
      assert k in m;
    }
  }

  lemma NormDictShape(fields: map<string, Val>)
    ensures var n := Norm(Dict(fields));
            n.Some? ==> n.value.Dict? && n.value.fields != map[] && n.value.fields.Keys <= fields.Keys
  {
  }

  /** Dicts, or nothing: equal as soon as they agree on every key. */
  lemma SameFieldsSameNorm(a: map<string, Val>, b: map<string, Val>)
    requires forall k :: Field(Norm(Dict(a)), k) == Field(Norm(Dict(b)), k)
    ensures Norm(Dict(a)) == Norm(Dict(b))
  {
    NormDictShape(a);
    NormDictShape(b);
    var x, y := Norm(Dict(a)), Norm(Dict(b));
    if x.Some? {
      var k :| k in x.value.fields;
      assert Field(x, k) == Field(y, k);
    }
    if y.Some? {
      var k :| k in y.value.fields;
      assert Field(x, k) == Field(y, k);
    }
    if x.Some? && y.Some? {
      forall k
        ensures k in x.value.fields <==> k in y.value.fields
        ensures k in x.value.fields ==> x.value.fields[k] == y.value.fields[k]
      {
        assert Field(x, k) == Field(y, k);
      }
      assert x.value.fields == y.value.fields;
    }
  }

  /** Rebuilding a dict rebuilds it field by field. */
  lemma RebuiltField(fields: map<string, Val>, k: string)
    ensures Field(Rebuilt(Dict(fields)), k) == if k in fields then Rebuilt(fields[k]) else None
  {
    DictHalves(fields);
    var h := Walk(Dict(fields));
    var m := Merge(h.trusted, h.untrusted);
    if m.Some? {
      NormField(m.value.fields, k);
      if k in fields {
        assert Field(m, k) == Merge(Walk(fields[k]).trusted, Walk(fields[k]).untrusted);
      }
    }
  }

  lemma RebuiltDictIsDict(fields: map<string, Val>)
    ensures exists m: map<string, Val> :: Rebuilt(Dict(fields)) == Norm(Dict(m))
  {
    DictHalves(fields);
    var h := Walk(Dict(fields));
    var m := Merge(h.trusted, h.untrusted);
    if m.Some? {
      assert Rebuilt(Dict(fields)) == Norm(Dict(m.value.fields));
    } else {
      var none: map<string, Val> := map[];
      assert Norm(Dict(none)) == None;
    }
  }

  lemma RebuiltDictIff(fields: map<string, Val>)
    ensures Rebuilt(Dict(fields)) == Norm(Dict(fields)) <==> forall k | k in fields :: Rebuilt(fields[k]) == Norm(fields[k])
  {
    forall k
      ensures Field(Rebuilt(Dict(fields)), k) == if k in fields then Rebuilt(fields[k]) else None
      ensures Field(Norm(Dict(fields)), k) == if k in fields then Norm(fields[k]) else None
    {
      RebuiltField(fields, k);
      NormField(fields, k);
    }
    RebuiltDictIsDict(fields);
    var m: map<string, Val> :| Rebuilt(Dict(fields)) == Norm(Dict(m));
    if forall k | k in fields :: Rebuilt(fields[k]) == Norm(fields[k]) {
      SameFieldsSameNorm(m, fields);
    }
  }

  /** What a rendered list item keeps, compared with the item itself. */
  predicate ItemKept(item: Val) {
    NormHalf(Some(RenderItem(Walk(item)))) == Norm(item)
  }

  lemma RebuiltListIff(items: seq<Val>)
    requires HasUntrusted(List(items))
    ensures Rebuilt(List(items)) == Norm(List(items)) <==> forall i | 0 <= i < |items| :: ItemKept(items[i])
  {
    HalvesPresent(List(items));
    var rendered := seq(|items|, i requires 0 <= i < |items| => RenderItem(Walk(items[i])));
    assert Walk(List(items)) == Halves(None, Some(List(rendered)));
    var x := seq(|rendered|, i requires 0 <= i < |rendered| => OrNull(Norm(rendered[i])));
    var y := seq(|items|, i requires 0 <= i < |items| => OrNull(Norm(items[i])));
    assert Rebuilt(List(items)) == Some(List(x)) && Norm(List(items)) == Some(List(y));
    forall i | 0 <= i < |items|
      ensures x[i] == y[i] <==> ItemKept(items[i])
    {
      NormIsNeverNull(rendered[i]);
      NormIsNeverNull(items[i]);
    }
    if x == y {
      forall i | 0 <= i < |items|
        ensures ItemKept(items[i])
      {
        assert x[i] == y[i];
      }
    }
  }

  lemma NormIsNeverNull(v: Val)
    ensures Norm(v) != Some(Null)
  {
  }

  lemma {:induction false} SomethingTrustedNorms(v: Val)
    requires HasTrusted(v) || HasUntrusted(v)
    ensures Norm(v).Some?
    decreases v
  {
    match v
    case Dict(fields) =>
      var k :| k in fields && (HasTrusted(fields[k]) || HasUntrusted(fields[k]));
      SomethingTrustedNorms(fields[k]);
      NormField(fields, k);
    case _ =>
  }

  /** The untrusted half alone misses something whenever there is a trusted half. */
  lemma {:induction false} UntrustedHalfIsPartial(v: Val)
    requires HasTrusted(v) && HasUntrusted(v)
    ensures Walk(v).untrusted.Some? && Norm(Walk(v).untrusted.value) != Norm(v)
    decreases v
  {
    HalvesPresent(v);
    match v
    case Dict(fields) =>
      DictHalves(fields);
      var k :| k in fields && HasTrusted(fields[k]);
      SomethingTrustedNorms(fields[k]);
      var u := Walk(v).untrusted.value;
      NormField(fields, k);
      NormField(u.fields, k);
      HalvesPresent(fields[k]);
      if HasUntrusted(fields[k]) {
        UntrustedHalfIsPartial(fields[k]);
      }
    case List(items) => assert false;
    case _ =>
  }

  /** An item survives rendering exactly when it survives the deep merge and no field of it is split in two. */
  lemma ItemKeptIff(item: Val)
    requires Rebuilt(item) == Norm(item) <==> Separable(item)
    ensures ItemKept(item) <==>
              && Separable(item)
              && (item.Dict? ==> forall k | k in item.fields :: !(HasTrusted(item.fields[k]) && HasUntrusted(item.fields[k])))
  {
    var h := Walk(item);
    if item.Dict? && exists k | k in item.fields :: HasTrusted(item.fields[k]) && HasUntrusted(item.fields[k]) {
      var k :| k in item.fields && HasTrusted(item.fields[k]) && HasUntrusted(item.fields[k]);
      DictHalves(item.fields);
      HalvesPresent(item.fields[k]);
      UntrustedHalfIsPartial(item.fields[k]);
      var r := RenderItem(h);
      NormField(r.fields, k);
      NormField(item.fields, k);
    } else {
      RenderIsMerge(item);
    }
  }

  /** Without split fields the shallow update is the deep merge. */
  lemma RenderIsMerge(item: Val)
    requires item.Dict? ==> forall k | k in item.fields :: !(HasTrusted(item.fields[k]) && HasUntrusted(item.fields[k]))
    ensures NormHalf(Some(RenderItem(Walk(item)))) == Rebuilt(item)
  {
    var h := Walk(item);
    if h.trusted.Some? && h.untrusted.Some? {
      DictHalves(item.fields);
      var t, u := h.trusted.value.fields, h.untrusted.value.fields;
      forall k | k in item.fields
        ensures k !in t || k !in u
      {
        HalvesPresent(item.fields[k]);
      }
      DisjointMerge(t, u);
    }
  }

  lemma DisjointMerge(t: map<string, Val>, u: map<string, Val>)
    requires t.Keys !! u.Keys
    ensures MergeVals(Dict(t), Dict(u)) == Dict(t + u)
  {
    var m := MergeVals(Dict(t), Dict(u)).fields;
    assert m.Keys == (t + u).Keys;
    assert m == t + u;
  }

  /** The two halves together rebuild the tree exactly when it is separable. */
  lemma {:induction false} SplitLosesNothingIff(v: Val)
    ensures Rebuilt(v) == Norm(v) <==> Separable(v)
    decreases v
  {
    match v
    case Dict(fields) =>
      forall k | k in fields { SplitLosesNothingIff(fields[k]); }
      RebuiltDictIff(fields);
    case List(items) =>
      if HasUntrusted(v) {
        forall i | 0 <= i < |items|
          ensures ItemKept(items[i]) <==>
                    && Separable(items[i])
                    && (items[i].Dict? ==> forall k | k in items[i].fields ::
                          !(HasTrusted(items[i].fields[k]) && HasUntrusted(items[i].fields[k])))
        {
          SplitLosesNothingIff(items[i]);
          ItemKeptIff(items[i]);
        }
        RebuiltListIff(items);
      } else {
        HalvesPresent(v);
      }
    case _ =>
  }

  /** A list item whose nested dict mixes an identifier and a text loses the identifier. */
  lemma SplitLosesNestedField()
    ensures var v := List([Dict(map["detail" := Dict(map["id" := Str(System, "a"), "text" := Str(Free, "b")])])]);
            Rebuilt(v) != Norm(v)
  {
    var inner := Dict(map["id" := Str(System, "a"), "text" := Str(Free, "b")]);
    var item := Dict(map["detail" := inner]);
    var v := List([item]);
    assert HasTrusted(inner.fields["id"]) && HasUntrusted(inner.fields["text"]);
    assert HasTrusted(inner) && HasUntrusted(inner);
    assert HasUntrusted(item.fields["detail"]);
    assert HasUntrusted(item);
    assert HasUntrusted(v.items[0]);
    SplitLosesNothingIff(v);
  }
}
