/** JSON-like Python values and `sanitize_json`, which makes a query result
    transportable: NaN floats become None, dicts are rebuilt with the same keys,
    lists and tuples are rebuilt as lists. */
module Json {
  import opened Prelude
  import OrderedDict

  /** A Python value as it appears in a query result. A Dict's items are in
      insertion order; a Dict satisfying WellFormed holds each key once. */
  datatype Value =
    | Null                          // None
    | Bool(b: bool)
    | Int(i: int)
    | Str(s: string)
    | Num(x: real)                  // a float that is not NaN
    | NaN                           // float('nan')
    | List(items: seq<Value>)
    | Tuple(items: seq<Value>)
    | Dict(entries: seq<(string, Value)>)

  /** sanitize_json */
  function Sanitize(v: Value): Value
  {
    match v
    case Dict(es) => Dict(seq(|es|, i requires 0 <= i < |es| => (es[i].0, Sanitize(es[i].1))))
    case List(xs) => List(seq(|xs|, i requires 0 <= i < |xs| => Sanitize(xs[i])))
    case Tuple(xs) => List(seq(|xs|, i requires 0 <= i < |xs| => Sanitize(xs[i])))
    case NaN => Null
    case _ => v
  }

  /** No NaN anywhere in the value. */
  predicate NoNaN(v: Value)
  {
    match v
    case NaN => false
    case List(xs) => forall i :: 0 <= i < |xs| ==> NoNaN(xs[i])
    case Tuple(xs) => forall i :: 0 <= i < |xs| ==> NoNaN(xs[i])
    case Dict(es) => forall i :: 0 <= i < |es| ==> NoNaN(es[i].1)
    case _ => true
  }

  /** The transport form: no NaN and no tuple anywhere in the value. */
  predicate Canonical(v: Value)
  {
    match v
    case NaN => false
    case Tuple(_) => false
    case List(xs) => forall i :: 0 <= i < |xs| ==> Canonical(xs[i])
    case Dict(es) => forall i :: 0 <= i < |es| ==> Canonical(es[i].1)
    case _ => true
  }

  /** Every dict anywhere in the value holds each key once. */
  predicate WellFormed(v: Value)
  {
    match v
    case List(xs) => forall i :: 0 <= i < |xs| ==> WellFormed(xs[i])
    case Tuple(xs) => forall i :: 0 <= i < |xs| ==> WellFormed(xs[i])
    case Dict(es) => OrderedDict.DistinctKeys(es) && forall i :: 0 <= i < |es| ==> WellFormed(es[i].1)
    case _ => true
  }

  lemma {:induction false} CanonicalHasNoNaN(v: Value)
    requires Canonical(v)
    ensures NoNaN(v)
  {
    match v
    case List(xs) =>
      forall i | 0 <= i < |xs| ensures NoNaN(xs[i]) {
        CanonicalHasNoNaN(xs[i]);
      }
    case Dict(es) =>
      forall i | 0 <= i < |es| ensures NoNaN(es[i].1) {
        CanonicalHasNoNaN(es[i].1);
      }
    case _ =>
  }

  /** The result of sanitize_json is in transport form. */
  lemma {:induction false} SanitizeCanonical(v: Value)
    ensures Canonical(Sanitize(v))
  {
    match v
    case List(xs) =>
      forall i | 0 <= i < |xs| ensures Canonical(Sanitize(xs[i])) {
        SanitizeCanonical(xs[i]);
      }
    case Tuple(xs) =>
      forall i | 0 <= i < |xs| ensures Canonical(Sanitize(xs[i])) {
        SanitizeCanonical(xs[i]);
      }
    case Dict(es) =>
      forall i | 0 <= i < |es| ensures Canonical(Sanitize(es[i].1)) {
        SanitizeCanonical(es[i].1);
      }
    case _ =>
  }

  /** No NaN survives sanitize_json, however deeply it is nested. */
  lemma SanitizeNoNaN(v: Value)
    ensures NoNaN(Sanitize(v))
  {
    SanitizeCanonical(v);
    CanonicalHasNoNaN(Sanitize(v));
  }

  /** sanitize_json leaves a value unchanged exactly when it is already in
      transport form: non-NaN scalars are returned as they are. */
  lemma {:induction false} SanitizeFixedPoints(v: Value)
    ensures Sanitize(v) == v <==> Canonical(v)
  {
    match v
    case List(xs) =>
      var ys := Sanitize(v).items;
      forall i | 0 <= i < |xs| ensures Sanitize(xs[i]) == xs[i] <==> Canonical(xs[i]) {
        SanitizeFixedPoints(xs[i]);
      }
      if !Canonical(v) {
        var i :| 0 <= i < |xs| && !Canonical(xs[i]);
        assert ys[i] != xs[i];
      } else {
        assert ys == xs;
      }
    case Tuple(xs) =>
    case Dict(es) =>
      var fs := Sanitize(v).entries;
      forall i | 0 <= i < |es| ensures Sanitize(es[i].1) == es[i].1 <==> Canonical(es[i].1) {
        SanitizeFixedPoints(es[i].1);
      }
      if !Canonical(v) {
        var i :| 0 <= i < |es| && !Canonical(es[i].1);
        assert fs[i] != es[i];
      } else {
        assert fs == es;
      }
    case _ =>
  }

  /** sanitize_json is idempotent. */
  lemma SanitizeIdempotent(v: Value)
    ensures Sanitize(Sanitize(v)) == Sanitize(v)
  {
    SanitizeCanonical(v);
    SanitizeFixedPoints(Sanitize(v));
  }

  /** The shape sanitize_json keeps: a dict keeps its keys in order and each
      value is sanitized in its place; a list or tuple becomes a list of the
      same length whose i-th element is the sanitized i-th element; NaN is the
      only scalar it changes. So a NaN at any depth becomes None in its place. */
  lemma SanitizeShape(v: Value)
    ensures v.Dict? ==> Sanitize(v).Dict? && OrderedDict.Keys(Sanitize(v).entries) == OrderedDict.Keys(v.entries)
    ensures v.Dict? ==> forall i :: 0 <= i < |v.entries| ==> Sanitize(v).entries[i] == (v.entries[i].0, Sanitize(v.entries[i].1))
    ensures (v.List? || v.Tuple?) ==> Sanitize(v).List? && |Sanitize(v).items| == |v.items|
    ensures (v.List? || v.Tuple?) ==> forall i :: 0 <= i < |v.items| ==> Sanitize(v).items[i] == Sanitize(v.items[i])
    ensures v.NaN? ==> Sanitize(v) == Null
    ensures !(v.Dict? || v.List? || v.Tuple? || v.NaN?) ==> Sanitize(v) == v
  {
  }

  /** A NaN inside a list becomes None in its place; its neighbours are kept. */
  lemma ExampleNestedNaN()
    ensures Sanitize(List([Int(1), NaN])) == List([Int(1), Null])
  {
    SanitizeShape(List([Int(1), NaN]));
  }

  /** sanitize_json keeps a well-formed value well-formed. */
  lemma {:induction false} SanitizeWellFormed(v: Value)
    requires WellFormed(v)
    ensures WellFormed(Sanitize(v))
  {
    match v
    case List(xs) =>
      forall i | 0 <= i < |xs| ensures WellFormed(Sanitize(xs[i])) {
        SanitizeWellFormed(xs[i]);
      }
    case Tuple(xs) =>
      forall i | 0 <= i < |xs| ensures WellFormed(Sanitize(xs[i])) {
        SanitizeWellFormed(xs[i]);
      }
    case Dict(es) =>
      var fs := Sanitize(v).entries;
      assert OrderedDict.Keys(fs) == OrderedDict.Keys(es);
      assert forall i :: 0 <= i < |fs| ==> fs[i].0 == es[i].0;
      forall i | 0 <= i < |es| ensures WellFormed(Sanitize(es[i].1)) {
        SanitizeWellFormed(es[i].1);
      }
    case _ =>
  }
}
