/** A Python dict: its items in insertion order. Lookup, assignment
    (`d[k] = v`), `d.update(e)` and the comprehension `{k: v for k in ks}`
    follow Python's semantics: assigning an existing key keeps its position,
    a new key goes to the end. */
module OrderedDict {
  import opened Prelude

  type Dict<V> = seq<(string, V)>

  function Keys<V>(d: Dict<V>): seq<string>
  {
    seq(|d|, i requires 0 <= i < |d| => d[i].0)
  }

  lemma KeysCons<V>(d: Dict<V>)
    requires d != []
    ensures Keys(d) == [d[0].0] + Keys(d[1..])
  {
  }

  /** Well-formed dicts hold each key once. */
  predicate DistinctKeys<V>(d: Dict<V>)
  {
    forall i, j :: 0 <= i < j < |d| ==> d[i].0 != d[j].0
  }

  /** d.get(k) */
  function Get<V>(d: Dict<V>, k: string): (r: Option<V>)
    ensures r.Some? <==> k in Keys(d)
  {
    if d == [] then None
    else (KeysCons(d); if d[0].0 == k then Some(d[0].1) else Get(d[1..], k))
  }

  lemma {:induction false} GetAt<V>(d: Dict<V>, j: nat)
    requires DistinctKeys(d) && j < |d|
    ensures Get(d, d[j].0) == Some(d[j].1)
  {
    if j > 0 {
      GetAt(d[1..], j - 1);
    }
  }

  /** d[k] = v */
  function Put<V>(d: Dict<V>, k: string, v: V): Dict<V>
  {
    if d == [] then [(k, v)]
    else if d[0].0 == k then [(k, v)] + d[1..]
    else [d[0]] + Put(d[1..], k, v)
  }

  /** After `d[k] = v`, k maps to v, every other key keeps its value, an existing
      key keeps its position and a new key is appended. */
  lemma PutSpec<V>(d: Dict<V>, k: string, v: V)
    ensures Get(Put(d, k, v), k) == Some(v)
    ensures forall k' :: k' != k ==> Get(Put(d, k, v), k') == Get(d, k')
    ensures Keys(Put(d, k, v)) == if k in Keys(d) then Keys(d) else Keys(d) + [k]
    ensures DistinctKeys(d) ==> DistinctKeys(Put(d, k, v))
  {
    PutGet(d, k, v);
    PutKeys(d, k, v);
    if DistinctKeys(d) {
      PutDistinct(d, k, v);
    }
  }

  lemma {:induction false} PutGet<V>(d: Dict<V>, k: string, v: V)
    ensures Get(Put(d, k, v), k) == Some(v)
    ensures forall k' :: k' != k ==> Get(Put(d, k, v), k') == Get(d, k')
  {
    if d != [] && d[0].0 != k {
      PutGet(d[1..], k, v);
      assert Put(d, k, v)[1..] == Put(d[1..], k, v);
    }
  }

  lemma {:induction false} PutKeys<V>(d: Dict<V>, k: string, v: V)
    ensures Keys(Put(d, k, v)) == if k in Keys(d) then Keys(d) else Keys(d) + [k]
  {
    var r := Put(d, k, v);
    if d == [] {
    } else if d[0].0 == k {
      KeysCons(d);
      KeysCons(r);
      assert r[1..] == d[1..];
    } else {
      PutKeys(d[1..], k, v);
      KeysCons(d);
      KeysCons(r);
      assert r[1..] == Put(d[1..], k, v);
    }
  }

  lemma {:induction false} PutDistinct<V>(d: Dict<V>, k: string, v: V)
    requires DistinctKeys(d)
    ensures DistinctKeys(Put(d, k, v))
  {
    var r := Put(d, k, v);
    if d == [] {
    } else if d[0].0 == k {
      assert forall i :: 1 <= i < |r| ==> r[i] == d[i];
    } else {
      var rest := Put(d[1..], k, v);
      PutDistinct(d[1..], k, v);
      PutKeys(d[1..], k, v);
      assert r == [d[0]] + rest;
      KeysCons(d);
      assert d[0].0 !in Keys(d[1..]);
      assert d[0].0 !in Keys(rest);
      forall i, j | 0 <= i < j < |r| ensures r[i].0 != r[j].0 {
        if i == 0 {
          assert r[j] == rest[j - 1];
          assert rest[j - 1].0 == Keys(rest)[j - 1];
        } else {
          assert r[i] == rest[i - 1] && r[j] == rest[j - 1];
        }
      }
    }
  }

  /** d.update(e): every item of e is assigned into d, in e's order. */
  function Update<V>(d: Dict<V>, e: Dict<V>): Dict<V>
    decreases |e|
  {
    if e == [] then d else Update(Put(d, e[0].0, e[0].1), e[1..])
  }

  /** After `d.update(e)`, the keys are those of d, in place, followed by the new
      keys of e; a key of e maps to its value in e and every other key keeps its
      value in d. */
  lemma UpdateSpec<V>(d: Dict<V>, e: Dict<V>)
    ensures forall k :: k in Keys(Update(d, e)) <==> k in Keys(d) || k in Keys(e)
    ensures Keys(d) <= Keys(Update(d, e))
    ensures DistinctKeys(e) ==>
      forall k :: Get(Update(d, e), k) == if k in Keys(e) then Get(e, k) else Get(d, k)
    ensures DistinctKeys(d) ==> DistinctKeys(Update(d, e))
  {
    UpdateKeys(d, e);
    if DistinctKeys(e) {
      UpdateGet(d, e);
    }
  }

  lemma {:induction false} UpdateKeys<V>(d: Dict<V>, e: Dict<V>)
    ensures forall k :: k in Keys(Update(d, e)) <==> k in Keys(d) || k in Keys(e)
    ensures Keys(d) <= Keys(Update(d, e))
    ensures DistinctKeys(d) ==> DistinctKeys(Update(d, e))
    decreases |e|
  {
    if e != [] {
      var d' := Put(d, e[0].0, e[0].1);
      PutKeys(d, e[0].0, e[0].1);
      if DistinctKeys(d) {
        PutDistinct(d, e[0].0, e[0].1);
      }
      UpdateKeys(d', e[1..]);
      KeysCons(e);
      assert Keys(d) <= Keys(d');
    }
  }

  lemma {:induction false} UpdateGet<V>(d: Dict<V>, e: Dict<V>)
    requires DistinctKeys(e)
    ensures forall k :: Get(Update(d, e), k) == if k in Keys(e) then Get(e, k) else Get(d, k)
    decreases |e|
  {
    if e != [] {
      var d' := Put(d, e[0].0, e[0].1);
      PutGet(d, e[0].0, e[0].1);
      UpdateGet(d', e[1..]);
      KeysCons(e);
      assert e[0].0 !in Keys(e[1..]);
    }
  }

  /** {k: v for k in ks} */
  function FromKeys<V>(ks: seq<string>, v: V): Dict<V>
  {
    if ks == [] then [] else Put(FromKeys(ks[..|ks| - 1], v), ks[|ks| - 1], v)
  }

  /** The comprehension maps exactly the keys of ks to v, each once. */
  lemma FromKeysSpec<V>(ks: seq<string>, v: V)
    ensures forall k :: Get(FromKeys(ks, v), k) == if k in ks then Some(v) else None
    ensures forall k :: k in Keys(FromKeys(ks, v)) <==> k in ks
    ensures DistinctKeys(FromKeys(ks, v))
  {
    FromKeysGet(ks, v);
    FromKeysDistinct(ks, v);
  }

  lemma {:induction false} FromKeysGet<V>(ks: seq<string>, v: V)
    ensures forall k :: Get(FromKeys(ks, v), k) == if k in ks then Some(v) else None
  {
    if ks != [] {
      var init := ks[..|ks| - 1];
      assert ks == init + [ks[|ks| - 1]];
      FromKeysGet(init, v);
      PutGet(FromKeys(init, v), ks[|ks| - 1], v);
    }
  }

  lemma {:induction false} FromKeysDistinct<V>(ks: seq<string>, v: V)
    ensures DistinctKeys(FromKeys(ks, v))
  {
    if ks != [] {
      FromKeysDistinct(ks[..|ks| - 1], v);
      PutDistinct(FromKeys(ks[..|ks| - 1], v), ks[|ks| - 1], v);
    }
  }
}
