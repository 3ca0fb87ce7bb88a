/** Option, the outcome of a Python call that may raise, and the two ways the
    modelled code combines such outcomes: a list comprehension (Collect) and a
    list built by appending inside a loop (ConcatAll). Also Python's zip. */
module Prelude {

  datatype Option<+T> = None | Some(value: T)

  /** The exceptions the modelled code lets escape on malformed backend data. */
  datatype Exception = IndexError | ValueError | AttributeError

  /** A Python call either returns a value or raises. */
  datatype Result<+T> = Ok(value: T) | Raised(error: Exception)

  function Min(a: nat, b: nat): nat
  {
    if a <= b then a else b
  }

  /** zip(a, b): pairs up elements from the front until the shorter input is exhausted. */
  function Zip<A, B>(a: seq<A>, b: seq<B>): (r: seq<(A, B)>)
    ensures |r| == Min(|a|, |b|)
    ensures forall i :: 0 <= i < |r| ==> r[i] == (a[i], b[i])
  {
    if a == [] || b == [] then [] else [(a[0], b[0])] + Zip(a[1..], b[1..])
  }

  /** `[f(x) for x in xs]` when each f(x) may raise: the list of values, or the
      first exception in evaluation order. */
  function Collect<T>(rs: seq<Result<T>>): Result<seq<T>>
  {
    if rs == [] then Ok([])
    else match rs[0]
      case Raised(e) => Raised(e)
      case Ok(x) =>
        match Collect(rs[1..])
        case Raised(e) => Raised(e)
        case Ok(xs) => Ok([x] + xs)
  }

  lemma {:induction false} CollectOk<T>(rs: seq<Result<T>>)
    ensures Collect(rs).Ok? <==> forall i :: 0 <= i < |rs| ==> rs[i].Ok?
    ensures Collect(rs).Ok? ==>
      |Collect(rs).value| == |rs| && forall i :: 0 <= i < |rs| ==> Collect(rs).value[i] == rs[i].value
  {
    if rs != [] {
      CollectOk(rs[1..]);
      assert forall i :: 1 <= i < |rs| ==> rs[i] == rs[1..][i - 1];
    }
  }

  /** The exception a comprehension raises is the one of its first failing element. */
  lemma {:induction false} CollectFirstError<T>(rs: seq<Result<T>>, k: nat)
    requires k < |rs| && rs[k].Raised?
    requires forall i :: 0 <= i < k ==> rs[i].Ok?
    ensures Collect(rs) == Raised(rs[k].error)
  {
    if k > 0 {
      CollectFirstError(rs[1..], k - 1);
    }
  }

  /** Extending an evaluated prefix by one more element. */
  lemma {:induction false} CollectSnoc<T>(rs: seq<Result<T>>, r: Result<T>)
    ensures Collect(rs + [r]) ==
      match Collect(rs)
      case Raised(e) => Raised(e)
      case Ok(xs) => (match r case Raised(e) => Raised(e) case Ok(x) => Ok(xs + [x]))
  {
    if rs == [] {
      assert rs + [r] == [r] && [r][1..] == [];
      match r
      case Raised(_) =>
      case Ok(x) => assert [x] + [] == [] + [x];
    } else {
      assert (rs + [r])[0] == rs[0] && (rs + [r])[1..] == rs[1..] + [r];
      CollectSnoc(rs[1..], r);
      match rs[0]
      case Raised(_) =>
      case Ok(x) =>
        match Collect(rs[1..])
        case Raised(_) =>
        case Ok(xs) =>
          match r
          case Raised(_) =>
          case Ok(y) => assert [x] + (xs + [y]) == ([x] + xs) + [y];
    }
  }

  /** One more step of a comprehension whose prefix has been evaluated: the
      next element either extends the list or is the exception raised. */
  lemma CollectStep<T>(rs: seq<Result<T>>, i: nat, found: seq<T>)
    requires i < |rs| && Collect(rs[..i]) == Ok(found)
    ensures rs[i].Ok? ==> Collect(rs[..i + 1]) == Ok(found + [rs[i].value])
    ensures rs[i].Raised? ==> Collect(rs) == Raised(rs[i].error)
  {
    assert rs[..i + 1] == rs[..i] + [rs[i]];
    CollectSnoc(rs[..i], rs[i]);
    if rs[i].Raised? {
      CollectOk(rs[..i]);
      assert forall k :: 0 <= k < i ==> rs[k] == rs[..i][k];
      CollectFirstError(rs, i);
    }
  }

  /** `a + b` on two lists that are each either built or raised, evaluated left to right. */
  function Concat<T>(a: Result<seq<T>>, b: Result<seq<T>>): Result<seq<T>>
  {
    match a
    case Raised(e) => Raised(e)
    case Ok(xs) => (match b case Raised(e) => Raised(e) case Ok(ys) => Ok(xs + ys))
  }

  /** A list built by a loop whose i-th iteration appends the entries rs[i], or raises. */
  function ConcatAll<T>(rs: seq<Result<seq<T>>>): Result<seq<T>>
  {
    if rs == [] then Ok([]) else Concat(rs[0], ConcatAll(rs[1..]))
  }

  lemma {:induction false} ConcatAllAppend<T>(a: seq<Result<seq<T>>>, b: seq<Result<seq<T>>>)
    ensures ConcatAll(a + b) == Concat(ConcatAll(a), ConcatAll(b))
  {
    if a == [] {
      assert a + b == b;
      match ConcatAll(b)
      case Raised(_) =>
      case Ok(ys) => assert [] + ys == ys;
    } else {
      assert (a + b)[1..] == a[1..] + b;
      ConcatAllAppend(a[1..], b);
      match a[0]
      case Raised(_) =>
      case Ok(xs) =>
        match ConcatAll(a[1..])
        case Raised(_) =>
        case Ok(ys) =>
          match ConcatAll(b)
          case Raised(_) =>
          case Ok(zs) => assert xs + (ys + zs) == (xs + ys) + zs;
    }
  }

  /** The loop completes exactly when no iteration raises. */
  lemma {:induction false} ConcatAllOk<T>(rs: seq<Result<seq<T>>>)
    ensures ConcatAll(rs).Ok? <==> forall i :: 0 <= i < |rs| ==> rs[i].Ok?
  {
    if rs != [] {
      assert forall i :: 1 <= i < |rs| ==> rs[i] == rs[1..][i - 1];
      ConcatAllOk(rs[1..]);
    }
  }

  /** Every entry of the built list was appended by some iteration, so what
      holds of every iteration's entries holds of the whole list. */
  lemma {:induction false} ConcatAllEvery<T>(rs: seq<Result<seq<T>>>, p: T -> bool)
    requires forall i :: 0 <= i < |rs| && rs[i].Ok? ==> forall x :: x in rs[i].value ==> p(x)
    ensures ConcatAll(rs).Ok? ==> forall x :: x in ConcatAll(rs).value ==> p(x)
  {
    if rs != [] {
      assert forall i :: 1 <= i < |rs| ==> rs[i] == rs[1..][i - 1];
      ConcatAllEvery(rs[1..], p);
    }
  }

  /** One more iteration of a loop that appends. */
  lemma ConcatAllSnoc<T>(rs: seq<Result<seq<T>>>, r: Result<seq<T>>)
    ensures ConcatAll(rs + [r]) == Concat(ConcatAll(rs), r)
  {
    ConcatAllAppend(rs, [r]);
    assert [r][1..] == [];
    match r
    case Raised(_) =>
    case Ok(xs) => assert xs + [] == xs;
  }

  /** `[f(x) for x in xs]` for an f that cannot raise. */
  function MapSeq<A, B>(f: A -> B, xs: seq<A>): (r: seq<B>)
    ensures |r| == |xs| && forall i :: 0 <= i < |xs| ==> r[i] == f(xs[i])
  {
    seq(|xs|, i requires 0 <= i < |xs| => f(xs[i]))
  }

  /** A loop over xs whose pass over x appends the entries f(x), or raises. */
  function ConcatMap<A, B>(f: A -> Result<seq<B>>, xs: seq<A>): Result<seq<B>>
  {
    ConcatAll(MapSeq(f, xs))
  }

  lemma ConcatMapAppend<A, B>(f: A -> Result<seq<B>>, a: seq<A>, b: seq<A>)
    ensures ConcatMap(f, a + b) == Concat(ConcatMap(f, a), ConcatMap(f, b))
  {
    var ma, mb := MapSeq(f, a), MapSeq(f, b);
    forall i | 0 <= i < |a + b|
      ensures MapSeq(f, a + b)[i] == (ma + mb)[i]
    {
      if i < |a| {
        assert (a + b)[i] == a[i];
      } else {
        assert (a + b)[i] == b[i - |a|];
      }
    }
    assert MapSeq(f, a + b) == ma + mb;
    ConcatAllAppend(ma, mb);
  }

  /** The pass over xs[i] extends what the passes before it built. */
  lemma ConcatMapSnoc<A, B>(f: A -> Result<seq<B>>, xs: seq<A>, i: nat)
    requires i < |xs|
    ensures ConcatMap(f, xs[..i + 1]) == Concat(ConcatMap(f, xs[..i]), f(xs[i]))
  {
    assert MapSeq(f, xs[..i + 1]) == MapSeq(f, xs[..i]) + [f(xs[i])];
    ConcatAllSnoc(MapSeq(f, xs[..i]), f(xs[i]));
  }

  /** Once a pass raises, the loop raises that exception. */
  lemma ConcatMapStops<A, B>(f: A -> Result<seq<B>>, xs: seq<A>, i: nat)
    requires i <= |xs| && ConcatMap(f, xs[..i]).Raised?
    ensures ConcatMap(f, xs) == ConcatMap(f, xs[..i])
  {
    assert xs == xs[..i] + xs[i..];
    ConcatMapAppend(f, xs[..i], xs[i..]);
  }

  /** `[x for x in xs if p(x)]` */
  function Filter<A>(p: A -> bool, xs: seq<A>): (r: seq<A>)
    ensures |r| <= |xs|
    ensures forall x :: x in r ==> x in xs && p(x)
  {
    if xs == [] then [] else (if p(xs[0]) then [xs[0]] else []) + Filter(p, xs[1..])
  }

  /** The first pass of the loop, then the rest. */
  lemma ConcatMapCons<A, B>(f: A -> Result<seq<B>>, xs: seq<A>)
    requires xs != []
    ensures ConcatMap(f, xs) == Concat(f(xs[0]), ConcatMap(f, xs[1..]))
  {
    assert MapSeq(f, xs)[1..] == MapSeq(f, xs[1..]);
  }

  /** A loop whose pass over x appends one entry when keep(x) and none
      otherwise builds, when it completes, one entry per kept element, in order. */
  lemma {:induction false} ConcatMapSingles<A, B>(f: A -> Result<seq<B>>, keep: A -> bool, xs: seq<A>)
    requires forall x :: x in xs && f(x).Ok? ==> |f(x).value| == (if keep(x) then 1 else 0)
    ensures ConcatMap(f, xs).Ok? ==>
      var ks := Filter(keep, xs);
      && |ConcatMap(f, xs).value| == |ks|
      && forall i :: 0 <= i < |ks| ==> f(ks[i]).Ok? && |f(ks[i]).value| == 1 && ConcatMap(f, xs).value[i] == f(ks[i]).value[0]
  {
    if xs != [] {
      var x, rest := xs[0], xs[1..];
      ConcatMapCons(f, xs);
      assert forall y :: y in rest ==> y in xs;
      ConcatMapSingles(f, keep, rest);
      if ConcatMap(f, xs).Ok? {
        var all := ConcatMap(f, xs).value;
        var head := f(x).value;
        var tail := ConcatMap(f, rest).value;
        assert all == head + tail;
        var kr := Filter(keep, rest);
        var ks := Filter(keep, xs);
        assert ks == (if keep(x) then [x] else []) + kr;
        if keep(x) {
          assert |head| == 1;
          forall i | 0 <= i < |ks|
            ensures f(ks[i]).Ok? && |f(ks[i]).value| == 1 && all[i] == f(ks[i]).value[0]
          {
            if i > 0 {
              assert ks[i] == kr[i - 1] && all[i] == tail[i - 1];
            }
          }
        } else {
          assert |head| == 0 && all == tail && ks == kr;
        }
      }
    }
  }
}
