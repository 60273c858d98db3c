/** Generic sequence helpers: first-success search, flat-map and filter. */
module Seqs {

  /** Index of the first element satisfying `p`, or `|xs|` if there is none.
      This is the shape of every "try in order, stop at the first success" loop. */
  function FirstIndex<T>(xs: seq<T>, p: T -> bool): (r: nat)
    ensures r <= |xs|
    ensures forall i :: 0 <= i < r ==> !p(xs[i])
    ensures r < |xs| ==> p(xs[r])
  {
    if |xs| == 0 then 0
    else if p(xs[0]) then 0
    else 1 + FirstIndex(xs[1..], p)
  }

  /** Elements that all fail `p` only shift the first success. */
  lemma {:induction false} FirstIndexAppend<T>(a: seq<T>, b: seq<T>, p: T -> bool)
    requires forall i :: 0 <= i < |a| ==> !p(a[i])
    ensures FirstIndex(a + b, p) == |a| + FirstIndex(b, p)
  {
    if |a| > 0 {
      assert (a + b)[0] == a[0];
      assert (a + b)[1..] == a[1..] + b;
      FirstIndexAppend(a[1..], b, p);
    } else {
      assert a + b == b;
    }
  }

  /** Indexing and slicing past a prefix. */
  lemma AppendAt<T>(a: seq<T>, b: seq<T>, k: nat)
    requires k < |b|
    ensures (a + b)[|a| + k] == b[k] && (a + b)[|a| + k + 1..] == b[k + 1..]
  {
  }

  /** Iterator `flat_map(..).collect()`: the images of the elements, concatenated in order. */
  function FlatMap<T, U>(xs: seq<T>, f: T -> seq<U>): seq<U>
  {
    if |xs| == 0 then [] else f(xs[0]) + FlatMap(xs[1..], f)
  }

  /** Iterator `filter(..)`: the elements satisfying `p`, in order. */
  function Filter<T>(xs: seq<T>, p: T -> bool): (r: seq<T>)
    ensures |r| <= |xs|
    ensures forall y :: y in r ==> y in xs && p(y)
    ensures forall x :: x in xs && p(x) ==> x in r
  {
    if |xs| == 0 then []
    else if p(xs[0]) then [xs[0]] + Filter(xs[1..], p)
    else Filter(xs[1..], p)
  }

  lemma {:induction false} FlatMapAppend<T, U>(a: seq<T>, b: seq<T>, f: T -> seq<U>)
    ensures FlatMap(a + b, f) == FlatMap(a, f) + FlatMap(b, f)
  {
    if |a| == 0 {
      assert a + b == b;
    } else {
      assert (a + b)[1..] == a[1..] + b;
      FlatMapAppend(a[1..], b, f);
    }
  }

  lemma FlatMapOne<T, U>(a: T, f: T -> seq<U>)
    ensures FlatMap([a], f) == f(a)
  {
    assert [a][1..] == [];
  }

  lemma FlatMapTwo<T, U>(a: T, b: T, f: T -> seq<U>)
    ensures FlatMap([a, b], f) == f(a) + f(b)
  {
    FlatMapAppend([a], [b], f);
    FlatMapOne(a, f);
    FlatMapOne(b, f);
  }

  /** Three pairs laid end to end. */
  lemma ConcatPairs<T>(a: T, b: T, c: T, d: T, e: T, f: T)
    ensures [a, b] + [c, d] + [e, f] == [a, b, c, d, e, f]
  {
  }

  lemma FlatMapThree<T, U>(a: T, b: T, c: T, f: T -> seq<U>)
    ensures FlatMap([a, b, c], f) == f(a) + f(b) + f(c)
  {
    FlatMapAppend([a, b], [c], f);
    FlatMapTwo(a, b, f);
    FlatMapOne(c, f);
  }

  /** Chained flat-maps equal one flat-map of the composed expansion `h`: the
      outer step varies slowest, the inner one fastest. */
  lemma {:induction false} FlatMapFlatMap<T, U, V>(xs: seq<T>, f: T -> seq<U>, g: U -> seq<V>, h: T -> seq<V>)
    requires forall x :: h(x) == FlatMap(f(x), g)
    ensures FlatMap(FlatMap(xs, f), g) == FlatMap(xs, h)
  {
    if |xs| > 0 {
      FlatMapAppend(f(xs[0]), FlatMap(xs[1..], f), g);
      FlatMapFlatMap(xs[1..], f, g, h);
    }
  }

  /** Everything a flat-map produces comes from the image of some element. */
  lemma {:induction false} FlatMapMember<T, U>(xs: seq<T>, f: T -> seq<U>, y: U)
    requires y in FlatMap(xs, f)
    ensures exists x :: x in xs && y in f(x)
  {
    if y in f(xs[0]) {
      assert xs[0] in xs;
    } else {
      FlatMapMember(xs[1..], f, y);
      var x :| x in xs[1..] && y in f(x);
      assert x in xs;
    }
  }

  lemma MulSucc(a: nat, n: nat)
    ensures a * (n + 1) == a + a * n
  {
  }

  /** A flat-map whose images are each between `lo` and `hi` long. */
  lemma {:induction false} FlatMapLength<T, U>(xs: seq<T>, f: T -> seq<U>, lo: nat, hi: nat)
    requires forall x :: x in xs ==> lo <= |f(x)| <= hi
    ensures lo * |xs| <= |FlatMap(xs, f)| <= hi * |xs|
  {
    if |xs| > 0 {
      assert xs[0] in xs;
      assert forall x :: x in xs[1..] ==> x in xs;
      FlatMapLength(xs[1..], f, lo, hi);
      var n := |xs| - 1;
      assert |FlatMap(xs, f)| == |f(xs[0])| + |FlatMap(xs[1..], f)|;
      MulSucc(lo, n);
      MulSucc(hi, n);
    }
  }

  /** A flat-map whose images all have length `n` has length `n * |xs|`. */
  lemma FlatMapConstLength<T, U>(xs: seq<T>, f: T -> seq<U>, n: nat)
    requires forall x :: x in xs ==> |f(x)| == n
    ensures |FlatMap(xs, f)| == n * |xs|
  {
    FlatMapLength(xs, f, n, n);
  }

  /** Filtering after a class-preserving expansion equals expanding the filtered input. */
  lemma {:induction false} FilterFlatMap<T>(xs: seq<T>, f: T -> seq<T>, p: T -> bool)
    requires forall x :: x in xs ==> forall y :: y in f(x) ==> p(y) == p(x)
    ensures Filter(FlatMap(xs, f), p) == FlatMap(Filter(xs, p), f)
  {
    if |xs| > 0 {
      assert xs[0] in xs;
      assert forall x :: x in xs[1..] ==> x in xs;
      FilterAppend(f(xs[0]), FlatMap(xs[1..], f), p);
      FilterFlatMap(xs[1..], f, p);
      if p(xs[0]) {
        FilterAll(f(xs[0]), p);
        calc {
          FlatMap(Filter(xs, p), f);
          FlatMap([xs[0]] + Filter(xs[1..], p), f);
          { FlatMapAppend([xs[0]], Filter(xs[1..], p), f); FlatMapOne(xs[0], f); }
          f(xs[0]) + FlatMap(Filter(xs[1..], p), f);
        }
      } else {
        FilterNone(f(xs[0]), p);
      }
    }
  }

  lemma {:induction false} FilterAppend<T>(a: seq<T>, b: seq<T>, p: T -> bool)
    ensures Filter(a + b, p) == Filter(a, p) + Filter(b, p)
  {
    if |a| == 0 {
      assert a + b == b;
    } else {
      assert (a + b)[1..] == a[1..] + b;
      FilterAppend(a[1..], b, p);
    }
  }

  lemma {:induction false} FilterAll<T>(a: seq<T>, p: T -> bool)
    requires forall y :: y in a ==> p(y)
    ensures Filter(a, p) == a
  {
    if |a| > 0 {
      assert a[0] in a;
      assert forall y :: y in a[1..] ==> y in a;
      FilterAll(a[1..], p);
    }
  }

  lemma {:induction false} FilterNone<T>(a: seq<T>, p: T -> bool)
    requires forall y :: y in a ==> !p(y)
    ensures Filter(a, p) == []
  {
    if |a| > 0 {
      assert a[0] in a;
      assert forall y :: y in a[1..] ==> y in a;
      FilterNone(a[1..], p);
    }
  }
}
