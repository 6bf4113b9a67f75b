/** Lists of records with a key field, and the remove-by-key filter
    `list.filter(x => x.key !== k)` that the cart store, the Cart page and
    the product modal each apply to their own records. */
module Keyed {

  /** The entries whose key differs from `k`, in their original order. */
  function Without<T(==,!new), K(==)>(xs: seq<T>, key: T -> K, k: K): (r: seq<T>)
    ensures |r| <= |xs|
    ensures forall x :: x in r <==> x in xs && key(x) != k
  {
    if |xs| == 0 then []
    else if key(xs[0]) == k then Without(xs[1..], key, k)
    else [xs[0]] + Without(xs[1..], key, k)
  }

  /** The entries whose key is `k`, in their original order: exactly what
      `Without` takes out. */
  function With<T(==,!new), K(==)>(xs: seq<T>, key: T -> K, k: K): (r: seq<T>)
    ensures |r| <= |xs|
    ensures forall x :: x in r <==> x in xs && key(x) == k
  {
    if |xs| == 0 then []
    else if key(xs[0]) == k then [xs[0]] + With(xs[1..], key, k)
    else With(xs[1..], key, k)
  }

  /** The removal keeps the order of the rest: it acts on a concatenation
      piece by piece. */
  lemma {:induction false} WithoutDistributes<T(!new), K>(a: seq<T>, b: seq<T>, key: T -> K, k: K)
    ensures Without(a + b, key, k) == Without(a, key, k) + Without(b, key, k)
    decreases |a|
  {
    if |a| == 0 {
      assert a + b == b;
    } else {
      assert (a + b)[1..] == a[1..] + b;
      WithoutDistributes(a[1..], b, key, k);
    }
  }

  /** Removing a key no entry has changes nothing. */
  lemma {:induction false} WithoutAbsent<T(!new), K>(xs: seq<T>, key: T -> K, k: K)
    requires forall i :: 0 <= i < |xs| ==> key(xs[i]) != k
    ensures Without(xs, key, k) == xs
    decreases |xs|
  {
    if |xs| > 0 {
      WithoutAbsent(xs[1..], key, k);
    }
  }

  /** Removing twice is removing once. */
  lemma WithoutIdempotent<T(!new), K>(xs: seq<T>, key: T -> K, k: K)
    ensures Without(Without(xs, key, k), key, k) == Without(xs, key, k)
  {
    var r := Without(xs, key, k);
    forall i | 0 <= i < |r| ensures key(r[i]) != k {
      assert r[i] in r;
    }
    WithoutAbsent(r, key, k);
  }
}
