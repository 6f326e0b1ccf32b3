/**
 * Operations on collections of records identified by a key, shared by the
 * entity stores: `find` by id, the `max(ids) + 1` id rule, and `filter` by id.
 * The key is passed as a function, so one definition serves clients, services,
 * orders (integer ids) and cars (string ids).
 */
module Keyed {
  import opened Common

  /** Every key occurs at most once. */
  predicate DistinctKeys<T, K(==)>(xs: seq<T>, key: T -> K)
  {
    forall i, j :: 0 <= i < j < |xs| ==> key(xs[i]) != key(xs[j])
  }

  /** Index of the first element with key `k` (JavaScript's `find`/`findIndex`), if any. */
  function FirstIndexOf<T, K(==)>(xs: seq<T>, key: T -> K, k: K): (r: Option<nat>)
    ensures r.None? <==> forall j :: 0 <= j < |xs| ==> key(xs[j]) != k
    ensures r.Some? ==> r.value < |xs| && key(xs[r.value]) == k
    ensures r.Some? ==> forall j :: 0 <= j < r.value ==> key(xs[j]) != k
  {
    if |xs| == 0 then None
    else if key(xs[0]) == k then Some(0)
    else match FirstIndexOf(xs[1..], key, k)
      case None => None
      case Some(i) => Some(i + 1)
  }

  /** The largest key, `Math.max(...xs.map(key))`. */
  function MaxKey<T>(xs: seq<T>, key: T -> int): (m: int)
    requires |xs| > 0
    ensures forall j :: 0 <= j < |xs| ==> key(xs[j]) <= m
    ensures exists j :: 0 <= j < |xs| && key(xs[j]) == m
  {
    if |xs| == 1 then key(xs[0])
    else
      var rest := MaxKey(xs[1..], key);
      if key(xs[0]) >= rest then key(xs[0]) else rest
  }

  /**
   * The id a store gives a new record: one more than the largest id present,
   * or 1 for an empty collection.
   */
  function NextId<T>(xs: seq<T>, key: T -> int): (r: int)
    ensures forall j :: 0 <= j < |xs| ==> key(xs[j]) < r
    ensures |xs| == 0 ==> r == 1
    ensures |xs| > 0 ==> exists j :: 0 <= j < |xs| && key(xs[j]) == r - 1
  {
    if |xs| > 0 then MaxKey(xs, key) + 1 else 1
  }

  /** `xs.filter(x => key(x) !== k)`: drops every element with key `k`, keeps the rest in order. */
  function Without<T(!new), K(==)>(xs: seq<T>, key: T -> K, k: K): (r: seq<T>)
    ensures |r| <= |xs|
    ensures forall x :: x in r <==> x in xs && key(x) != k
  {
    if |xs| == 0 then []
    else (if key(xs[0]) == k then [] else [xs[0]]) + Without(xs[1..], key, k)
  }

  /** Filtering distributes over concatenation: the survivors keep their relative order. */
  lemma {:induction false} WithoutAppend<T(!new), K>(a: seq<T>, b: seq<T>, key: T -> K, k: K)
    ensures Without(a + b, key, k) == Without(a, key, k) + Without(b, key, k)
  {
    if |a| == 0 {
      assert a + b == b;
    } else {
      assert (a + b)[1..] == a[1..] + b;
      WithoutAppend(a[1..], b, key, k);
    }
  }

  /** Filtering when no element has key `k` changes nothing. */
  lemma {:induction false} WithoutAbsent<T(!new), K>(xs: seq<T>, key: T -> K, k: K)
    requires forall j :: 0 <= j < |xs| ==> key(xs[j]) != k
    ensures Without(xs, key, k) == xs
  {
    if |xs| > 0 {
      WithoutAbsent(xs[1..], key, k);
      assert [xs[0]] + xs[1..] == xs;
    }
  }

  /** Deleting twice is deleting once. */
  lemma WithoutIdempotent<T(!new), K>(xs: seq<T>, key: T -> K, k: K)
    ensures Without(Without(xs, key, k), key, k) == Without(xs, key, k)
  {
    var r := Without(xs, key, k);
    forall j | 0 <= j < |r| ensures key(r[j]) != k {
      assert r[j] in r;
    }
    WithoutAbsent(r, key, k);
  }

  /** Filtering keeps keys distinct. */
  lemma {:induction false} WithoutKeepsDistinct<T(!new), K>(xs: seq<T>, key: T -> K, k: K)
    requires DistinctKeys(xs, key)
    ensures DistinctKeys(Without(xs, key, k), key)
  {
    if |xs| > 0 {
      var tail := Without(xs[1..], key, k);
      WithoutKeepsDistinct(xs[1..], key, k);
      if key(xs[0]) != k {
        forall j | 0 <= j < |tail| ensures key(xs[0]) != key(tail[j]) {
          assert tail[j] in xs[1..];
          var m :| 0 <= m < |xs[1..]| && xs[1..][m] == tail[j];
          assert xs[1 + m] == tail[j];
        }
      }
    }
  }

  /** With distinct keys, deleting a key that is present shortens the collection by exactly one. */
  lemma {:induction false} WithoutRemovesOne<T(!new), K>(xs: seq<T>, key: T -> K, k: K, i: nat)
    requires DistinctKeys(xs, key)
    requires i < |xs| && key(xs[i]) == k
    ensures |Without(xs, key, k)| == |xs| - 1
  {
    if i == 0 {
      WithoutAbsent(xs[1..], key, k);
    } else {
      WithoutRemovesOne(xs[1..], key, k, i - 1);
    }
  }
}
