/**
 * Grouping with a running total per key, the way the dashboard builds a plain
 * object in a loop and then lists its entries: keys appear in order of first
 * insertion, each with the sum of the weights of its elements.
 */
module Grouping {

  /** Sum of `weight` over the elements whose key is `k`, accumulated from the left. */
  function KeyTotal<T, K(==)>(xs: seq<T>, key: T -> K, weight: T -> int, k: K): int
  {
    if |xs| == 0 then 0
    else KeyTotal(xs[..|xs| - 1], key, weight, k) + (if key(xs[|xs| - 1]) == k then weight(xs[|xs| - 1]) else 0)
  }

  /** Sum of `weight` over all elements. */
  function Total<T>(xs: seq<T>, weight: T -> int): int
  {
    if |xs| == 0 then 0 else Total(xs[..|xs| - 1], weight) + weight(xs[|xs| - 1])
  }

  predicate Distinct<K(==)>(ks: seq<K>)
  {
    forall i, j :: 0 <= i < j < |ks| ==> ks[i] != ks[j]
  }

  /** The keys in order of first appearance, which is the insertion order of an object keyed by them. */
  function FirstKeys<T, K(==)>(xs: seq<T>, key: T -> K): (r: seq<K>)
    ensures Distinct(r)
    ensures forall i :: 0 <= i < |xs| ==> key(xs[i]) in r
  {
    if |xs| == 0 then []
    else
      var previous := FirstKeys(xs[..|xs| - 1], key);
      var k := key(xs[|xs| - 1]);
      assert forall j :: 0 <= j < |xs| - 1 ==> xs[..|xs| - 1][j] == xs[j];
      if k in previous then previous else previous + [k]
  }

  /** Every listed key is the key of some element. */
  lemma {:induction false} FirstKeysOnlyKeys<T, K>(xs: seq<T>, key: T -> K, k: K)
    requires k in FirstKeys(xs, key)
    ensures exists i :: 0 <= i < |xs| && key(xs[i]) == k
  {
    var init := xs[..|xs| - 1];
    if k in FirstKeys(init, key) {
      FirstKeysOnlyKeys(init, key, k);
      var i :| 0 <= i < |init| && key(init[i]) == k;
      assert xs[i] == init[i];
    } else {
      assert key(xs[|xs| - 1]) == k;
    }
  }

  /** A key no element carries totals 0. */
  lemma {:induction false} KeyTotalAbsent<T, K>(xs: seq<T>, key: T -> K, weight: T -> int, k: K)
    requires forall i :: 0 <= i < |xs| ==> key(xs[i]) != k
    ensures KeyTotal(xs, key, weight, k) == 0
  {
    if |xs| > 0 {
      KeyTotalAbsent(xs[..|xs| - 1], key, weight, k);
    }
  }

  /** Sum of the key totals of the listed keys. */
  function SumOver<T, K(==)>(ks: seq<K>, xs: seq<T>, key: T -> K, weight: T -> int): int
  {
    if |ks| == 0 then 0 else KeyTotal(xs, key, weight, ks[0]) + SumOver(ks[1..], xs, key, weight)
  }

  /** One more element adds its weight to the sum over the keys exactly when its key is listed. */
  lemma {:induction false} SumOverSnoc<T, K>(ks: seq<K>, xs: seq<T>, x: T, key: T -> K, weight: T -> int)
    requires Distinct(ks)
    ensures SumOver(ks, xs + [x], key, weight) == SumOver(ks, xs, key, weight) + (if key(x) in ks then weight(x) else 0)
  {
    assert (xs + [x])[..|xs + [x]| - 1] == xs;
    if |ks| > 0 {
      SumOverSnoc(ks[1..], xs, x, key, weight);
      assert key(x) in ks <==> key(x) == ks[0] || key(x) in ks[1..] by {
        assert ks == [ks[0]] + ks[1..];
      }
    }
  }

  /** Summing the totals of a distinct list of keys that covers every element gives the grand total. */
  lemma {:induction false} SumOverCovering<T, K>(ks: seq<K>, xs: seq<T>, key: T -> K, weight: T -> int)
    requires Distinct(ks)
    requires forall i :: 0 <= i < |xs| ==> key(xs[i]) in ks
    ensures SumOver(ks, xs, key, weight) == Total(xs, weight)
    decreases |xs|
  {
    if |xs| == 0 {
      SumOverEmpty(ks, xs, key, weight);
    } else {
      var init, last := xs[..|xs| - 1], xs[|xs| - 1];
      assert init + [last] == xs;
      SumOverCovering(ks, init, key, weight);
      SumOverSnoc(ks, init, last, key, weight);
    }
  }

  lemma {:induction false} SumOverEmpty<T, K>(ks: seq<K>, xs: seq<T>, key: T -> K, weight: T -> int)
    requires |xs| == 0
    ensures SumOver(ks, xs, key, weight) == 0
  {
    if |ks| > 0 {
      SumOverEmpty(ks[1..], xs, key, weight);
    }
  }

  /** The object's entries: each key in insertion order with its total. */
  function GroupedEntries<T, K(==)>(xs: seq<T>, key: T -> K, weight: T -> int): (r: seq<(K, int)>)
    ensures |r| == |FirstKeys(xs, key)|
  {
    var ks := FirstKeys(xs, key);
    seq(|ks|, i requires 0 <= i < |ks| => (ks[i], KeyTotal(xs, key, weight, ks[i])))
  }

  /** Sum of the entries' values. */
  function SumValues<K>(es: seq<(K, int)>): int
  {
    if |es| == 0 then 0 else es[0].1 + SumValues(es[1..])
  }

  lemma {:induction false} SumValuesIsSumOver<T, K>(ks: seq<K>, xs: seq<T>, key: T -> K, weight: T -> int)
    ensures SumValues(seq(|ks|, i requires 0 <= i < |ks| => (ks[i], KeyTotal(xs, key, weight, ks[i]))))
         == SumOver(ks, xs, key, weight)
  {
    var es := seq(|ks|, i requires 0 <= i < |ks| => (ks[i], KeyTotal(xs, key, weight, ks[i])));
    if |ks| > 0 {
      SumValuesIsSumOver(ks[1..], xs, key, weight);
      assert es[1..] == seq(|ks[1..]|, i requires 0 <= i < |ks[1..]| => (ks[1..][i], KeyTotal(xs, key, weight, ks[1..][i])));
    }
  }

  /** The entries' values add up to the total weight: every element is counted under exactly one key. */
  lemma GroupedEntriesSum<T, K>(xs: seq<T>, key: T -> K, weight: T -> int)
    ensures SumValues(GroupedEntries(xs, key, weight)) == Total(xs, weight)
  {
    var ks := FirstKeys(xs, key);
    SumValuesIsSumOver(ks, xs, key, weight);
    forall i | 0 <= i < |xs| ensures key(xs[i]) in ks {
    }
    SumOverCovering(ks, xs, key, weight);
  }

  /** The running totals agree with `KeyTotal` over a prefix. */
  predicate TotalsMatch<T, K(==)>(totals: map<K, int>, prefix: seq<T>, key: T -> K, weight: T -> int)
  {
    forall k :: k in totals ==> totals[k] == KeyTotal(prefix, key, weight, k)
  }

  /** One step of the filling loop keeps the totals and the key order in step with the prefix. */
  lemma {:induction false} TallyStep<T, K>(xs: seq<T>, i: nat, key: T -> K, weight: T -> int,
                                          keys: seq<K>, totals: map<K, int>, keys': seq<K>, totals': map<K, int>)
    requires i < |xs|
    requires keys == FirstKeys(xs[..i], key)
    requires forall k :: k in totals <==> k in keys
    requires TotalsMatch(totals, xs[..i], key, weight)
    requires keys' == if key(xs[i]) in totals then keys else keys + [key(xs[i])]
    requires totals' == totals[key(xs[i]) := (if key(xs[i]) in totals then totals[key(xs[i])] else 0) + weight(xs[i])]
    ensures keys' == FirstKeys(xs[..i + 1], key)
    ensures forall k :: k in totals' <==> k in keys'
    ensures TotalsMatch(totals', xs[..i + 1], key, weight)
  {
    var k := key(xs[i]);
    var updated := totals';
    assert xs[..i + 1][..i] == xs[..i];
    if k !in totals {
      KeyTotalAbsent(xs[..i], key, weight, k);
    }
    forall k' | k' in updated
      ensures updated[k'] == KeyTotal(xs[..i + 1], key, weight, k')
    {
    }
  }

  /**
   * The loop that fills the object: for each element, the total under its key
   * (0 when the key is new) plus its weight; then the entries are listed.
   */
  method GroupTotals<T, K(==)>(xs: seq<T>, key: T -> K, weight: T -> int) returns (keys: seq<K>, totals: map<K, int>)
    ensures keys == FirstKeys(xs, key)
    ensures forall k :: k in totals <==> k in keys
    ensures forall k :: k in totals ==> totals[k] == KeyTotal(xs, key, weight, k)
  {
    keys := [];
    totals := map[];
    var i := 0;
    while i < |xs|
      invariant 0 <= i <= |xs|
      invariant keys == FirstKeys(xs[..i], key)
      invariant forall k :: k in totals <==> k in keys
      invariant TotalsMatch(totals, xs[..i], key, weight)
    {
      var k := key(xs[i]);
      var previous := if k in totals then totals[k] else 0;
      var keys', totals' := keys, totals[k := previous + weight(xs[i])];
      if k !in totals {
        keys' := keys + [k];
      }
      TallyStep(xs, i, key, weight, keys, totals, keys', totals');
      keys, totals := keys', totals';
      i := i + 1;
    }
    assert xs[..i] == xs;
  }
}
