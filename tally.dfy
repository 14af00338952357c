/**
 * Counting records under a key, as the `defaultdict` counters of the report
 * scripts do: how many records carry each key, and the fact that the counts
 * of distinct keys covering every record add up to the number of records.
 */
module Tally {

  /** No key occurs twice: the keys of a dict, in any order. */
  predicate Distinct<K(==)>(ks: seq<K>) {
    forall i, j :: 0 <= i < j < |ks| ==> ks[i] != ks[j]
  }

  /** The number of records whose key is `k`. */
  function Count<T, K(==)>(xs: seq<T>, key: T -> K, k: K): (n: nat)
    ensures n <= |xs|
  {
    if xs == [] then 0
    else Count(xs[..|xs| - 1], key, k) + (if key(xs[|xs| - 1]) == k then 1 else 0)
  }

  /** The set of keys the records carry. */
  function KeysOf<T, K(==)>(xs: seq<T>, key: T -> K): set<K> {
    set i | 0 <= i < |xs| :: key(xs[i])
  }

  /** A new record adds one to the count of its own key and to no other. */
  lemma CountSnoc<T, K>(xs: seq<T>, x: T, key: T -> K, k: K)
    ensures Count(xs + [x], key, k) == Count(xs, key, k) + (if key(x) == k then 1 else 0)
  {
    assert (xs + [x])[..|xs|] == xs;
  }

  /** A new record adds its own key to the key set. */
  lemma KeysOfSnoc<T, K>(xs: seq<T>, x: T, key: T -> K)
    ensures KeysOf(xs + [x], key) == KeysOf(xs, key) + {key(x)}
  {
    var before, after := KeysOf(xs, key), KeysOf(xs + [x], key);
    forall y | y in after ensures y in before + {key(x)} {
      var i :| 0 <= i < |xs| + 1 && key((xs + [x])[i]) == y;
      if i < |xs| {
        assert key(xs[i]) == y;
      }
    }
    forall y | y in before ensures y in after {
      var i :| 0 <= i < |xs| && key(xs[i]) == y;
      assert key((xs + [x])[i]) == y;
    }
    assert key((xs + [x])[|xs|]) == key(x);
    assert key(x) in after;
  }

  /** A key has a positive count exactly when some record carries it. */
  lemma {:induction false} CountPositive<T, K>(xs: seq<T>, key: T -> K, k: K)
    ensures Count(xs, key, k) > 0 <==> k in KeysOf(xs, key)
    decreases |xs|
  {
    if xs != [] {
      var init := xs[..|xs| - 1];
      assert xs == init + [xs[|xs| - 1]];
      CountPositive(init, key, k);
      KeysOfSnoc(init, xs[|xs| - 1], key);
    }
  }

  /** How often `k` occurs in `ks`. */
  function Occurrences<K(==)>(ks: seq<K>, k: K): nat {
    if ks == [] then 0 else (if ks[0] == k then 1 else 0) + Occurrences(ks[1..], k)
  }

  /** The counts of the keys `ks`, added up. */
  function SumCounts<T, K(==)>(xs: seq<T>, key: T -> K, ks: seq<K>): nat {
    if ks == [] then 0 else Count(xs, key, ks[0]) + SumCounts(xs, key, ks[1..])
  }

  lemma {:induction false} SumCountsSnoc<T, K>(xs: seq<T>, x: T, key: T -> K, ks: seq<K>)
    ensures SumCounts(xs + [x], key, ks) == SumCounts(xs, key, ks) + Occurrences(ks, key(x))
    decreases |ks|
  {
    if ks != [] {
      CountSnoc(xs, x, key, ks[0]);
      SumCountsSnoc(xs, x, key, ks[1..]);
    }
  }

  lemma {:induction false} OccursOnce<K>(ks: seq<K>, k: K)
    requires Distinct(ks) && k in ks
    ensures Occurrences(ks, k) == 1
    decreases |ks|
  {
    if ks[0] == k {
      OccursNot(ks[1..], k);
    } else {
      OccursOnce(ks[1..], k);
    }
  }

  lemma {:induction false} OccursNot<K>(ks: seq<K>, k: K)
    requires k !in ks
    ensures Occurrences(ks, k) == 0
    decreases |ks|
  {
    if ks != [] {
      OccursNot(ks[1..], k);
    }
  }

  /**
   * Each record is counted under exactly one key: over distinct keys that
   * cover every record, the counts add up to the number of records.
   */
  lemma {:induction false} CountsAddUp<T, K>(xs: seq<T>, key: T -> K, ks: seq<K>)
    requires Distinct(ks)
    requires forall i :: 0 <= i < |xs| ==> key(xs[i]) in ks
    ensures SumCounts(xs, key, ks) == |xs|
    decreases |xs|
  {
    if xs == [] {
      EmptyCounts(key, ks);
    } else {
      var init := xs[..|xs| - 1];
      assert xs == init + [xs[|xs| - 1]];
      CountsAddUp(init, key, ks);
      SumCountsSnoc(init, xs[|xs| - 1], key, ks);
      OccursOnce(ks, key(xs[|xs| - 1]));
    }
  }

  lemma {:induction false} EmptyCounts<T, K>(key: T -> K, ks: seq<K>)
    ensures SumCounts([], key, ks) == 0
    decreases |ks|
  {
    if ks != [] {
      EmptyCounts(key, ks[1..]);
    }
  }

  /** The sum of a list of counts. */
  function Sum(xs: seq<nat>): nat {
    if xs == [] then 0 else xs[0] + Sum(xs[1..])
  }

  lemma {:induction false} SumSnoc(xs: seq<nat>, x: nat)
    ensures Sum(xs + [x]) == Sum(xs) + x
    decreases |xs|
  {
    if xs != [] {
      assert (xs + [x])[1..] == xs[1..] + [x];
      SumSnoc(xs[1..], x);
    }
  }

  /** A list holding the count of each key of `ks` sums to `SumCounts`. */
  lemma {:induction false} SumOfCounts<T, K>(xs: seq<T>, key: T -> K, ks: seq<K>, counts: seq<nat>)
    requires |counts| == |ks|
    requires forall i :: 0 <= i < |ks| ==> counts[i] == Count(xs, key, ks[i])
    ensures Sum(counts) == SumCounts(xs, key, ks)
    decreases |ks|
  {
    if ks != [] {
      SumOfCounts(xs, key, ks[1..], counts[1..]);
    }
  }

  /** A reordering of distinct keys is distinct: `sorted` of a dict's keys lists each once. */
  lemma DistinctPermutation<K>(xs: seq<K>, ys: seq<K>)
    requires Distinct(xs) && multiset(xs) == multiset(ys)
    ensures Distinct(ys)
  {
    forall i, j | 0 <= i < j < |ys| ensures ys[i] != ys[j] {
      if ys[i] == ys[j] {
        var v := ys[i];
        assert ys == ys[..j] + ys[j..];
        assert v in multiset(ys[..j]) by { assert ys[..j][i] == v; }
        assert v in multiset(ys[j..]) by { assert ys[j..][0] == v; }
        assert multiset(ys)[v] == multiset(ys[..j])[v] + multiset(ys[j..])[v];
        AtMostOnce(xs, v);
        assert false;
      }
    }
  }

  lemma {:induction false} AtMostOnce<K>(xs: seq<K>, v: K)
    requires Distinct(xs)
    ensures multiset(xs)[v] <= 1
    decreases |xs|
  {
    if xs != [] {
      assert xs == [xs[0]] + xs[1..];
      AtMostOnce(xs[1..], v);
      if xs[0] == v {
        assert v !in xs[1..];
      }
    }
  }
}
