/**
 * analyze_email_years.py: counts the exported records by the first four
 * characters of their `date` and reports the keys in sorted order with the
 * total. Loading the JSON file is left out; the records' `date` values
 * (`None` when the key is missing) are the input.
 */
module YearAnalysis {
  import opened Wrappers
  import opened Tally

  /** The key of a record without a usable date (analyze_email_years.py:20). */
  const Unknown: string := "unknown"

  /**
   * The counter a record increments (analyze_email_years.py:15-20): the
   * first four characters of a date of length at least 4, else `"unknown"`.
   */
  function YearKey(date: Option<string>): (k: string)
    ensures k == Unknown || (date.Some? && |k| == 4 && k <= date.value)
    ensures date.None? || |date.value| < 4 ==> k == Unknown
    ensures date.Some? && |date.value| >= 4 ==> k == date.value[..4]
  {
    if date.Some? && |date.value| >= 4 then date.value[..4] else Unknown
  }

  // ---------------------------------------------------------------------------
  // Python's string order, used by `sorted`

  /** `a <= b` on Python strings: lexicographic by code point, a prefix first. */
  predicate LexLeq(a: string, b: string)
    decreases |a|
  {
    a == [] || (b != [] && (a[0] < b[0] || (a[0] == b[0] && LexLeq(a[1..], b[1..]))))
  }

  /** Any two strings are ordered one way or the other. */
  lemma {:induction false} LexTotal(a: string, b: string)
    ensures LexLeq(a, b) || LexLeq(b, a)
    decreases |a|
  {
    if a != [] && b != [] && a[0] == b[0] {
      LexTotal(a[1..], b[1..]);
    }
  }

  lemma {:induction false} LexRefl(a: string)
    ensures LexLeq(a, a)
    decreases |a|
  {
    if a != [] {
      LexRefl(a[1..]);
    }
  }

  lemma {:induction false} LexTrans(a: string, b: string, c: string)
    requires LexLeq(a, b) && LexLeq(b, c)
    ensures LexLeq(a, c)
    decreases |a|
  {
    if a != [] && a[0] == b[0] && b[0] == c[0] {
      LexTrans(a[1..], b[1..], c[1..]);
    }
  }

  /** Each key is at most the next one. */
  predicate SortedKeys(ks: seq<string>) {
    forall i :: 0 <= i < |ks| - 1 ==> LexLeq(ks[i], ks[i + 1])
  }

  /** In a sorted list every key is at most every later one. */
  lemma {:induction false} SortedKeysOrdered(ks: seq<string>, i: nat, j: nat)
    requires SortedKeys(ks) && i <= j < |ks|
    ensures LexLeq(ks[i], ks[j])
    decreases j - i
  {
    if i == j {
      LexRefl(ks[i]);
    } else {
      SortedKeysOrdered(ks, i, j - 1);
      LexTrans(ks[i], ks[j - 1], ks[j]);
    }
  }

  /** Insert `x` before the first key it does not exceed. */
  function InsertKey(x: string, ks: seq<string>): (r: seq<string>)
    requires SortedKeys(ks)
    ensures SortedKeys(r)
    ensures multiset(r) == multiset(ks) + multiset{x}
    ensures |r| == |ks| + 1
    ensures r[0] == x || (ks != [] && r[0] == ks[0])
  {
    if ks == [] then [x]
    else if LexLeq(x, ks[0]) then [x] + ks
    else
      var rest := InsertKey(x, ks[1..]);
      assert ks == [ks[0]] + ks[1..];
      LexTotal(x, ks[0]);
      assert LexLeq(ks[0], rest[0]);
      [ks[0]] + rest
  }

  /** `sorted(keys)`. */
  function SortKeys(ks: seq<string>): (r: seq<string>)
    ensures SortedKeys(r)
    ensures multiset(r) == multiset(ks)
  {
    if ks == [] then []
    else
      assert ks == [ks[0]] + ks[1..];
      InsertKey(ks[0], SortKeys(ks[1..]))
  }

  // ---------------------------------------------------------------------------
  // The counting loop and the report

  /**
   * The counters describe the records `rs`: one key per key met, each
   * holding the number of records carrying it, and `order` lists each key
   * once.
   */
  ghost predicate Counted(order: seq<string>, counts: map<string, nat>, rs: seq<Option<string>>) {
    && counts.Keys == KeysOf(rs, YearKey)
    && (forall k :: k in counts ==> counts[k] == Count(rs, YearKey, k))
    && Distinct(order)
    && (forall k :: k in order <==> k in counts)
  }

  /** One pass of the loop (analyze_email_years.py:15-21): the record's counter goes up by one. */
  method CountRecord(order: seq<string>, counts: map<string, nat>, ghost rs: seq<Option<string>>, date: Option<string>)
    returns (order': seq<string>, counts': map<string, nat>)
    requires Counted(order, counts, rs)
    ensures Counted(order', counts', rs + [date])
  {
    var key := YearKey(date);
    KeysOfSnoc(rs, date, YearKey);
    forall k ensures Count(rs + [date], YearKey, k) == Count(rs, YearKey, k) + (if k == key then 1 else 0) {
      CountSnoc(rs, date, YearKey, k);
    }
    if key in counts {
      order', counts' := order, counts[key := counts[key] + 1];
    } else {
      CountPositive(rs, YearKey, key);
      order', counts' := order + [key], counts[key := 1];
    }
  }

  /**
   * The loop over the records (analyze_email_years.py:14-21): each record
   * adds one to the counter of its key and one to `total`. `order` is the
   * order in which the `defaultdict` first met each key.
   */
  method CountYears(records: seq<Option<string>>) returns (order: seq<string>, counts: map<string, nat>, total: nat)
    ensures total == |records|
    ensures counts.Keys == KeysOf(records, YearKey)
    ensures forall k :: k in counts ==> counts[k] == Count(records, YearKey, k)
    ensures Distinct(order)
    ensures forall k :: k in order <==> k in counts
  {
    order, counts, total := [], map[], 0;
    var i := 0;
    while i < |records|
      invariant i <= |records|
      invariant total == i
      invariant Counted(order, counts, records[..i])
    {
      order, counts := CountRecord(order, counts, records[..i], records[i]);
      assert records[..i + 1] == records[..i] + [records[i]];
      total := total + 1;
      i := i + 1;
    }
    assert records[..i] == records;
  }

  /** `sorted(counts)`: the distinct keys in ascending order. */
  function SortDistinctKeys(order: seq<string>): (keys: seq<string>)
    requires Distinct(order)
    ensures SortedKeys(keys) && Distinct(keys)
    ensures forall k :: k in keys <==> k in order
  {
    var r := SortKeys(order);
    DistinctPermutation(order, r);
    assert forall k :: k in r <==> k in order by {
      forall k ensures k in r <==> k in order {
        assert k in r <==> k in multiset(r);
        assert k in order <==> k in multiset(order);
      }
    }
    r
  }

  /**
   * The report loop (analyze_email_years.py:24-25): the keys in sorted
   * order, each with its count.
   */
  method Report(counts: map<string, nat>, order: seq<string>) returns (keys: seq<string>, values: seq<nat>)
    requires Distinct(order)
    requires forall k :: k in order <==> k in counts
    ensures SortedKeys(keys) && Distinct(keys)
    ensures forall k :: k in keys <==> k in counts
    ensures |values| == |keys|
    ensures forall i :: 0 <= i < |keys| ==> values[i] == counts[keys[i]]
  {
    keys := SortDistinctKeys(order);
    values := [];
    var i := 0;
    while i < |keys|
      invariant i <= |keys|
      invariant forall j :: 0 <= j < |keys| ==> keys[j] in counts
      invariant |values| == i
      invariant forall j :: 0 <= j < i ==> values[j] == counts[keys[j]]
    {
      values := values + [counts[keys[i]]];
      i := i + 1;
    }
  }

  /**
   * `main` after loading (analyze_email_years.py:7-25): the keys are
   * reported in sorted order, once each, each with the number of records
   * carrying it, and the counts add up to `total`, the number of records.
   */
  method AnalyzeYears(records: seq<Option<string>>) returns (total: nat, keys: seq<string>, values: seq<nat>)
    ensures total == |records|
    ensures SortedKeys(keys) && Distinct(keys)
    ensures forall k :: k in keys <==> exists i :: 0 <= i < |records| && YearKey(records[i]) == k
    ensures |values| == |keys|
    ensures forall i :: 0 <= i < |keys| ==> values[i] == Count(records, YearKey, keys[i])
    ensures Sum(values) == total
  {
    var order, counts;
    order, counts, total := CountYears(records);
    keys, values := Report(counts, order);
    SumOfCounts(records, YearKey, keys, values);
    CountsAddUp(records, YearKey, keys);
  }
}
