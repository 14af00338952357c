/**
 * List logic over uids that follows a fetch: the missing-uid comprehension of
 * `log_missing_uids` (main.py:130, the same comprehension as
 * recover_missing_inbox_mails.py:137), the range of `get_uid_range`
 * (main.py:152-155) and the sorted batches of `fetch_uids_in_batches`
 * (main.py:158-161).
 */
module UidLists {
  import opened Batching

  /** `[x for x in xs if x not in s]`. */
  function Without<T>(xs: seq<T>, s: set<T>): (r: seq<T>)
    ensures |r| <= |xs|
  {
    if xs == [] then []
    else (if xs[0] in s then [] else [xs[0]]) + Without(xs[1..], s)
  }

  /** The comprehension keeps exactly the elements of `xs` outside `s`. */
  lemma {:induction false} WithoutMembers<T>(xs: seq<T>, s: set<T>)
    ensures forall x :: x in Without(xs, s) <==> x in xs && x !in s
    decreases |xs|
  {
    if xs != [] {
      WithoutMembers(xs[1..], s);
      assert forall x :: x in xs <==> x == xs[0] || x in xs[1..];
    }
  }

  /**
   * The comprehension keeps the order of `xs`: filtering a concatenation is
   * concatenating the filtered parts.
   */
  lemma {:induction false} WithoutAppend<T>(xs: seq<T>, ys: seq<T>, s: set<T>)
    ensures Without(xs + ys, s) == Without(xs, s) + Without(ys, s)
    decreases |xs|
  {
    if xs == [] {
      assert xs + ys == ys;
    } else {
      assert (xs + ys)[0] == xs[0];
      assert (xs + ys)[1..] == xs[1..] + ys;
      WithoutAppend(xs[1..], ys, s);
    }
  }

  /** Nothing is dropped when no element is excluded. */
  lemma {:induction false} WithoutNothing<T>(xs: seq<T>, s: set<T>)
    requires forall i :: 0 <= i < |xs| ==> xs[i] !in s
    ensures Without(xs, s) == xs
    decreases |xs|
  {
    if xs != [] {
      WithoutNothing(xs[1..], s);
      assert [xs[0]] + xs[1..] == xs;
    }
  }

  function Min(xs: seq<nat>): (m: nat)
    requires xs != []
    ensures m in xs && forall i :: 0 <= i < |xs| ==> m <= xs[i]
  {
    if |xs| == 1 then xs[0]
    else
      var m := Min(xs[1..]);
      assert forall i :: 1 <= i < |xs| ==> xs[i] == xs[1..][i - 1];
      if xs[0] <= m then xs[0] else m
  }

  function Max(xs: seq<nat>): (m: nat)
    requires xs != []
    ensures m in xs && forall i :: 0 <= i < |xs| ==> xs[i] <= m
  {
    if |xs| == 1 then xs[0]
    else
      var m := Max(xs[1..]);
      assert forall i :: 1 <= i < |xs| ==> xs[i] == xs[1..][i - 1];
      if xs[0] >= m then xs[0] else m
  }

  /**
   * `get_uid_range` after the fetch: `(min(uids), max(uids))`, or `(0, 0)` for
   * an empty folder. Both ends are uids of the folder and every uid lies
   * between them.
   */
  function UidRange(uids: seq<nat>): (r: (nat, nat))
    ensures uids == [] ==> r == (0, 0)
    ensures uids != [] ==> r.0 in uids && r.1 in uids
    ensures forall i :: 0 <= i < |uids| ==> r.0 <= uids[i] <= r.1
  {
    if uids == [] then (0, 0) else (Min(uids), Max(uids))
  }

  predicate Sorted(xs: seq<nat>) {
    forall i, j :: 0 <= i < j < |xs| ==> xs[i] <= xs[j]
  }

  /** Insert `x` before the first element greater than or equal to it. */
  function Insert(x: nat, xs: seq<nat>): (r: seq<nat>)
    requires Sorted(xs)
    ensures Sorted(r)
    ensures multiset(r) == multiset(xs) + multiset{x}
  {
    if xs == [] then [x]
    else if x <= xs[0] then [x] + xs
    else
      var rest := Insert(x, xs[1..]);
      assert multiset(xs) == multiset{xs[0]} + multiset(xs[1..]) by {
        assert xs == [xs[0]] + xs[1..];
      }
      assert forall i :: 0 <= i < |rest| ==> xs[0] <= rest[i] by {
        forall i | 0 <= i < |rest| ensures xs[0] <= rest[i] {
          assert rest[i] in multiset(rest);
          assert rest[i] == x || rest[i] in multiset(xs[1..]);
        }
      }
      ConsSorted(xs[0], rest);
      [xs[0]] + rest
  }

  /** A lower bound of a sorted list can go in front of it. */
  lemma ConsSorted(h: nat, xs: seq<nat>)
    requires Sorted(xs) && forall i :: 0 <= i < |xs| ==> h <= xs[i]
    ensures Sorted([h] + xs)
  {
    var r := [h] + xs;
    forall i, j | 0 <= i < j < |r| ensures r[i] <= r[j] {
      assert r[j] == xs[j - 1];
      if i > 0 {
        assert r[i] == xs[i - 1];
      }
    }
  }

  /** `sorted(uids)`. */
  function Sort(xs: seq<nat>): (r: seq<nat>)
    ensures Sorted(r)
    ensures multiset(r) == multiset(xs)
  {
    if xs == [] then []
    else
      assert xs == [xs[0]] + xs[1..];
      Insert(xs[0], Sort(xs[1..]))
  }

  /** `fetch_uids_in_batches` after the fetch: the sorted uids in batches of 500. */
  function SortedBatches(uids: seq<nat>): seq<seq<nat>> {
    SplitIntoBatches(Sort(uids), 500)
  }

  /**
   * The batches hold every uid exactly as often as the folder does, in
   * ascending order across batches, each of at most 500.
   */
  lemma SortedBatchesSpec(uids: seq<nat>)
    ensures multiset(Flatten(SortedBatches(uids))) == multiset(uids)
    ensures Sorted(Flatten(SortedBatches(uids)))
    ensures forall k :: 0 <= k < |SortedBatches(uids)| ==> 0 < |SortedBatches(uids)[k]| <= 500
  {
    FlattenSplitIntoBatches(Sort(uids), 500);
  }
}
