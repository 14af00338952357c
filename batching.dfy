/**
 * `split_into_batches(uids, batch_size)` (main.py and recover_missing_inbox_mails.py):
 * the slices `uids[i:i + batch_size]` for `i` in `range(0, len(uids), batch_size)`.
 */
module Batching {

  /** The batches of `xs`; a batch size of 0 makes Python's `range` raise, so it is excluded. */
  function SplitIntoBatches<T>(xs: seq<T>, n: nat): (r: seq<seq<T>>)
    requires n > 0
    ensures forall i :: 0 <= i < |r| ==> 0 < |r[i]| <= n
    ensures forall i :: 0 <= i < |r| - 1 ==> |r[i]| == n
    decreases |xs|
  {
    if |xs| == 0 then []
    else if |xs| <= n then [xs]
    else
      var rest := SplitIntoBatches(xs[n..], n);
      [xs[..n]] + rest
  }

  /** The concatenation of a sequence of sequences. */
  function Flatten<T>(xss: seq<seq<T>>): seq<T> {
    if xss == [] then [] else xss[0] + Flatten(xss[1..])
  }

  /** Concatenating the batches gives the input back, in order. */
  lemma {:induction false} FlattenSplitIntoBatches<T>(xs: seq<T>, n: nat)
    requires n > 0
    ensures Flatten(SplitIntoBatches(xs, n)) == xs
    decreases |xs|
  {
    if |xs| > n {
      var r := SplitIntoBatches(xs, n);
      assert r[1..] == SplitIntoBatches(xs[n..], n);
      FlattenSplitIntoBatches(xs[n..], n);
      assert xs[..n] + xs[n..] == xs;
    } else if |xs| > 0 {
      assert Flatten([xs]) == xs + Flatten([]);
    }
  }

  /** Batch `k` is the slice of `xs` that starts at `k * n`, as in the list comprehension. */
  lemma {:induction false} BatchIsSlice<T>(xs: seq<T>, n: nat, k: nat)
    requires n > 0
    requires k < |SplitIntoBatches(xs, n)|
    ensures k * n < |xs|
    ensures SplitIntoBatches(xs, n)[k] == xs[k * n .. if (k + 1) * n <= |xs| then (k + 1) * n else |xs|]
    decreases k
  {
    if k > 0 {
      assert |xs| > n;
      var rest := xs[n..];
      assert SplitIntoBatches(xs, n)[k] == SplitIntoBatches(rest, n)[k - 1];
      BatchIsSlice(rest, n, k - 1);
      assert (k - 1) * n + n == k * n;
      assert k * n + n == (k + 1) * n;
    }
  }

  /** Element `q` of the input is in batch `b` when `q` lies in `[b * n, (b + 1) * n)`. */
  lemma {:induction false} BatchOfIndex<T>(xs: seq<T>, n: nat, q: nat, b: nat)
    requires n > 0 && q < |xs| && b * n <= q < (b + 1) * n
    ensures b < |SplitIntoBatches(xs, n)|
    ensures xs[q] in SplitIntoBatches(xs, n)[b]
    decreases b
  {
    if b > 0 {
      assert |xs| > n by {
        assert b * n >= n;
      }
      var rest := xs[n..];
      assert (b - 1) * n == b * n - n && b * n == (b - 1) * n + n;
      BatchOfIndex(rest, n, q - n, b - 1);
      assert SplitIntoBatches(xs, n)[b] == SplitIntoBatches(rest, n)[b - 1];
      assert rest[q - n] == xs[q];
    } else if |xs| > n {
      assert SplitIntoBatches(xs, n)[0] == xs[..n];
      assert xs[..n][q] == xs[q];
    }
  }

  /** The batches hold at most `n` elements each and together all of the input, so there are enough of them. */
  lemma {:induction false} BatchCount<T>(xs: seq<T>, n: nat)
    requires n > 0
    ensures |xs| <= n * |SplitIntoBatches(xs, n)|
    decreases |xs|
  {
    if |xs| > n {
      BatchCount(xs[n..], n);
      var k := |SplitIntoBatches(xs[n..], n)|;
      assert |SplitIntoBatches(xs, n)| == 1 + k;
      assert n * (1 + k) == n + n * k;
    }
  }

  /** Every element of a batch is an element of the input. */
  lemma BatchElementsFromInput<T>(xs: seq<T>, n: nat, k: nat, x: T)
    requires n > 0
    requires k < |SplitIntoBatches(xs, n)|
    requires x in SplitIntoBatches(xs, n)[k]
    ensures x in xs
  {
    BatchIsSlice(xs, n, k);
  }
}
