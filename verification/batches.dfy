/** Batch planning: `km.make_batches` and `km.slice_X` as the batch loop uses them. */
module Batches {
  import opened NdArrays

  /** Number of batches of size `b` needed for `n` samples, `ceil(n / b)`. */
  function BatchCount(n: nat, b: nat): (m: nat)
    requires b > 0
    ensures m * b >= n
    ensures m >= 1 ==> (m - 1) * b < n
  {
    var m := (n + b - 1) / b;
    assert n + b - 1 == m * b + (n + b - 1) % b;
    m
  }

  /** `km.make_batches(n, b)`: the pairs `(i * b, min(n, (i + 1) * b))` for
      `i < ceil(n / b)`.  Keras divides by `b`, so `b` must be positive. */
  function MakeBatches(n: nat, b: nat): (r: seq<(nat, nat)>)
    requires b > 0
    ensures |r| == BatchCount(n, b)
    ensures r == [] <==> n == 0
    ensures n > 0 ==> r[0].0 == 0 && r[|r| - 1].1 == n
    ensures forall k :: 0 <= k < |r| ==> r[k].0 < r[k].1 <= n && r[k].1 - r[k].0 <= b
    ensures forall k :: 0 < k < |r| ==> r[k - 1].1 == r[k].0
  {
    var r := seq(BatchCount(n, b), i requires 0 <= i => (i * b, Min(n, (i + 1) * b)));
    BatchBounds(n, b, r);
    r
  }

  lemma BatchBounds(n: nat, b: nat, r: seq<(nat, nat)>)
    requires b > 0
    requires |r| == BatchCount(n, b)
    requires forall i :: 0 <= i < |r| ==> r[i] == (i * b, Min(n, (i + 1) * b))
    ensures n > 0 ==> r[0].0 == 0 && r[|r| - 1].1 == n
    ensures forall k :: 0 <= k < |r| ==> r[k].0 < r[k].1 <= n && r[k].1 - r[k].0 <= b
    ensures forall k :: 0 < k < |r| ==> r[k - 1].1 == r[k].0
  {
    var m := |r|;
    forall k | 0 <= k < m
      ensures r[k].0 < r[k].1 <= n && r[k].1 - r[k].0 <= b
      ensures k + 1 < m ==> r[k].1 == (k + 1) * b
    {
      MulMono(k, m - 1, b);
      if k + 1 < m {
        MulMono(k + 1, m - 1, b);
      }
    }
  }

  /** Batch `k` is the rows `[k * b, min(n, (k + 1) * b))`. */
  lemma BatchAt(n: nat, b: nat, k: nat)
    requires b > 0 && k < BatchCount(n, b)
    ensures MakeBatches(n, b)[k] == (k * b, Min(n, (k + 1) * b))
  {
  }

  /** Sample `j < n` lies in `[k * b, min(n, (k + 1) * b))` exactly when `k == j / b`. */
  lemma InBatch(n: nat, b: nat, j: nat, k: nat)
    requires b > 0 && j < n
    ensures k * b <= j < Min(n, (k + 1) * b) <==> k == j / b
  {
    var q, r := j / b, j % b;
    assert j == q * b + r && r < b;
    if k < q {
      MulMono(k + 1, q, b);
    } else if q < k {
      MulMono(q + 1, k, b);
    }
  }

  /** The batches partition `[0, n)`: sample `j` lies in batch `j / b` and in
      no other batch. */
  lemma BatchOf(n: nat, b: nat, j: nat)
    requires b > 0 && j < n
    ensures j / b < |MakeBatches(n, b)|
    ensures forall k :: 0 <= k < |MakeBatches(n, b)| ==>
      (MakeBatches(n, b)[k].0 <= j < MakeBatches(n, b)[k].1 <==> k == j / b)
  {
    var m, q := BatchCount(n, b), j / b;
    assert q * b <= j by {
      assert j == q * b + j % b;
    }
    if q >= m {
      MulMono(m, q, b);
    }
    forall k | 0 <= k < m
      ensures MakeBatches(n, b)[k].0 <= j < MakeBatches(n, b)[k].1 <==> k == q
    {
      BatchAt(n, b, k);
      InBatch(n, b, j, k);
    }
  }

  /** `km.slice_X(ins, range(start, end))`: every input restricted to the same rows. */
  function SliceRows<Row>(ins: seq<seq<Row>>, start: nat, end: nat): (r: seq<seq<Row>>)
    requires start <= end
    requires forall k :: 0 <= k < |ins| ==> end <= |ins[k]|
    ensures |r| == |ins|
    ensures forall k :: 0 <= k < |ins| ==> |r[k]| == end - start
    ensures forall k, i :: 0 <= k < |ins| && 0 <= i < end - start ==> r[k][i] == ins[k][start + i]
  {
    seq(|ins|, k requires 0 <= k < |ins| => ins[k][start..end])
  }
}
