/** The progress checkpoint rule of the batch loop (`progress`). */
module Progress {
  import opened Wrappers
  import opened NdArrays

  /** The checkpoint step `max(1, ceil(nbBatch / 20))`.  The module runs under
      Python 3 (its `log=print` default is not valid Python 2), so `nb_batch / s`
      is true division and the step is the ceiling of nbBatch / 20. */
  function Step(nbBatch: nat): (s: nat)
    ensures s >= 1
    ensures s * 20 >= nbBatch
    ensures nbBatch > 20 ==> (s - 1) * 20 < nbBatch
    ensures nbBatch <= 20 ==> s == 1
  {
    var c := (nbBatch + 19) / 20;
    if c < 1 then 1 else c
  }

  /** Whether batch `batchIndex` (0-based) of `nbBatch` produces a progress line;
      when it does, the 1-based batch number the line reports. */
  function Report(batchIndex: nat, nbBatch: nat): (r: Option<nat>)
    ensures r.Some? ==> r.value == batchIndex + 1
    ensures batchIndex == 0 || batchIndex + 1 == nbBatch ==> r.Some?
  {
    var s := Step(nbBatch);
    var number := batchIndex + 1;
    if number == 1 || number == nbBatch || number % s == 0 then Some(number) else None
  }

  /** The first and the last batch are always reported; any other batch is
      reported exactly when its 1-based number is a multiple of the step. */
  lemma ReportRule(batchIndex: nat, nbBatch: nat)
    requires batchIndex < nbBatch
    ensures batchIndex == 0 ==> Report(batchIndex, nbBatch) == Some(1)
    ensures batchIndex == nbBatch - 1 ==> Report(batchIndex, nbBatch) == Some(nbBatch)
    ensures 0 < batchIndex < nbBatch - 1 ==>
      (Report(batchIndex, nbBatch).Some? <==> (batchIndex + 1) % Step(nbBatch) == 0)
    ensures Report(batchIndex, nbBatch).Some? ==> Report(batchIndex, nbBatch).value == batchIndex + 1
  {
  }

  /** The batch numbers reported while batches 0 .. k-1 of `nbBatch` are run. */
  function Reported(nbBatch: nat, k: nat): seq<nat>
  {
    if k == 0 then []
    else
      var prev := Reported(nbBatch, k - 1);
      match Report(k - 1, nbBatch)
      case Some(number) => prev + [number]
      case None => prev
  }

  /** Running one more batch appends its report, if any. */
  lemma ReportedNext(nbBatch: nat, k: nat)
    ensures Reported(nbBatch, k + 1) ==
      Reported(nbBatch, k) + if Report(k, nbBatch).Some? then [Report(k, nbBatch).value] else []
  {
  }

  /** The log lists at most one line per batch, with batch numbers in
      `1..k` in increasing order. */
  lemma {:induction false} ReportedSorted(nbBatch: nat, k: nat)
    ensures var r := Reported(nbBatch, k);
      && |r| <= k
      && (forall j :: 0 <= j < |r| ==> 1 <= r[j] <= k)
      && (forall i, j :: 0 <= i < j < |r| ==> r[i] < r[j])
  {
    if k > 0 {
      ReportedSorted(nbBatch, k - 1);
    }
  }

  /** A batch number appears in the log exactly when its batch is reported. */
  lemma {:induction false} ReportedMembers(nbBatch: nat, k: nat, number: nat)
    ensures number in Reported(nbBatch, k) <==>
      1 <= number <= k && Report(number - 1, nbBatch).Some?
  {
    if k > 0 {
      ReportedMembers(nbBatch, k - 1, number);
    }
  }

  /** Counting `number in 1..k` with `number % s == 0` gives `k / s`. */
  function Multiples(k: nat, s: nat): nat
    requires s >= 1
  {
    if k == 0 then 0 else Multiples(k - 1, s) + (if k % s == 0 then 1 else 0)
  }

  /** Quotient and remainder are determined by any decomposition `k == q * s + r`. */
  lemma DivModUnique(k: nat, s: nat, q: nat, r: nat)
    requires s >= 1 && r < s && k == q * s + r
    ensures k / s == q && k % s == r
  {
    var q', r' := k / s, k % s;
    assert k == q' * s + r';
    if q' < q {
      MulMono(q' + 1, q, s);
    } else if q < q' {
      MulMono(q + 1, q', s);
    }
  }

  lemma {:induction false} MultiplesCount(k: nat, s: nat)
    requires s >= 1
    ensures Multiples(k, s) == k / s
  {
    if k > 0 {
      MultiplesCount(k - 1, s);
      var q, r := (k - 1) / s, (k - 1) % s;
      DivModUnique(k - 1, s, q, r);
      if r == s - 1 {
        DivModUnique(k, s, q + 1, 0);
      } else {
        DivModUnique(k, s, q, r + 1);
      }
    }
  }

  /** Before the last batch, at most one reported number is not a multiple of the step. */
  lemma {:induction false} ReportedCount(nbBatch: nat, k: nat)
    requires k <= nbBatch
    ensures |Reported(nbBatch, k)| <=
      Multiples(k, Step(nbBatch))
      + (if k >= 1 && Step(nbBatch) > 1 then 1 else 0)
      + (if k == nbBatch && k >= 1 && nbBatch % Step(nbBatch) != 0 then 1 else 0)
  {
    if k > 0 {
      ReportedCount(nbBatch, k - 1);
    }
  }

  lemma QuotientBound(m: nat, s: nat)
    requires s >= 1 && s * 20 >= m
    ensures m / s <= 20
    ensures m / s == 20 ==> m % s == 0
  {
    var q, r := m / s, m % s;
    assert m == q * s + r;
  }

  /** A run of any length produces at most 21 progress lines. */
  lemma ReportedAtMost21(nbBatch: nat)
    ensures |Reported(nbBatch, nbBatch)| <= 21
  {
    var s := Step(nbBatch);
    ReportedCount(nbBatch, nbBatch);
    MultiplesCount(nbBatch, s);
    QuotientBound(nbBatch, s);
    if s == 1 {
      assert nbBatch <= 20;
    }
  }

  /** Every run of at least one batch logs its first and its last batch. */
  lemma ReportsFirstAndLast(nbBatch: nat)
    requires nbBatch >= 1
    ensures 1 in Reported(nbBatch, nbBatch) && nbBatch in Reported(nbBatch, nbBatch)
  {
    ReportedMembers(nbBatch, nbBatch, 1);
    ReportedMembers(nbBatch, nbBatch, nbBatch);
  }
}
