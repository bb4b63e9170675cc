/** The batch loop `write_loop` and the scoring run that drives it. */
module Scoring {
  import opened Wrappers
  import opened NdArrays
  import opened Progress
  import opened Batches
  import opened Aggregate
  import opened Effects
  import opened Writer

  /** The inputs handed to the loop: at least one, each holding at least as
      many samples as the first, which sets the sample count. */
  predicate Aligned<Row>(ins: seq<seq<Row>>)
  {
    |ins| > 0 && forall k :: 0 <= k < |ins| ==> |ins[0]| <= |ins[k]|
  }

  /** The inputs of batch `k`: every input cut to the batch's rows. */
  function BatchInputs<Row>(ins: seq<seq<Row>>, b: nat, k: nat): (r: seq<seq<Row>>)
    requires Aligned(ins) && b > 0 && k < |MakeBatches(|ins[0]|, b)|
    ensures |r| == |ins|
  {
    var span := MakeBatches(|ins[0]|, b)[k];
    SliceRows(ins, span.0, span.1)
  }

  /** What the loop relies on from the evaluator: on every batch, one result
      per requested effect, each of a shape the callback can reduce. */
  predicate Evaluates<Row>(ins: seq<seq<Row>>, fun: seq<seq<Row>> -> seq<NdArray>, b: nat,
                           count: nat, cfg: Config)
    requires Aligned(ins) && b > 0
  {
    forall k :: 0 <= k < |MakeBatches(|ins[0]|, b)| ==>
      && |fun(BatchInputs(ins, b, k))| == count
      && forall i :: 0 <= i < count ==> ReduceDefined(cfg, fun(BatchInputs(ins, b, k))[i])
  }

  /** The reduced results of every batch, in batch order. */
  function AllOutputs<Row>(ins: seq<seq<Row>>, fun: seq<seq<Row>> -> seq<NdArray>, b: nat,
                           count: nat, cfg: Config): (outs: seq<seq<NdArray>>)
    requires Aligned(ins) && b > 0 && Evaluates(ins, fun, b, count, cfg)
    ensures |outs| == |MakeBatches(|ins[0]|, b)|
    ensures forall k :: 0 <= k < |outs| ==> |outs[k]| == count
    ensures forall k, i :: 0 <= k < |outs| && 0 <= i < |outs[k]| ==> WellFormed(outs[k][i])
  {
    seq(|MakeBatches(|ins[0]|, b)|,
        k requires 0 <= k < |MakeBatches(|ins[0]|, b)| => ReduceAll(cfg, fun(BatchInputs(ins, b, k))))
  }

  /** The callback receives batch `k`'s results, and they reduce to the `k`-th
      entry of `AllOutputs`. */
  lemma OutputsAt<Row>(ins: seq<seq<Row>>, fun: seq<seq<Row>> -> seq<NdArray>, b: nat,
                       count: nat, cfg: Config, k: nat)
    requires Aligned(ins) && b > 0 && Evaluates(ins, fun, b, count, cfg)
    requires k < |MakeBatches(|ins[0]|, b)|
    ensures var x := fun(SliceRows(ins, MakeBatches(|ins[0]|, b)[k].0, MakeBatches(|ins[0]|, b)[k].1));
      && |x| == count
      && (forall i :: 0 <= i < count ==> ReduceDefined(cfg, x[i]))
      && ReduceAll(cfg, x) == AllOutputs(ins, fun, b, count, cfg)[k]
  {
    assert fun(BatchInputs(ins, b, k)) ==
      fun(SliceRows(ins, MakeBatches(|ins[0]|, b)[k].0, MakeBatches(|ins[0]|, b)[k].1));
  }

  /** Batch ranges inside `[0, total)` in increasing order, with one result
      per requested name for each range. */
  ghost predicate Plan(total: nat, effList: seq<string>, spans: seq<(nat, nat)>, outs: seq<seq<NdArray>>)
  {
    && Batched(total, effList, spans, outs)
    && (forall k, k' :: 0 <= k < k' < |spans| ==> spans[k].1 <= spans[k'].0)
  }

  /** Batch ranges inside `[0, total)`, with one result per requested name for
      each range. */
  ghost predicate Batched(total: nat, effList: seq<string>, spans: seq<(nat, nat)>, outs: seq<seq<NdArray>>)
  {
    && |outs| == |spans|
    && (forall k :: 0 <= k < |spans| ==> spans[k].0 <= spans[k].1 <= total)
    && (forall k :: 0 <= k < |outs| ==> |outs[k]| == |effList|)
    && (forall k, i :: 0 <= k < |outs| && 0 <= i < |outs[k]| ==> WellFormed(outs[k][i]))
  }

  /** `km.make_batches` yields such ranges, in increasing order. */
  lemma BatchesOrdered(n: nat, b: nat)
    requires b > 0
    ensures forall k, k' :: 0 <= k < k' < |MakeBatches(n, b)| ==>
      MakeBatches(n, b)[k].1 <= MakeBatches(n, b)[k'].0
  {
    var r := MakeBatches(n, b);
    forall k, k' | 0 <= k < k' < |r|
      ensures r[k].1 <= r[k'].0
    {
      BatchAt(n, b, k);
      BatchAt(n, b, k');
      MulMono(k + 1, k', b);
    }
  }

  /** Rows of the batches before `k` hold, for each requested name, the last
      result of that name in the batch. */
  ghost predicate Written(ds: map<string, NdArray>, total: nat, effList: seq<string>,
                    spans: seq<(nat, nat)>, outs: seq<seq<NdArray>>, k: nat)
    requires Plan(total, effList, spans, outs) && k <= |spans|
  {
    && (k > 0 ==> forall e :: e in effList ==> e in ds)
    && forall k', e :: 0 <= k' < k && e in effList ==>
      && e in ds
      && spans[k'].1 <= |ds[e].rows|
      && ds[e].rows[spans[k'].0..spans[k'].1] == outs[k'][LastIndex(effList, e)].rows
  }

  /** Names that are not requested keep their dataset, or their absence. */
  ghost predicate Untouched(old0: map<string, NdArray>, ds: map<string, NdArray>, effList: seq<string>)
  {
    forall e :: e !in effList ==> (e in ds <==> e in old0) && (e in old0 ==> ds[e] == old0[e])
  }

  /** The shape of the first result of `e` in the first batch. */
  ghost function FirstDims(effList: seq<string>, outs: seq<seq<NdArray>>, e: string): seq<nat>
    requires |outs| > 0 && |outs[0]| == |effList| && e in effList
  {
    assert effList[0..] == effList;
    outs[0][FirstIndex(effList, 0, e)].dims
  }

  /** The datasets that existed before the loop still exist; every dataset has
      the shape it had before the loop or, when the loop created it, the shape
      of its name's first result in the first batch. */
  ghost predicate Shaped(old0: map<string, NdArray>, ds: map<string, NdArray>, effList: seq<string>,
                   outs: seq<seq<NdArray>>)
    requires forall k :: 0 <= k < |outs| ==> |outs[k]| == |effList|
  {
    && old0.Keys <= ds.Keys
    && forall e :: e in ds ==>
      if e in old0 then ds[e].dims == old0[e].dims
      else |outs| > 0 && e in effList && ds[e].dims == FirstDims(effList, outs, e)
  }

  /** The results of the batches before `k` fit the file: each has as many rows
      as its batch, the shape of the dataset its name had before the loop, and
      for a name the loop creates, the shape of that name's first result. */
  ghost predicate FitUpTo(old0: map<string, NdArray>, total: nat, effList: seq<string>,
                          spans: seq<(nat, nat)>, outs: seq<seq<NdArray>>, k: nat)
    requires Plan(total, effList, spans, outs) && k <= |spans|
  {
    && (forall k', i :: 0 <= k' < k && 0 <= i < |effList| ==>
          |outs[k'][i].rows| == spans[k'].1 - spans[k'].0)
    && (forall k', i :: 0 <= k' < k && 0 <= i < |effList| && effList[i] in old0 ==>
          outs[k'][i].dims == old0[effList[i]].dims)
    && (forall k', i :: 0 <= k' < k && 0 <= i < |effList| && effList[i] !in old0 ==>
          outs[k'][i].dims == FirstDims(effList, outs, effList[i]))
  }

  /** The results of every batch fit the file. */
  ghost predicate AllFit(old0: map<string, NdArray>, total: nat, effList: seq<string>,
                         spans: seq<(nat, nat)>, outs: seq<seq<NdArray>>)
    requires Plan(total, effList, spans, outs)
  {
    FitUpTo(old0, total, effList, spans, outs, |spans|)
  }

  /** When the results fit the file, the callback succeeds on batch `k`. */
  lemma StepFits(old0: map<string, NdArray>, ds: map<string, NdArray>, n: nat, effList: seq<string>,
                 spans: seq<(nat, nat)>, outs: seq<seq<NdArray>>, k: nat)
    requires Plan(n, effList, spans, outs) && k < |spans| && Sized(ds, n)
    requires Shaped(old0, ds, effList, outs) && AllFit(old0, n, effList, spans, outs)
    ensures WriteFrom(ds, n, effList, outs[k], spans[k].0, spans[k].1, 0).1
  {
    var ys, s, t := outs[k], spans[k].0, spans[k].1;
    assert effList[0..] == effList;
    forall i | 0 <= i < |ys| && effList[i] in ds
      ensures ys[i].dims == ds[effList[i]].dims
    {
    }
    forall i, i' | 0 <= i < i' < |ys| && effList[i] == effList[i']
      ensures ys[i].dims == ys[i'].dims
    {
    }
    assert Fits(ds, effList, ys, s, t, 0);
    WriteFromSucceeds(ds, n, effList, ys, s, t, 0);
  }

  /** A successful batch `k` extends the fit to the batches before `k + 1`. */
  lemma StepFitted(old0: map<string, NdArray>, ds: map<string, NdArray>, n: nat, effList: seq<string>,
                   spans: seq<(nat, nat)>, outs: seq<seq<NdArray>>, k: nat)
    requires Plan(n, effList, spans, outs) && k < |spans| && Sized(ds, n)
    requires Shaped(old0, ds, effList, outs)
    requires k > 0 ==> forall e :: e in effList ==> e in ds
    requires FitUpTo(old0, n, effList, spans, outs, k)
    requires WriteFrom(ds, n, effList, outs[k], spans[k].0, spans[k].1, 0).1
    ensures FitUpTo(old0, n, effList, spans, outs, k + 1)
  {
    var ys, s, t := outs[k], spans[k].0, spans[k].1;
    WriteFromSucceeds(ds, n, effList, ys, s, t, 0);
    assert Fits(ds, effList, ys, s, t, 0);
    forall i | 0 <= i < |effList| && effList[i] !in old0
      ensures ys[i].dims == FirstDims(effList, outs, effList[i])
    {
      var e := effList[i];
      assert effList[0..] == effList;
      var f := FirstIndex(effList, 0, e);
      if e !in ds {
        if f < i {
          assert ys[f].dims == ys[i].dims;
        }
      }
    }
    forall k', i | 0 <= k' < k + 1 && 0 <= i < |effList| && effList[i] !in old0
      ensures outs[k'][i].dims == FirstDims(effList, outs, effList[i])
    {
    }
  }

  /** A name the loop does not request is left alone by batch `k`, whether the
      callback succeeds or not. */
  lemma StepUntouched(old0: map<string, NdArray>, ds: map<string, NdArray>, n: nat, effList: seq<string>,
                      spans: seq<(nat, nat)>, outs: seq<seq<NdArray>>, k: nat)
    requires Plan(n, effList, spans, outs) && k < |spans| && Sized(ds, n)
    requires Untouched(old0, ds, effList)
    ensures Untouched(old0, WriteFrom(ds, n, effList, outs[k], spans[k].0, spans[k].1, 0).0, effList)
  {
    forall e | e !in effList
      ensures var r := WriteFrom(ds, n, effList, outs[k], spans[k].0, spans[k].1, 0).0;
        (e in r <==> e in ds) && (e in ds ==> r[e] == ds[e])
    {
      assert effList[0..] == effList;
      WriteFromOthers(ds, n, effList, outs[k], spans[k].0, spans[k].1, 0, e);
    }
  }

  /** A successful batch `k` keeps every dataset's shape. */
  lemma StepShaped(old0: map<string, NdArray>, ds: map<string, NdArray>, n: nat, effList: seq<string>,
                   spans: seq<(nat, nat)>, outs: seq<seq<NdArray>>, k: nat)
    requires Plan(n, effList, spans, outs) && k < |spans| && Sized(ds, n)
    requires Shaped(old0, ds, effList, outs)
    requires k > 0 ==> forall e :: e in effList ==> e in ds
    ensures Shaped(old0, WriteFrom(ds, n, effList, outs[k], spans[k].0, spans[k].1, 0).0, effList, outs)
  {
    var r := WriteFrom(ds, n, effList, outs[k], spans[k].0, spans[k].1, 0).0;
    WriteFromKeys(ds, n, effList, outs[k], spans[k].0, spans[k].1, 0);
    forall e | e in r
      ensures if e in old0 then r[e].dims == old0[e].dims
        else |outs| > 0 && e in effList && r[e].dims == FirstDims(effList, outs, e)
    {
      WriteFromDims(ds, n, effList, outs[k], spans[k].0, spans[k].1, 0, e);
    }
  }

  /** A successful batch `k` writes its rows and leaves those of the earlier
      batches as they were. */
  lemma StepWritten(ds: map<string, NdArray>, n: nat, effList: seq<string>,
                    spans: seq<(nat, nat)>, outs: seq<seq<NdArray>>, k: nat)
    requires Plan(n, effList, spans, outs) && k < |spans| && Sized(ds, n)
    requires Written(ds, n, effList, spans, outs, k)
    requires WriteFrom(ds, n, effList, outs[k], spans[k].0, spans[k].1, 0).1
    ensures Written(WriteFrom(ds, n, effList, outs[k], spans[k].0, spans[k].1, 0).0, n, effList, spans, outs, k + 1)
  {
    var r := WriteFrom(ds, n, effList, outs[k], spans[k].0, spans[k].1, 0).0;
    assert effList[0..] == effList;
    forall k', e | 0 <= k' < k + 1 && e in effList
      ensures e in r && spans[k'].1 <= |r[e].rows|
      ensures r[e].rows[spans[k'].0..spans[k'].1] == outs[k'][LastIndex(effList, e)].rows
    {
      WriteFromKeys(ds, n, effList, outs[k], spans[k].0, spans[k].1, 0);
      if k' == k {
        WriteFromWrites(ds, n, effList, outs[k], spans[k].0, spans[k].1, 0, e);
      } else {
        KeepsRows(ds, n, effList, outs[k], spans[k].0, spans[k].1, e, spans[k'].0, spans[k'].1);
      }
    }
  }

  /** What the loop keeps true after `k` successful batches: the results so
      far fit the file and are written to it, and nothing else changed. */
  ghost predicate LoopInv(old0: map<string, NdArray>, ds: map<string, NdArray>, n: nat, effList: seq<string>,
                          spans: seq<(nat, nat)>, outs: seq<seq<NdArray>>, k: nat)
    requires Plan(n, effList, spans, outs) && k <= |spans|
  {
    Sized(ds, n) && Untouched(old0, ds, effList) && Shaped(old0, ds, effList, outs) &&
    Written(ds, n, effList, spans, outs, k) && FitUpTo(old0, n, effList, spans, outs, k)
  }

  /** Batch `k` leaves unrequested names alone; it succeeds when the results
      fit the file; and on success the loop's facts hold for `k + 1` batches. */
  lemma Step(old0: map<string, NdArray>, ds: map<string, NdArray>, n: nat, effList: seq<string>,
             spans: seq<(nat, nat)>, outs: seq<seq<NdArray>>, k: nat)
    requires Plan(n, effList, spans, outs) && k < |spans|
    requires LoopInv(old0, ds, n, effList, spans, outs, k)
    ensures var r := WriteFrom(ds, n, effList, outs[k], spans[k].0, spans[k].1, 0);
      && Untouched(old0, r.0, effList)
      && (AllFit(old0, n, effList, spans, outs) ==> r.1)
      && (r.1 ==> LoopInv(old0, r.0, n, effList, spans, outs, k + 1))
  {
    var r := WriteFrom(ds, n, effList, outs[k], spans[k].0, spans[k].1, 0);
    if AllFit(old0, n, effList, spans, outs) {
      StepFits(old0, ds, n, effList, spans, outs, k);
    }
    StepUntouched(old0, ds, n, effList, spans, outs, k);
    if r.1 {
      assert k > 0 ==> forall e :: e in effList ==> e in ds;
      StepShaped(old0, ds, n, effList, spans, outs, k);
      StepWritten(ds, n, effList, spans, outs, k);
      StepFitted(old0, ds, n, effList, spans, outs, k);
    }
  }

  /** The loop from batch `k` on over the file `ds`: the datasets it leaves,
      whether every callback succeeded, and how many callbacks it made. */
  function RunFrom(ds: map<string, NdArray>, n: nat, effList: seq<string>,
                   spans: seq<(nat, nat)>, outs: seq<seq<NdArray>>, k: nat): (r: (map<string, NdArray>, bool, nat))
    requires Batched(n, effList, spans, outs) && k <= |spans| && Sized(ds, n)
    ensures Sized(r.0, n)
    ensures k <= r.2 <= |spans|
    ensures r.1 ==> r.2 == |spans|
    ensures !r.1 ==> k < r.2
    decreases |spans| - k
  {
    if k == |spans| then (ds, true, k)
    else
      var (ds', ok) := WriteFrom(ds, n, effList, outs[k], spans[k].0, spans[k].1, 0);
      if !ok then (ds', false, k + 1) else RunFrom(ds', n, effList, spans, outs, k + 1)
  }

  /** One step of `RunFrom`. */
  lemma RunStep(ds: map<string, NdArray>, n: nat, effList: seq<string>,
                spans: seq<(nat, nat)>, outs: seq<seq<NdArray>>, k: nat)
    requires Batched(n, effList, spans, outs) && k < |spans| && Sized(ds, n)
    ensures var r := WriteFrom(ds, n, effList, outs[k], spans[k].0, spans[k].1, 0);
      RunFrom(ds, n, effList, spans, outs, k) ==
        if r.1 then RunFrom(r.0, n, effList, spans, outs, k + 1) else (r.0, false, k + 1)
  {
  }

  /** The loop from batch `k` on makes one callback per batch until one fails,
      leaves unrequested names alone, succeeds when the results fit the file,
      and on success has written every batch. */
  lemma {:induction false} RunFromFacts(old0: map<string, NdArray>, ds: map<string, NdArray>, n: nat,
                                        effList: seq<string>, spans: seq<(nat, nat)>,
                                        outs: seq<seq<NdArray>>, k: nat)
    requires Plan(n, effList, spans, outs) && k <= |spans|
    requires LoopInv(old0, ds, n, effList, spans, outs, k)
    ensures var (r, ok, c) := RunFrom(ds, n, effList, spans, outs, k);
      && k <= c <= |spans|
      && (ok ==> c == |spans|)
      && (!ok ==> k < c)
      && Untouched(old0, r, effList)
      && (AllFit(old0, n, effList, spans, outs) ==> ok)
      && (ok ==> LoopInv(old0, r, n, effList, spans, outs, |spans|))
    decreases |spans| - k
  {
    if k < |spans| {
      Step(old0, ds, n, effList, spans, outs, k);
      var (ds', ok) := WriteFrom(ds, n, effList, outs[k], spans[k].0, spans[k].1, 0);
      if ok {
        RunFromFacts(old0, ds', n, effList, spans, outs, k + 1);
      }
    }
  }

  /** The whole loop over the file `old0`: it makes one callback per batch
      until one fails; it leaves the names it does not request alone; it
      succeeds exactly when every batch's results fit the file; and when it
      succeeds, every requested name's dataset holds in each batch's rows that
      name's last result in the batch, with the shape the dataset had or, for
      a dataset it created, the shape of the name's first result. */
  lemma WriteLoopFacts(old0: map<string, NdArray>, n: nat, effList: seq<string>,
                       spans: seq<(nat, nat)>, outs: seq<seq<NdArray>>)
    requires Plan(n, effList, spans, outs) && Sized(old0, n)
    ensures var (r, ok, c) := RunFrom(old0, n, effList, spans, outs, 0);
      && c <= |spans|
      && (ok ==> c == |spans|)
      && (!ok ==> 0 < c)
      && Untouched(old0, r, effList)
      && (ok <==> AllFit(old0, n, effList, spans, outs))
      && (ok ==> Written(r, n, effList, spans, outs, |spans|))
      && (ok ==> Shaped(old0, r, effList, outs))
  {
    RunFromFacts(old0, old0, n, effList, spans, outs, 0);
  }

  /** Once every batch is written, each row `j` of a requested name's dataset
      holds row `j - start` of the name's last result in the batch `j / b`
      that covers it, `start` being that batch's first row. */
  lemma {:induction false} EveryRowWritten(ds: map<string, NdArray>, n: nat, b: nat, effList: seq<string>,
                                           outs: seq<seq<NdArray>>, e: string, j: nat)
    requires b > 0 && j < n && e in effList
    requires Plan(n, effList, MakeBatches(n, b), outs)
    requires Written(ds, n, effList, MakeBatches(n, b), outs, |MakeBatches(n, b)|)
    ensures j / b < |outs| && e in ds && j < |ds[e].rows|
    ensures var k := j / b;
      && k * b <= j
      && j - k * b < |outs[k][LastIndex(effList, e)].rows|
      && ds[e].rows[j] == outs[k][LastIndex(effList, e)].rows[j - k * b]
  {
    var spans := MakeBatches(n, b);
    var k := j / b;
    BatchOf(n, b, j);
    BatchAt(n, b, k);
    var s, t := spans[k].0, spans[k].1;
    assert s <= j < t;
    assert ds[e].rows[s..t][j - s] == ds[e].rows[j];
  }

  /** The progress step of the batch loop: when `log` is set, append the line
      `progress` gives for batch `batchIndex`, if any. */
  method LogProgress(batchIndex: nat, nbBatch: nat, log: bool, lines: seq<nat>) returns (lines': seq<nat>)
    requires lines == if log then Reported(nbBatch, batchIndex) else []
    ensures lines' == if log then Reported(nbBatch, batchIndex + 1) else []
  {
    lines' := lines;
    ReportedNext(nbBatch, batchIndex);
    if log {
      var s := Report(batchIndex, nbBatch);
      if s.Some? {
        lines' := lines' + [s.value];
      }
    }
  }

  /** Extending a prefix by one element. */
  lemma PrefixNext<T>(s: seq<T>, i: nat)
    requires i < |s|
    ensures s[..i + 1] == s[..i] + [s[i]]
  {
  }

  /** The body of the batch loop after the progress report: cut the inputs to
      batch `k`, evaluate `fun` on them and hand the results to the callback. */
  method RunBatch<Row>(ins: seq<seq<Row>>, fun: seq<seq<Row>> -> seq<NdArray>, w: Store,
                       batchSize: nat, batches: seq<(nat, nat)>, k: nat) returns (ok: bool)
    requires Aligned(ins) && batchSize > 0 && batches == MakeBatches(|ins[0]|, batchSize)
    requires w.Valid() && |ins[0]| == w.n && k < |batches|
    requires Evaluates(ins, fun, batchSize, |w.effList|, w.cfg)
    modifies w
    ensures w.Valid()
    ensures (w.datasets, ok) == WriteFrom(old(w.datasets), w.n, w.effList,
      AllOutputs(ins, fun, batchSize, |w.effList|, w.cfg)[k], batches[k].0, batches[k].1, 0)
  {
    var (batchStart, batchEnd) := batches[k];
    var insBatch := SliceRows(ins, batchStart, batchEnd);
    OutputsAt(ins, fun, batchSize, |w.effList|, w.cfg, k);
    var batchOuts := fun(insBatch);
    ok := w.Write(batchOuts, batchStart, batchEnd);
  }

  /** `write_loop(ins, fun, write_fun, batch_size, log=...)`: cut the samples
      into batches, report progress when `log` is set, evaluate `fun` on each
      batch's inputs and hand the results to the callback `w.Write`.  `lines`
      are the batch numbers reported and `calls` the ranges handed to the
      callback, in order; a failing callback ends the loop with `ok` false.
      The file afterwards is the one `RunFrom` describes. */
  method WriteLoop<Row>(ins: seq<seq<Row>>, fun: seq<seq<Row>> -> seq<NdArray>, w: Store,
                        batchSize: nat, log: bool)
    returns (lines: seq<nat>, calls: seq<(nat, nat)>, ok: bool)
    requires Aligned(ins) && batchSize > 0
    requires w.Valid() && |ins[0]| == w.n
    requires Evaluates(ins, fun, batchSize, |w.effList|, w.cfg)
    modifies w
    ensures w.Valid()
    ensures var spans := MakeBatches(|ins[0]|, batchSize);
      var outs := AllOutputs(ins, fun, batchSize, |w.effList|, w.cfg);
      && Batched(w.n, w.effList, spans, outs)
      && (w.datasets, ok, |calls|) == RunFrom(old(w.datasets), w.n, w.effList, spans, outs, 0)
    ensures |calls| <= |MakeBatches(|ins[0]|, batchSize)| && calls == MakeBatches(|ins[0]|, batchSize)[..|calls|]
    ensures lines == if log then Reported(|MakeBatches(|ins[0]|, batchSize)|, |calls|) else []
  {
    var nbSample := |ins[0]|;
    var batches := MakeBatches(nbSample, batchSize);
    var nbBatch := |batches|;
    ghost var outs := AllOutputs(ins, fun, batchSize, |w.effList|, w.cfg);
    assert Batched(w.n, w.effList, batches, outs);
    ghost var run := RunFrom(w.datasets, w.n, w.effList, batches, outs, 0);
    lines, calls := [], [];
    var batchIndex := 0;
    while batchIndex < nbBatch
      invariant 0 <= batchIndex <= nbBatch && w.Valid()
      invariant calls == batches[..batchIndex]
      invariant lines == if log then Reported(nbBatch, batchIndex) else []
      invariant RunFrom(w.datasets, w.n, w.effList, batches, outs, batchIndex) == run
    {
      lines := LogProgress(batchIndex, nbBatch, log, lines);
      RunStep(w.datasets, w.n, w.effList, batches, outs, batchIndex);
      PrefixNext(batches, batchIndex);
      calls := calls + [batches[batchIndex]];
      ok := RunBatch(ins, fun, w, batchSize, batches, batchIndex);
      if !ok {
        return;
      }
      batchIndex := batchIndex + 1;
    }
    ok := true;
  }

  /** `th.function([x], gs)`: the evaluator a batch's inputs are handed to,
      `eval` applied to the built gradients. */
  function Compiled<Row>(eval: (seq<Grad>, seq<seq<Row>>) -> seq<NdArray>, gs: seq<Grad>)
    : seq<seq<Row>> -> seq<NdArray>
  {
    batch => eval(gs, batch)
  }

  /** The compute part of the command: pair the target names with their ids
      (`tar_n2i`), build one gradient per requested effect, then run the batch
      loop one sample at a time, with progress logging, writing into a newly
      opened file of `|ins[0]|` rows per dataset.  A dispatch error stops the
      run before any batch, leaving the file empty.  `outNames` are the keys
      of the model's output dictionary, so no name occurs twice. */
  method Score<Row>(ins: seq<seq<Row>>, eval: (seq<Grad>, seq<seq<Row>>) -> seq<NdArray>,
                    effects: seq<string>, target: string, ids: seq<string>, names: seq<string>,
                    outNames: seq<string>, cfg: Config)
    returns (file: Store, err: Option<DispatchError>, lines: seq<nat>, calls: seq<(nat, nat)>, ok: bool)
    requires Aligned(ins)
    requires forall i, j :: 0 <= i < j < |outNames| ==> outNames[i] != outNames[j]
    requires AllResolve(effects, target, TargetIndex(ids, names), outNames) ==>
      Evaluates(ins, Compiled(eval, GradsOf(effects, target, TargetIndex(ids, names), outNames, cfg.perChar)), 1,
                |effects|, cfg)
    ensures fresh(file) && file.Valid() && file.n == |ins[0]| && file.cfg == cfg
    ensures err.None? <==> AllResolve(effects, target, TargetIndex(ids, names), outNames)
    ensures err.Some? ==> file.datasets == map[] && lines == [] && calls == [] && !ok
    ensures err.None? ==>
      var fun := Compiled(eval, GradsOf(effects, target, TargetIndex(ids, names), outNames, cfg.perChar));
      var spans := MakeBatches(|ins[0]|, 1);
      var outs := AllOutputs(ins, fun, 1, |effects|, cfg);
      && file.effList == effects
      && Plan(|ins[0]|, effects, spans, outs)
      && (file.datasets, ok, |calls|) == RunFrom(map[], |ins[0]|, effects, spans, outs, 0)
      && |calls| <= |spans| && calls == spans[..|calls|]
      && lines == Reported(|spans|, |calls|)
  {
    var tarN2i := TargetIndex(ids, names);
    var gs, effList, e := BuildEffects(effects, target, tarN2i, outNames, cfg.perChar);
    file := new Store(|ins[0]|, effList, cfg);
    err := e;
    if err.Some? {
      lines, calls, ok := [], [], false;
      return;
    }
    var fun := Compiled(eval, gs);
    BatchesOrdered(|ins[0]|, 1);
    lines, calls, ok := WriteLoop(ins, fun, file, 1, true);
  }
}
