# SNP effect scoring engine of deepcpg, modelled in Dafny

The `snp` command of deepcpg (`predict/models/dnn/snp.py`) scores how strongly
each input position influences a trained model's predictions. It builds one
gradient expression per requested *effect*. `mean` and `var` select the target's
mean or variance output. `disp` is the squared mismatch between the variance
output and the Bernoulli variance of the mean output. Any other kind averages
all outputs. The command then runs the samples through a batch loop
(`write_loop`). For every batch the loop reports progress, evaluates the
compiled gradients on the batch's inputs, and hands the results to a callback
(`write_fun`). The callback optionally cuts a centred window of positions out of
each result and optionally collapses the position axis with `max` or `mean`. It
then writes the reduced result into rows `[batch_start, batch_end)` of an HDF5
dataset named after the effect. A dataset is created, zero-filled, the first
time its name is written.

The model follows the program's structure:

- `progress.dfy`, module `Progress`: the checkpoint rule `progress`. The module
  is Python 3 code (its `log=print` default is not valid Python 2), so
  `nb_batch / s` is true division and the step is `max(1, ceil(nb_batch / 20))`.
- `batches.dfy`, module `Batches`: the batch ranges of `km.make_batches` and the
  row slicing of `km.slice_X`.
- `ndarray.dfy`, module `NdArrays`: numpy arrays as a shape and a list of
  row-major rows of reals.
- `aggregate.dfy`, module `Aggregate`: `agg_score` and the inline copy of it in
  the callback.
- `effects.dfy`, module `Effects`: the target table `tar_n2i`, the effect
  dispatch and the dispatch loop that builds the gradient list.
- `writer.dfy`, module `Writer`: the output file as a class `Store` whose
  `datasets` map is updated in place by `Write` (the callback). It also holds
  the pure fold `WriteFrom`, which specifies `Write`.
- `scoring.dfy`, module `Scoring`: the batch loop `WriteLoop` (a method with a
  loop), the pure fold `RunFrom` that specifies it, the facts proved about the
  whole loop, and `Score`, the compute part of `main`.
- `wrappers.dfy`, module `Wrappers`: `Option`.

The compiled Theano function is a parameter `eval`, applied to the symbolic
gradient list. Gradients themselves are not computed (see "Left out").

## Model

| member | source | states |
|---|---|---|
| Progress.Step | predict/models/dnn/snp.py:18-19 | the step is at least 1, at most 20 steps cover all batches, and one step fewer would not (ceiling of nb_batch / 20) |
| Progress.Report | predict/models/dnn/snp.py:18-25 | a progress line carries the 1-based batch number, and the first and last batches always produce one |
| Progress.ReportRule | predict/models/dnn/snp.py:18-25 | the first and the last batch are always reported; any other batch is reported exactly when its 1-based number is a multiple of the step; a report carries the 1-based batch number |
| Progress.ReportedSorted | predict/models/dnn/snp.py:33-37 | the loop's log has at most one line per batch run, with batch numbers in 1..k in strictly increasing order |
| Progress.ReportedMembers | predict/models/dnn/snp.py:33-37 | a batch number appears in the log exactly when `progress` reports that batch |
| Progress.ReportedAtMost21 | predict/models/dnn/snp.py:18-25 | a run of any number of batches logs at most 21 lines |
| Progress.ReportsFirstAndLast | predict/models/dnn/snp.py:18-25 | every non-empty run logs its first and its last batch |
| Batches.MakeBatches | predict/models/dnn/snp.py:30 | ceil(n / b) ranges; none for n == 0; contiguous from 0 to n, each non-empty and at most b long |
| Batches.BatchAt | predict/models/dnn/snp.py:30 | batch k is rows [k*b, min(n, (k+1)*b)) |
| Batches.BatchOf | predict/models/dnn/snp.py:30-33 | the batches partition [0, n): sample j lies in batch j / b and in no other |
| Scoring.BatchesOrdered | predict/models/dnn/snp.py:30-33 | the ranges are visited in increasing, non-overlapping order |
| Batches.SliceRows | predict/models/dnn/snp.py:40-41 | every input is cut to the same rows: row i of the slice is row start + i of the input |
| Aggregate.SliceCenter | predict/models/dnn/snp.py:49 | the window of wlen positions lies inside the axis, and the margin after it equals the one before it or exceeds it by one, so a tie goes to the lower index |
| Aggregate.SliceCenterUnique | predict/models/dnn/snp.py:49 | that margin rule admits exactly one window, the one SliceCenter returns |
| Aggregate.SliceCenterExamples | predict/models/dnn/snp.py:49 | the centred windows 4 of 10 positions = [3, 7), 3 of 9 positions = [3, 6), and the tie 3 of 10 positions = [3, 6) |
| Aggregate.Window | predict/models/dnn/snp.py:49 | the result keeps every row and the trailing shape, has wlen positions, and position p is position start + p of the input |
| Aggregate.Collapse | predict/models/dnn/snp.py:50-55 | the position axis is dropped; each value is the reduction of that offset's values over all positions |
| Aggregate.AggScore | predict/models/dnn/snp.py:47-56 | the result has the input's rows; it is the input when neither wlen nor fun is given, drops the position axis when fun is given, and has wlen positions when only wlen is given |
| Aggregate.AggScoreWindow | predict/models/dnn/snp.py:47-49 | without fun, position p of the result is position slice_center + p of the input |
| Aggregate.CollapsedAt | predict/models/dnn/snp.py:47-56 | with fun, each value of the result is the reduction of the windowed values at its offset |
| Aggregate.AggScoreMax | predict/models/dnn/snp.py:51-52 | with "max", each value bounds every windowed value at its offset and equals one of them |
| Aggregate.ValuesMax | predict/models/dnn/snp.py:52 | the max of a run of positions bounds each value and is attained |
| Aggregate.AggScoreMean | predict/models/dnn/snp.py:53-55 | with any other name, each value is the mean of the windowed values at its offset |
| Aggregate.ReduceConstant | predict/models/dnn/snp.py:50-55 | collapsing positions that all hold c gives c, for max and mean alike |
| Aggregate.MeanOneTwoThree | predict/models/dnn/snp.py:54 | the mean of [1, 2, 3] is 2 |
| Aggregate.BatchReduce | predict/models/dnn/snp.py:208-214 | the callback's inline reduction equals agg_score with the same wlen, and with fun only when per-character output is off |
| Effects.TargetIndex | predict/models/dnn/snp.py:175 | the table's keys are exactly the names paired with an id by zip |
| Effects.TargetIndexLast | predict/models/dnn/snp.py:175 | a repeated name maps to the id of its last occurrence |
| Effects.OutputKey | predict/models/dnn/snp.py:186-191 | the key is tar_n2i[name] + "_y"; lookup fails exactly when the name or its output key is missing, with MissingTarget(name) for a missing name and MissingOutput(key) for a missing output key |
| Effects.EffectOf | predict/models/dnn/snp.py:184-198 | a resolved effect reads only outputs the model has, and the averaging kind reads every output; EffectOfFails and EffectOfSelects give the rest |
| Effects.EffectOfFails | predict/models/dnn/snp.py:184-198 | an effect fails exactly when an output it needs is missing ("mean"/"disp" the mean output, "var"/"disp" the variance output, any other kind at least one output); a missing target name fails as such, for "disp" the variance name when the mean resolves |
| Effects.EffectOfSelects | predict/models/dnn/snp.py:185-188 | "mean" and "var" evaluate to the target's output tar_n2i[name] + "_y" |
| Effects.DispExpr | predict/models/dnn/snp.py:189-192 | the disp expression reads exactly the mean and the variance output |
| Effects.EvalDisp | predict/models/dnn/snp.py:192 | the disp expression evaluates to (m * (1 - m) - v) squared |
| Effects.DispMismatch | predict/models/dnn/snp.py:189-192 | "disp" needs both outputs, is the squared mismatch between v and m(1 - m), is never negative, and is zero when they agree |
| Effects.SumOutputs | predict/models/dnn/snp.py:194-197 | the accumulated `y += yy` reads exactly the model's outputs |
| Effects.SumOutputsValue | predict/models/dnn/snp.py:194-197 | the accumulated `y += yy` evaluates to the sum of all outputs |
| Effects.EffectOfAverages | predict/models/dnn/snp.py:193-198 | any other kind succeeds on a non-empty output list and is the plain average of all outputs |
| Effects.BuildEffects | predict/models/dnn/snp.py:182-204 | succeeds exactly when every requested effect resolves, then yields one gradient per effect in request order and the effect list equals the request; on failure the error is that of the first failing effect |
| NdArrays.Zeros | predict/models/dnn/snp.py:219-220 | a new dataset has n rows of the result's shape, every value zero |
| Writer.Put | predict/models/dnn/snp.py:215-221 | after one write every dataset still has n well-formed rows; PutFacts gives the rest |
| Writer.PutFacts | predict/models/dnn/snp.py:215-221 | one write adds only its name; succeeds exactly when the rows and the shape match; leaves other datasets alone; keeps or sets the shape; rows outside the range keep their values, zeros for a new dataset; on success the range holds the result |
| Writer.Store.WriteOne | predict/models/dnn/snp.py:215-221 | the file after one write is the one Put describes |
| Writer.WriteFrom | predict/models/dnn/snp.py:206-221 | the callback's writes, from result i on, keep every dataset n well-formed rows long; the WriteFrom lemmas give the rest |
| Writer.ReduceAll | predict/models/dnn/snp.py:207-214 | each result is reduced by the callback's reduction, in order |
| Writer.WriteFromSucceeds | predict/models/dnn/snp.py:206-221 | the callback succeeds exactly when every result has the batch's row count, the shape of its existing dataset, and the shape of later results of the same name |
| Writer.WriteFromOthers | predict/models/dnn/snp.py:206-221 | a name not written keeps its dataset, or its absence |
| Writer.WriteFromKeys | predict/models/dnn/snp.py:216-220 | datasets are never removed; new ones only for written names; on success every written name has one |
| Writer.WriteFromDims | predict/models/dnn/snp.py:216-220 | a dataset keeps its shape; a new one takes the shape of the first result of its name |
| Writer.WriteFromKeeps | predict/models/dnn/snp.py:219-221 | rows outside the batch keep their values, and are all zero in a newly created dataset |
| Writer.KeepsRows | predict/models/dnn/snp.py:219-221 | a run of rows of an existing dataset that the batch's range does not reach keeps its values |
| Writer.WriteFromWrites | predict/models/dnn/snp.py:215-221 | on success the batch's rows of each written name hold the last result of that name |
| Writer.Store.constructor | predict/models/dnn/snp.py:172 | a newly opened file is empty |
| Writer.Store.Write | predict/models/dnn/snp.py:206-221 | the file and the success flag after the callback are those of the fold WriteFrom over the reduced results |
| Scoring.OutputsAt | predict/models/dnn/snp.py:40-44 | the callback for batch k receives the evaluator's results on the batch's sliced inputs |
| Scoring.LogProgress | predict/models/dnn/snp.py:34-37 | with logging on, the log after batch k is the reports of batches 0..k; with logging off it stays empty |
| Scoring.RunBatch | predict/models/dnn/snp.py:40-44 | one batch slices the inputs, evaluates and writes, as WriteFrom on that batch's reduced results |
| Scoring.RunFrom | predict/models/dnn/snp.py:33-44 | from batch k the loop keeps every dataset n rows long and makes between k and all callbacks: all of them on success, the failing batch's included on failure |
| Scoring.RunFromFacts | predict/models/dnn/snp.py:33-44 | from batch k on, one callback per batch until one fails; unrequested names untouched; success when the results fit; on success every batch written |
| Scoring.WriteLoopFacts | predict/models/dnn/snp.py:28-44 | the whole loop calls back until the first failure, leaves unrequested names alone, succeeds exactly when every batch's results fit, and then holds each name's last result in every batch's rows with a stable shape |
| Scoring.EveryRowWritten | predict/models/dnn/snp.py:33-44 | after a successful loop, row j of every requested dataset is row j - (j/b)*b of its name's last result in batch j / b |
| Scoring.WriteLoop | predict/models/dnn/snp.py:28-44 | the file, success flag and number of callbacks are those of RunFrom; the callbacks are a prefix of make_batches in order; the log is the reports of the batches run |
| Scoring.Score | predict/models/dnn/snp.py:172-225 | takes the output names as distinct dictionary keys; pairs the target ids and names into tar_n2i; fails before any batch exactly when an effect does not resolve, leaving an empty file; otherwise runs the loop with batch size 1 and logging on, over a file of len(ins[0]) rows, as RunFrom from the empty file describes |

## Left out

- HDF5 I/O: the file is a map from dataset name to array. Closing it, the
  `chromo`/`pos` copies and the `s_x` argmax output (lines 227-233) are not modelled.
- Theano: `T.grad`, `T.max(T.abs_(g), axis=2)` and `th.function` are not
  computed. A gradient is the symbolic pair (output expression, per-character
  flag), and the compiled function is the parameter `eval`.
- Floating point: values are mathematical reals, with no rounding, NaN or infinity.
- Argument parsing, logging configuration, the random seed, data and model
  loading, region selection and `nb_sample` truncation (lines 61-170) are not
  modelled. They only produce the inputs `Score` takes as parameters.
- The `callbacks` argument of `write_loop`: `main` passes none.
- The progress text `'%5d / %d (%.1f%%)'`: a log line is the 1-based batch number
  it reports.
- The code of `io.slice_center` (predict/io.py) and of Keras' `make_batches` is not
  part of this model; their behaviour is stated as the scoring command uses it.
  `Aggregate.SliceCenter` is the window `(n - wlen) / 2`: the `wlen` positions nearest
  the centre, a tie going to the lower index. `Batches.MakeBatches` follows the Keras
  definition `(i*b, min(n, (i+1)*b))` for `i < ceil(n/b)`.
- Aggregate.AggScoreDefined: the window must fit the axis and a collapsed axis must be
  non-empty. numpy's results there (an out-of-range slice, a NaN mean or a max that
  raises) are not modelled.
- Aggregate.AggScoreMean: the result is stated as `Mean` of the windowed values, whose
  own contract (mean times count equals sum) gives its meaning.
- Effects.DispMismatch: states that the score is zero when `v == m(1 - m)`, but not
  the converse.
- Writer.Put: requires the result to have exactly the range's row count and the
  dataset's shape. h5py also broadcasts a result with size-1 or missing leading axes
  into the range; those writes are modelled as failing (`ok == false`), like the
  mismatches h5py raises on. After a failure the batch loop stops, as the propagating
  exception would, and the dataset created just before the failure stays in the file.
- Writer.Store.Write: requires exactly one result per requested effect, which is what
  the compiled function returns. A longer result list would raise an IndexError,
  which is not modelled.
- Scoring.WriteLoop: requires the file's row count `n` to be the sample count of the
  first input. The source sizes new datasets by `data['s_x'].shape[0]`, which is one
  of the model inputs and shares their sample count.
- Scoring.Score: builds the gradients first and then opens the file. The source opens
  the file first (line 172), but since the dispatch does not touch the file, the
  resulting state is the same: an empty file when the dispatch fails.
- The order of `outs.values()` for the averaging effect is the order of the parameter
  `outNames`. `Scoring.Score` requires those names to be distinct, as dictionary keys are.
