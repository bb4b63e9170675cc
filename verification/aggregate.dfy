/** The window/aggregate reduction of a per-position result: `agg_score` and the
    inline copy of it inside the writer callback. */
module Aggregate {
  import opened Wrappers
  import opened NdArrays

  /** Number of values one position of a row holds (the product of the dims after
      the position axis). */
  function Stride(a: NdArray): nat
    requires |a.dims| >= 1
  {
    Prod(a.dims[1..])
  }

  /** Precondition of indexing position `p`, value `k` of row `i`. */
  predicate HasPosition(a: NdArray, i: nat, p: nat, k: nat)
  {
    WellFormed(a) && |a.dims| >= 1 && i < |a.rows| && p < a.dims[0] && k < Stride(a)
  }

  /** `a[i, p]` flattened: value `k` at position `p` of row `i`. */
  function At(a: NdArray, i: nat, p: nat, k: nat): real
    requires HasPosition(a, i, p, k)
  {
    StrideIndex(p, k, a.dims[0], Stride(a));
    a.rows[i][p * Stride(a) + k]
  }

  /** The values at offset `k` of positions `start .. start + len - 1` of row `i`. */
  function Values(a: NdArray, i: nat, k: nat, start: nat, len: nat): (c: seq<real>)
    requires WellFormed(a) && |a.dims| >= 1 && i < |a.rows| && k < Stride(a)
    requires start + len <= a.dims[0]
    ensures |c| == len
    ensures forall p :: 0 <= p < len ==> c[p] == At(a, i, start + p, k)
  {
    seq(len, p requires 0 <= p < len => At(a, i, start + p, k))
  }

  /** First position of the centred window of `wlen` of `n` positions: the
      `wlen` positions nearest the centre, a tie going to the lower index, so
      the margin after the window equals the one before it or exceeds it by
      one. The code of `io.slice_center` (predict/io.py) is not part of this
      model; this is its behaviour as the scoring command uses it. */
  function SliceCenter(n: nat, wlen: nat): (start: nat)
    requires wlen <= n
    ensures start + wlen <= n
    ensures start <= n - start - wlen <= start + 1
  {
    (n - wlen) / 2
  }

  /** `a[:, slice_center(a.shape[1], w)]`. */
  function Window(a: NdArray, w: nat): (r: NdArray)
    requires WellFormed(a) && |a.dims| >= 1 && w <= a.dims[0]
    ensures WellFormed(r) && |r.rows| == |a.rows| && r.dims == [w] + a.dims[1..]
    ensures Stride(r) == Stride(a)
    ensures forall i, p, k :: 0 <= i < |a.rows| && 0 <= p < w && 0 <= k < Stride(a) ==>
      HasPosition(r, i, p, k) && HasPosition(a, i, SliceCenter(a.dims[0], w) + p, k) &&
      At(r, i, p, k) == At(a, i, SliceCenter(a.dims[0], w) + p, k)
  {
    var start, stride := SliceCenter(a.dims[0], w), Stride(a);
    WindowFits(a, start, w);
    var r := NdArray([w] + a.dims[1..], CutRows(a.rows, start * stride, (start + w) * stride));
    WindowValues(a, r, start, w);
    r
  }

  /** Values `lo .. hi - 1` of every row. */
  function CutRows(rows: seq<seq<real>>, lo: nat, hi: nat): (cut: seq<seq<real>>)
    requires lo <= hi && forall i :: 0 <= i < |rows| ==> hi <= |rows[i]|
    ensures |cut| == |rows| && forall i :: 0 <= i < |rows| ==> cut[i] == rows[i][lo..hi]
  {
    seq(|rows|, i requires 0 <= i < |rows| => rows[i][lo..hi])
  }

  /** A run of `w` positions from `start` lies within every row. */
  lemma WindowFits(a: NdArray, start: nat, w: nat)
    requires WellFormed(a) && |a.dims| >= 1 && start + w <= a.dims[0]
    ensures start * Stride(a) <= (start + w) * Stride(a) <= Prod(a.dims)
    ensures forall i :: 0 <= i < |a.rows| ==> (start + w) * Stride(a) <= |a.rows[i]|
  {
    MulMono(start, start + w, Stride(a));
    MulMono(start + w, a.dims[0], Stride(a));
  }

  /** The rows cut out by `Window` hold positions `start .. start + w - 1`
      of the input. */
  lemma WindowValues(a: NdArray, r: NdArray, start: nat, w: nat)
    requires WellFormed(a) && |a.dims| >= 1 && start + w <= a.dims[0]
    requires r.dims == [w] + a.dims[1..] && |r.rows| == |a.rows|
    requires (start + w) * Stride(a) <= Prod(a.dims)
    requires forall i :: 0 <= i < |a.rows| ==>
      r.rows[i] == a.rows[i][start * Stride(a) .. (start + w) * Stride(a)]
    ensures WellFormed(r) && Stride(r) == Stride(a)
    ensures forall i, p, k :: 0 <= i < |a.rows| && 0 <= p < w && 0 <= k < Stride(a) ==>
      HasPosition(r, i, p, k) && HasPosition(a, i, start + p, k) &&
      At(r, i, p, k) == At(a, i, start + p, k)
  {
    var stride := Stride(a);
    assert r.dims[1..] == a.dims[1..];
    assert Prod(r.dims) == w * stride;
    Distributes(start, w, stride);
    forall i, p, k | 0 <= i < |a.rows| && 0 <= p < w && 0 <= k < stride
      ensures HasPosition(r, i, p, k) && HasPosition(a, i, start + p, k) &&
        At(r, i, p, k) == At(a, i, start + p, k)
    {
      WindowPoint(a, r, start, w, i, p, k);
    }
  }

  lemma Distributes(x: nat, y: nat, r: nat)
    ensures x * r + y * r == (x + y) * r
  {
  }

  /** One value of the window: position `p` of the slice is position `start + p`. */
  lemma WindowPoint(a: NdArray, r: NdArray, start: nat, w: nat, i: nat, p: nat, k: nat)
    requires WellFormed(a) && WellFormed(r) && |a.dims| >= 1 && start + w <= a.dims[0]
    requires r.dims == [w] + a.dims[1..] && |r.rows| == |a.rows| && Stride(r) == Stride(a)
    requires i < |a.rows| && p < w && k < Stride(a)
    requires (start + w) * Stride(a) <= |a.rows[i]|
    requires r.rows[i] == a.rows[i][start * Stride(a) .. (start + w) * Stride(a)]
    ensures HasPosition(r, i, p, k) && HasPosition(a, i, start + p, k)
    ensures At(r, i, p, k) == At(a, i, start + p, k)
  {
    var stride := Stride(a);
    StrideIndex(p, k, w, stride);
    Distributes(start, p, stride);
  }

  /** Sum of a list of reals. */
  function Sum(xs: seq<real>): real
  {
    if xs == [] then 0.0 else xs[0] + Sum(xs[1..])
  }

  /** `np.max` of a non-empty list: an upper bound that is one of its elements. */
  function MaxOf(xs: seq<real>): (m: real)
    requires |xs| > 0
    ensures forall j :: 0 <= j < |xs| ==> xs[j] <= m
    ensures exists j :: 0 <= j < |xs| && xs[j] == m
  {
    if |xs| == 1 then xs[0]
    else
      var t := MaxOf(xs[1..]);
      if xs[0] >= t then xs[0] else t
  }

  /** `np.mean` of a non-empty list: the value whose `|xs|` copies sum to `Sum(xs)`. */
  function Mean(xs: seq<real>): (m: real)
    requires |xs| > 0
    ensures m * (|xs| as real) == Sum(xs)
  {
    Sum(xs) / (|xs| as real)
  }

  /** The reduction `agg_score` applies along axis 1: max for "max", mean for any
      other function name. */
  function Reduce(fun: string, xs: seq<real>): real
    requires |xs| > 0
  {
    if fun == "max" then MaxOf(xs) else Mean(xs)
  }

  /** `f(a, axis=1)`: collapse the position axis of every row. */
  function Collapse(a: NdArray, fun: string): (r: NdArray)
    requires WellFormed(a) && |a.dims| >= 1 && a.dims[0] > 0
    ensures WellFormed(r) && |r.rows| == |a.rows| && r.dims == a.dims[1..]
    ensures forall i, k :: 0 <= i < |a.rows| && 0 <= k < Stride(a) ==>
      r.rows[i][k] == Reduce(fun, Values(a, i, k, 0, a.dims[0]))
  {
    NdArray(a.dims[1..],
            seq(|a.rows|, i requires 0 <= i < |a.rows| =>
              seq(Stride(a), k requires 0 <= k < Stride(a) => Reduce(fun, Values(a, i, k, 0, a.dims[0])))))
  }

  /** Shape demands of `agg_score(s, wlen, fun)`: a position axis to slice or
      collapse, a window no longer than it, and a non-empty axis to collapse. */
  predicate AggScoreDefined(s: NdArray, wlen: Option<nat>, fun: Option<string>)
  {
    && WellFormed(s)
    && ((wlen.Some? || fun.Some?) ==> |s.dims| >= 1)
    && (wlen.Some? ==> wlen.value <= s.dims[0])
    && (fun.Some? ==> (if wlen.Some? then wlen.value else s.dims[0]) > 0)
  }

  /** `agg_score(s, wlen, fun)`: centred window of `wlen` positions if `wlen` is
      given, then collapse of the position axis if `fun` is given. */
  function AggScore(s: NdArray, wlen: Option<nat>, fun: Option<string>): (r: NdArray)
    requires AggScoreDefined(s, wlen, fun)
    ensures WellFormed(r) && |r.rows| == |s.rows|
    ensures wlen.None? && fun.None? ==> r == s
    ensures fun.Some? ==> r.dims == s.dims[1..]
    ensures fun.None? && wlen.Some? ==> r.dims == [wlen.value] + s.dims[1..]
  {
    var w := if wlen.Some? then Window(s, wlen.value) else s;
    if fun.Some? then Collapse(w, fun.value) else w
  }

  /** First position of the positions `agg_score` keeps. */
  function WindowStart(s: NdArray, wlen: Option<nat>): nat
    requires |s.dims| >= 1 && (wlen.Some? ==> wlen.value <= s.dims[0])
  {
    if wlen.Some? then SliceCenter(s.dims[0], wlen.value) else 0
  }

  /** Number of positions `agg_score` keeps. */
  function WindowLength(s: NdArray, wlen: Option<nat>): nat
    requires |s.dims| >= 1
  {
    if wlen.Some? then wlen.value else s.dims[0]
  }

  /** Without an aggregation function, `agg_score` keeps exactly the window:
      position `p` of the result is position `start + p` of the input. */
  lemma AggScoreWindow(s: NdArray, wlen: nat, i: nat, p: nat, k: nat)
    requires AggScoreDefined(s, Some(wlen), None)
    requires i < |s.rows| && p < wlen && k < Stride(s)
    ensures HasPosition(AggScore(s, Some(wlen), None), i, p, k)
    ensures HasPosition(s, i, SliceCenter(s.dims[0], wlen) + p, k)
    ensures At(AggScore(s, Some(wlen), None), i, p, k) == At(s, i, SliceCenter(s.dims[0], wlen) + p, k)
  {
  }

  /** The values `agg_score` collapses at row `i`, offset `k` are those of the
      window of the input. */
  lemma CollapsedValues(s: NdArray, wlen: Option<nat>, i: nat, k: nat)
    requires AggScoreDefined(s, wlen, None) && |s.dims| >= 1
    requires i < |s.rows| && k < Stride(s)
    ensures var w := AggScore(s, wlen, None);
      && WindowStart(s, wlen) + WindowLength(s, wlen) <= s.dims[0]
      && |w.dims| >= 1 && w.dims[0] == WindowLength(s, wlen) && i < |w.rows| && k < Stride(w)
      && Values(w, i, k, 0, w.dims[0]) == Values(s, i, k, WindowStart(s, wlen), WindowLength(s, wlen))
  {
    var w := AggScore(s, wlen, None);
    if wlen.Some? {
      assert w.dims[1..] == s.dims[1..];
    }
  }

  /** With a function, value `k` of row `i` of the result is the reduction of
      the windowed values at that offset. */
  lemma CollapsedAt(s: NdArray, wlen: Option<nat>, fun: string, i: nat, k: nat)
    requires AggScoreDefined(s, wlen, Some(fun))
    requires i < |s.rows| && k < Stride(s)
    ensures WindowStart(s, wlen) + WindowLength(s, wlen) <= s.dims[0] && WindowLength(s, wlen) > 0
    ensures var r := AggScore(s, wlen, Some(fun));
      i < |r.rows| && k < |r.rows[i]| &&
      r.rows[i][k] == Reduce(fun, Values(s, i, k, WindowStart(s, wlen), WindowLength(s, wlen)))
  {
    CollapsedValues(s, wlen, i, k);
    var w := AggScore(s, wlen, None);
    assert AggScore(s, wlen, Some(fun)) == Collapse(w, fun);
  }

  /** With "max", every value of the result is the largest of the windowed
      values at its offset. */
  lemma AggScoreMax(s: NdArray, wlen: Option<nat>, i: nat, k: nat)
    requires AggScoreDefined(s, wlen, Some("max"))
    requires i < |s.rows| && k < Stride(s)
    ensures var r := AggScore(s, wlen, Some("max"));
      var start, len := WindowStart(s, wlen), WindowLength(s, wlen);
      && start + len <= s.dims[0]
      && (forall q :: start <= q < start + len ==> HasPosition(s, i, q, k) && At(s, i, q, k) <= r.rows[i][k])
      && (exists q :: start <= q < start + len && HasPosition(s, i, q, k) && At(s, i, q, k) == r.rows[i][k])
  {
    var start, len := WindowStart(s, wlen), WindowLength(s, wlen);
    var r := AggScore(s, wlen, Some("max"));
    assert start + len <= s.dims[0] && len > 0 && i < |r.rows| && k < |r.rows[i]| &&
      r.rows[i][k] == MaxOf(Values(s, i, k, start, len)) by {
      CollapsedAt(s, wlen, "max", i, k);
    }
    ValuesMax(s, i, k, start, len, r.rows[i][k]);
  }

  /** The maximum of the values at offset `k` of a run of positions bounds each
      of them and is one of them. */
  lemma ValuesMax(s: NdArray, i: nat, k: nat, start: nat, len: nat, m: real)
    requires WellFormed(s) && |s.dims| >= 1 && i < |s.rows| && k < Stride(s)
    requires start + len <= s.dims[0] && len > 0
    requires m == MaxOf(Values(s, i, k, start, len))
    ensures forall q :: start <= q < start + len ==> HasPosition(s, i, q, k) && At(s, i, q, k) <= m
    ensures exists q :: start <= q < start + len && HasPosition(s, i, q, k) && At(s, i, q, k) == m
  {
    var c := Values(s, i, k, start, len);
    forall q | start <= q < start + len
      ensures HasPosition(s, i, q, k) && At(s, i, q, k) <= m
    {
      assert c[q - start] == At(s, i, q, k);
    }
    var p :| 0 <= p < len && c[p] == m;
    assert HasPosition(s, i, start + p, k) && At(s, i, start + p, k) == m;
  }

  /** With any other function name, every value of the result is the mean of the
      windowed values at its offset. */
  lemma AggScoreMean(s: NdArray, wlen: Option<nat>, fun: string, i: nat, k: nat)
    requires fun != "max" && AggScoreDefined(s, wlen, Some(fun))
    requires i < |s.rows| && k < Stride(s)
    ensures var r := AggScore(s, wlen, Some(fun));
      var start, len := WindowStart(s, wlen), WindowLength(s, wlen);
      && start + len <= s.dims[0] && len > 0
      && r.rows[i][k] == Mean(Values(s, i, k, start, len))
  {
    CollapsedAt(s, wlen, fun, i, k);
  }

  /** The sum of `n` copies of `c` is `n * c`. */
  lemma {:induction false} SumConstant(xs: seq<real>, c: real)
    requires forall j :: 0 <= j < |xs| ==> xs[j] == c
    ensures Sum(xs) == (|xs| as real) * c
  {
    if xs != [] {
      SumConstant(xs[1..], c);
    }
  }

  /** Collapsing positions that all hold the same value yields that value,
      whichever function is used. */
  lemma ReduceConstant(fun: string, xs: seq<real>, c: real)
    requires |xs| > 0 && forall j :: 0 <= j < |xs| ==> xs[j] == c
    ensures Reduce(fun, xs) == c
  {
    SumConstant(xs, c);
  }

  /** `np.mean([1, 2, 3]) == 2`. */
  lemma MeanOneTwoThree()
    ensures Reduce("mean", [1.0, 2.0, 3.0]) == 2.0
  {
    assert Sum([1.0, 2.0, 3.0]) == 6.0 by {
      assert [1.0, 2.0, 3.0][1..] == [2.0, 3.0];
      assert [2.0, 3.0][1..] == [3.0];
    }
  }

  /** The centred windows of the documented examples: 4 of 10 positions are
      `[3, 7)`, 3 of 9 positions are `[3, 6)`; 3 of 10 positions, where two
      windows are equally near the centre, is the lower one, `[3, 6)`. */
  lemma SliceCenterExamples()
    ensures SliceCenter(10, 4) == 3 && SliceCenter(9, 3) == 3 && SliceCenter(10, 3) == 3
  {
  }

  /** The margins rule picks exactly one window: any first position whose
      trailing margin equals the leading one or exceeds it by one is
      `SliceCenter`. */
  lemma SliceCenterUnique(n: nat, wlen: nat, s: nat)
    requires wlen <= n && s + wlen <= n && s <= n - s - wlen <= s + 1
    ensures s == SliceCenter(n, wlen)
  {
  }

  /** The reduction settings of the writer callback. */
  datatype Config = Config(wlen: Option<nat>, perChar: bool, aggFun: Option<string>)

  /** Shape demands of the writer callback's reduction. */
  predicate ReduceDefined(cfg: Config, x: NdArray)
  {
    AggScoreDefined(x, cfg.wlen, if cfg.perChar then None else cfg.aggFun)
  }

  /** The inline copy of `agg_score` in the writer callback: the window is taken
      whenever `wlen` is set, the positional collapse only when per-character
      output is off and an aggregation function is set. */
  function BatchReduce(cfg: Config, x: NdArray): (r: NdArray)
    requires ReduceDefined(cfg, x)
    ensures r == AggScore(x, cfg.wlen, if cfg.perChar then None else cfg.aggFun)
  {
    var x := if cfg.wlen.Some? then Window(x, cfg.wlen.value) else x;
    if !(cfg.perChar || cfg.aggFun.None?) then
      Collapse(x, cfg.aggFun.value)
    else x
  }
}
