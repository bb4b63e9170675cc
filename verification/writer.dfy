/** The incremental writer: the `write_fun` callback and the output file it
    fills, a map from effect name to an `n`-row dataset. */
module Writer {
  import opened Wrappers
  import opened NdArrays
  import opened Aggregate

  /** Every dataset of the file has `n` rows of its own shape. */
  predicate Sized(ds: map<string, NdArray>, n: nat)
  {
    forall e :: e in ds ==> |ds[e].rows| == n && WellFormed(ds[e])
  }

  /** Whether the rows of `ys` may be written into `[start, end)` of dataset
      `name`: as many rows as the range, and the dataset's own shape.  The
      shapes h5py would broadcast to the range are not accepted here. */
  predicate Matches(ds: map<string, NdArray>, name: string, y: NdArray, start: nat, end: nat)
  {
    |y.rows| == end - start && (name in ds ==> y.dims == ds[name].dims)
  }

  /** One step of the callback: look up the dataset `name`, creating it filled
      with zeros and shaped `[n] + y.dims` if the file has none, then assign its
      rows `[start, end)`.  A result that does not fit the dataset makes the
      assignment fail; the dataset created just before it stays in the file. */
  function Put(ds: map<string, NdArray>, n: nat, name: string, y: NdArray, start: nat, end: nat)
    : (r: (map<string, NdArray>, bool))
    requires start <= end <= n && Sized(ds, n) && WellFormed(y)
    ensures Sized(r.0, n)
  {
    var g := if name in ds then ds[name] else Zeros(n, y.dims);
    if Matches(ds, name, y, start, end) then
      (ds[name := NdArray(g.dims, g.rows[..start] + y.rows + g.rows[end..])], true)
    else (ds[name := g], false)
  }

  /** What one step of the callback does to the file: it adds `name` and
      nothing else, succeeds exactly when the result matches, leaves every other
      dataset alone, keeps (or sets) the shape of `name`, keeps every row outside
      `[start, end)` (zeros for a new dataset) and, on success, holds the result
      in rows `[start, end)`. */
  lemma PutFacts(ds: map<string, NdArray>, n: nat, name: string, y: NdArray, start: nat, end: nat)
    requires start <= end <= n && Sized(ds, n) && WellFormed(y)
    ensures var r := Put(ds, n, name, y, start, end);
      && r.0.Keys == ds.Keys + {name}
      && (r.1 <==> Matches(ds, name, y, start, end))
      && (forall e :: e in ds && e != name ==> r.0[e] == ds[e])
      && r.0[name].dims == (if name in ds then ds[name].dims else y.dims)
      && (name in ds ==> forall j :: 0 <= j < n && !(start <= j < end) ==>
           r.0[name].rows[j] == ds[name].rows[j])
      && (name !in ds ==> forall j, x :: 0 <= j < n && !(start <= j < end) && 0 <= x < |r.0[name].rows[j]| ==>
           r.0[name].rows[j][x] == 0.0)
      && (r.1 ==> r.0[name].rows[start..end] == y.rows)
  {
    var g := if name in ds then ds[name] else Zeros(n, y.dims);
    if Matches(ds, name, y, start, end) {
      var rows := g.rows[..start] + y.rows + g.rows[end..];
      assert rows[start..end] == y.rows;
    }
  }

  /** `Put` spelled out for a given looked-up or created dataset `g`. */
  lemma PutIs(ds: map<string, NdArray>, n: nat, name: string, y: NdArray, start: nat, end: nat, g: NdArray)
    requires start <= end <= n && Sized(ds, n) && WellFormed(y)
    requires g == if name in ds then ds[name] else Zeros(n, y.dims)
    ensures Matches(ds, name, y, start, end) <==> |y.rows| == end - start && y.dims == g.dims
    ensures Put(ds, n, name, y, start, end) ==
      if Matches(ds, name, y, start, end)
      then (ds[name := NdArray(g.dims, g.rows[..start] + y.rows + g.rows[end..])], true)
      else (ds[name := g], false)
  {
  }

  /** The callback's loop from result `i` on, over the reduced results `ys`, one
      per requested effect name; it stops at the first failing assignment. */
  function WriteFrom(ds: map<string, NdArray>, n: nat, effList: seq<string>, ys: seq<NdArray>,
                     start: nat, end: nat, i: nat): (r: (map<string, NdArray>, bool))
    requires |ys| == |effList| && i <= |ys| && start <= end <= n && Sized(ds, n)
    requires forall k :: 0 <= k < |ys| ==> WellFormed(ys[k])
    ensures Sized(r.0, n)
    decreases |ys| - i
  {
    if i == |ys| then (ds, true)
    else
      var (ds', ok) := Put(ds, n, effList[i], ys[i], start, end);
      if !ok then (ds', false) else WriteFrom(ds', n, effList, ys, start, end, i + 1)
  }

  /** One step of `WriteFrom`: a failing assignment ends it, a successful one
      goes on with the next result. */
  lemma WriteFromStep(ds: map<string, NdArray>, n: nat, effList: seq<string>, ys: seq<NdArray>,
                      start: nat, end: nat, i: nat)
    requires |ys| == |effList| && i < |ys| && start <= end <= n && Sized(ds, n)
    requires forall k :: 0 <= k < |ys| ==> WellFormed(ys[k])
    ensures var p := Put(ds, n, effList[i], ys[i], start, end);
      WriteFrom(ds, n, effList, ys, start, end, i) ==
        if p.1 then WriteFrom(p.0, n, effList, ys, start, end, i + 1) else p
  {
  }

  /** The reduced results of one batch, as the callback writes them. */
  function ReduceAll(cfg: Config, x: seq<NdArray>): (ys: seq<NdArray>)
    requires forall i :: 0 <= i < |x| ==> ReduceDefined(cfg, x[i])
    ensures |ys| == |x|
    ensures forall i :: 0 <= i < |x| ==> ys[i] == BatchReduce(cfg, x[i]) && WellFormed(ys[i])
  {
    seq(|x|, i requires 0 <= i < |x| => BatchReduce(cfg, x[i]))
  }

  /** Position of the first occurrence of `e` at or after `from`. */
  function FirstIndex(names: seq<string>, from: nat, e: string): (k: nat)
    requires from <= |names| && e in names[from..]
    ensures from <= k < |names| && names[k] == e
    ensures forall j :: from <= j < k ==> names[j] != e
    decreases |names| - from
  {
    if names[from] == e then from
    else
      assert names[from..] == [names[from]] + names[from + 1..];
      FirstIndex(names, from + 1, e)
  }

  /** Position of the last occurrence of `e`. */
  function LastIndex(names: seq<string>, e: string): (k: nat)
    requires e in names
    ensures k < |names| && names[k] == e
    ensures forall j :: k < j < |names| ==> names[j] != e
  {
    if names[|names| - 1] == e then |names| - 1
    else
      assert names == names[..|names| - 1] + [names[|names| - 1]];
      LastIndex(names[..|names| - 1], e)
  }

  /** The results from `i` on fit the file: each has as many rows as the range,
      the shape of the dataset its name already has, and the shape of every
      later result of the same name. */
  predicate Fits(ds: map<string, NdArray>, effList: seq<string>, ys: seq<NdArray>,
                 start: nat, end: nat, i: nat)
    requires |ys| == |effList|
  {
    && (forall k :: i <= k < |ys| ==> |ys[k].rows| == end - start)
    && (forall k :: i <= k < |ys| && effList[k] in ds ==> ys[k].dims == ds[effList[k]].dims)
    && (forall k, k' :: i <= k < k' < |ys| && effList[k] == effList[k'] ==> ys[k].dims == ys[k'].dims)
  }

  /** The results from `i` fit the file exactly when result `i` can be
      assigned and the rest fit the file that assignment leaves. */
  lemma FitsStep(ds: map<string, NdArray>, n: nat, effList: seq<string>,
                 ys: seq<NdArray>, start: nat, end: nat, i: nat)
    requires |ys| == |effList| && i < |ys| && start <= end <= n && Sized(ds, n)
    requires forall k :: 0 <= k < |ys| ==> WellFormed(ys[k])
    ensures var p := Put(ds, n, effList[i], ys[i], start, end);
      Fits(ds, effList, ys, start, end, i) <==> p.1 && Fits(p.0, effList, ys, start, end, i + 1)
  {
    var p := Put(ds, n, effList[i], ys[i], start, end);
    var ds' := p.0;
    if !p.1 {
      assert !Matches(ds, effList[i], ys[i], start, end);
    } else {
      if Fits(ds', effList, ys, start, end, i + 1) {
        forall k | i <= k < |ys| && effList[k] in ds
          ensures ys[k].dims == ds[effList[k]].dims
        {
          if k > i && effList[k] == effList[i] {
            assert ys[k].dims == ds'[effList[i]].dims;
          }
        }
        forall k, k' | i <= k < k' < |ys| && effList[k] == effList[k']
          ensures ys[k].dims == ys[k'].dims
        {
          if k == i {
            assert ys[k'].dims == ds'[effList[i]].dims;
          }
        }
      }
      if Fits(ds, effList, ys, start, end, i) {
        forall k | i + 1 <= k < |ys| && effList[k] in ds'
          ensures ys[k].dims == ds'[effList[k]].dims
        {
        }
      }
    }
  }

  lemma {:induction false} SucceedsFits(ds: map<string, NdArray>, n: nat, effList: seq<string>,
                                        ys: seq<NdArray>, start: nat, end: nat, i: nat)
    requires |ys| == |effList| && i <= |ys| && start <= end <= n && Sized(ds, n)
    requires forall k :: 0 <= k < |ys| ==> WellFormed(ys[k])
    requires WriteFrom(ds, n, effList, ys, start, end, i).1
    ensures Fits(ds, effList, ys, start, end, i)
    decreases |ys| - i
  {
    if i < |ys| {
      var p := Put(ds, n, effList[i], ys[i], start, end);
      WriteFromStep(ds, n, effList, ys, start, end, i);
      SucceedsFits(p.0, n, effList, ys, start, end, i + 1);
      FitsStep(ds, n, effList, ys, start, end, i);
    }
  }

  lemma {:induction false} FitsSucceeds(ds: map<string, NdArray>, n: nat, effList: seq<string>,
                                        ys: seq<NdArray>, start: nat, end: nat, i: nat)
    requires |ys| == |effList| && i <= |ys| && start <= end <= n && Sized(ds, n)
    requires forall k :: 0 <= k < |ys| ==> WellFormed(ys[k])
    requires Fits(ds, effList, ys, start, end, i)
    ensures WriteFrom(ds, n, effList, ys, start, end, i).1
    decreases |ys| - i
  {
    if i < |ys| {
      var p := Put(ds, n, effList[i], ys[i], start, end);
      FitsStep(ds, n, effList, ys, start, end, i);
      FitsSucceeds(p.0, n, effList, ys, start, end, i + 1);
      WriteFromStep(ds, n, effList, ys, start, end, i);
    }
  }

  /** The callback succeeds exactly when the results fit the file. */
  lemma WriteFromSucceeds(ds: map<string, NdArray>, n: nat, effList: seq<string>,
                          ys: seq<NdArray>, start: nat, end: nat, i: nat)
    requires |ys| == |effList| && i <= |ys| && start <= end <= n && Sized(ds, n)
    requires forall k :: 0 <= k < |ys| ==> WellFormed(ys[k])
    ensures WriteFrom(ds, n, effList, ys, start, end, i).1 <==> Fits(ds, effList, ys, start, end, i)
  {
    if WriteFrom(ds, n, effList, ys, start, end, i).1 {
      SucceedsFits(ds, n, effList, ys, start, end, i);
    }
    if Fits(ds, effList, ys, start, end, i) {
      FitsSucceeds(ds, n, effList, ys, start, end, i);
    }
  }

  /** A name the callback does not write keeps its dataset, or its absence. */
  lemma {:induction false} WriteFromOthers(ds: map<string, NdArray>, n: nat, effList: seq<string>,
                                           ys: seq<NdArray>, start: nat, end: nat, i: nat, e: string)
    requires |ys| == |effList| && i <= |ys| && start <= end <= n && Sized(ds, n)
    requires forall k :: 0 <= k < |ys| ==> WellFormed(ys[k])
    requires e !in effList[i..]
    ensures var r := WriteFrom(ds, n, effList, ys, start, end, i).0;
      (e in r <==> e in ds) && (e in ds ==> r[e] == ds[e])
    decreases |ys| - i
  {
    if i < |ys| {
      assert effList[i..] == [effList[i]] + effList[i + 1..];
      var (ds', ok) := Put(ds, n, effList[i], ys[i], start, end);
      if ok {
        WriteFromOthers(ds', n, effList, ys, start, end, i + 1, e);
      }
    }
  }

  /** The callback creates datasets only for the names it writes. */
  lemma {:induction false} WriteFromKeys(ds: map<string, NdArray>, n: nat, effList: seq<string>,
                                         ys: seq<NdArray>, start: nat, end: nat, i: nat)
    requires |ys| == |effList| && i <= |ys| && start <= end <= n && Sized(ds, n)
    requires forall k :: 0 <= k < |ys| ==> WellFormed(ys[k])
    ensures var r := WriteFrom(ds, n, effList, ys, start, end, i);
      && ds.Keys <= r.0.Keys
      && (forall e :: e in r.0 ==> e in ds || e in effList[i..])
      && (r.1 ==> forall e :: e in effList[i..] ==> e in r.0)
    decreases |ys| - i
  {
    if i < |ys| {
      assert effList[i..] == [effList[i]] + effList[i + 1..];
      var (ds', ok) := Put(ds, n, effList[i], ys[i], start, end);
      if ok {
        WriteFromKeys(ds', n, effList, ys, start, end, i + 1);
      }
    }
  }

  /** A dataset keeps its shape once created; a new one takes the shape of the
      first result written under its name. */
  lemma {:induction false} WriteFromDims(ds: map<string, NdArray>, n: nat, effList: seq<string>,
                                         ys: seq<NdArray>, start: nat, end: nat, i: nat, e: string)
    requires |ys| == |effList| && i <= |ys| && start <= end <= n && Sized(ds, n)
    requires forall k :: 0 <= k < |ys| ==> WellFormed(ys[k])
    requires e in WriteFrom(ds, n, effList, ys, start, end, i).0
    ensures e in ds || e in effList[i..]
    ensures WriteFrom(ds, n, effList, ys, start, end, i).0[e].dims ==
      if e in ds then ds[e].dims else ys[FirstIndex(effList, i, e)].dims
    decreases |ys| - i
  {
    WriteFromKeys(ds, n, effList, ys, start, end, i);
    if i < |ys| {
      assert effList[i..] == [effList[i]] + effList[i + 1..];
      var (ds', ok) := Put(ds, n, effList[i], ys[i], start, end);
      if ok {
        WriteFromDims(ds', n, effList, ys, start, end, i + 1, e);
        if e !in ds && e != effList[i] {
          assert FirstIndex(effList, i, e) == FirstIndex(effList, i + 1, e);
        }
      }
    }
  }

  lemma {:induction false} KeepsOld(ds: map<string, NdArray>, n: nat, effList: seq<string>,
                                    ys: seq<NdArray>, start: nat, end: nat, i: nat, e: string, j: nat)
    requires |ys| == |effList| && i <= |ys| && start <= end <= n && Sized(ds, n)
    requires forall k :: 0 <= k < |ys| ==> WellFormed(ys[k])
    requires e in ds && j < n && !(start <= j < end)
    ensures var r := WriteFrom(ds, n, effList, ys, start, end, i).0;
      e in r && r[e].rows[j] == ds[e].rows[j]
    decreases |ys| - i
  {
    if i < |ys| {
      var p := Put(ds, n, effList[i], ys[i], start, end);
      assert e in p.0 && p.0[e].rows[j] == ds[e].rows[j] by {
        PutFacts(ds, n, effList[i], ys[i], start, end);
      }
      WriteFromStep(ds, n, effList, ys, start, end, i);
      if p.1 {
        KeepsOld(p.0, n, effList, ys, start, end, i + 1, e, j);
      }
    }
  }

  lemma {:induction false} KeepsNew(ds: map<string, NdArray>, n: nat, effList: seq<string>,
                                    ys: seq<NdArray>, start: nat, end: nat, i: nat, e: string, j: nat)
    requires |ys| == |effList| && i <= |ys| && start <= end <= n && Sized(ds, n)
    requires forall k :: 0 <= k < |ys| ==> WellFormed(ys[k])
    requires e !in ds && e in WriteFrom(ds, n, effList, ys, start, end, i).0
    requires j < n && !(start <= j < end)
    ensures var g := WriteFrom(ds, n, effList, ys, start, end, i).0[e];
      forall x :: 0 <= x < |g.rows[j]| ==> g.rows[j][x] == 0.0
    decreases |ys| - i
  {
    if i < |ys| {
      var p := Put(ds, n, effList[i], ys[i], start, end);
      assert e in p.0 ==> e == effList[i] && forall x :: 0 <= x < |p.0[e].rows[j]| ==> p.0[e].rows[j][x] == 0.0 by {
        PutFacts(ds, n, effList[i], ys[i], start, end);
      }
      WriteFromStep(ds, n, effList, ys, start, end, i);
      if e in p.0 {
        if p.1 {
          KeepsOld(p.0, n, effList, ys, start, end, i + 1, e, j);
        }
      } else if p.1 {
        KeepsNew(p.0, n, effList, ys, start, end, i + 1, e, j);
      }
    }
  }

  /** A run of rows `[lo, hi)` of an existing dataset that the callback's range
      does not reach keeps its values. */
  lemma KeepsRows(ds: map<string, NdArray>, n: nat, effList: seq<string>,
                  ys: seq<NdArray>, start: nat, end: nat, e: string, lo: nat, hi: nat)
    requires |ys| == |effList| && start <= end <= n && Sized(ds, n)
    requires forall k :: 0 <= k < |ys| ==> WellFormed(ys[k])
    requires e in ds && lo <= hi <= n && (hi <= start || end <= lo)
    ensures var r := WriteFrom(ds, n, effList, ys, start, end, 0).0;
      e in r && hi <= |r[e].rows| && r[e].rows[lo..hi] == ds[e].rows[lo..hi]
  {
    var r := WriteFrom(ds, n, effList, ys, start, end, 0).0;
    WriteFromKeys(ds, n, effList, ys, start, end, 0);
    forall j | lo <= j < hi
      ensures r[e].rows[j] == ds[e].rows[j]
    {
      KeepsOld(ds, n, effList, ys, start, end, 0, e, j);
    }
  }

  /** Rows outside `[start, end)` keep their values, zeros for a new dataset. */
  lemma WriteFromKeeps(ds: map<string, NdArray>, n: nat, effList: seq<string>,
                       ys: seq<NdArray>, start: nat, end: nat, i: nat, e: string, j: nat)
    requires |ys| == |effList| && i <= |ys| && start <= end <= n && Sized(ds, n)
    requires forall k :: 0 <= k < |ys| ==> WellFormed(ys[k])
    requires e in WriteFrom(ds, n, effList, ys, start, end, i).0
    requires j < n && !(start <= j < end)
    ensures var g := WriteFrom(ds, n, effList, ys, start, end, i).0[e];
      && (e in ds ==> g.rows[j] == ds[e].rows[j])
      && (e !in ds ==> forall x :: 0 <= x < |g.rows[j]| ==> g.rows[j][x] == 0.0)
  {
    if e in ds {
      KeepsOld(ds, n, effList, ys, start, end, i, e, j);
    } else {
      KeepsNew(ds, n, effList, ys, start, end, i, e, j);
    }
  }

  /** When the callback succeeds, rows `[start, end)` of every written name hold
      the last result written under that name. */
  lemma {:induction false} WriteFromWrites(ds: map<string, NdArray>, n: nat, effList: seq<string>,
                                           ys: seq<NdArray>, start: nat, end: nat, i: nat, e: string)
    requires |ys| == |effList| && i <= |ys| && start <= end <= n && Sized(ds, n)
    requires forall k :: 0 <= k < |ys| ==> WellFormed(ys[k])
    requires WriteFrom(ds, n, effList, ys, start, end, i).1 && e in effList[i..]
    ensures e in WriteFrom(ds, n, effList, ys, start, end, i).0
    ensures WriteFrom(ds, n, effList, ys, start, end, i).0[e].rows[start..end] ==
      ys[LastIndex(effList, e)].rows
    decreases |ys| - i
  {
    assert effList[i..] == [effList[i]] + effList[i + 1..];
    var (ds', ok) := Put(ds, n, effList[i], ys[i], start, end);
    var r := WriteFrom(ds', n, effList, ys, start, end, i + 1);
    assert r == WriteFrom(ds, n, effList, ys, start, end, i);
    if e in effList[i + 1..] {
      WriteFromWrites(ds', n, effList, ys, start, end, i + 1, e);
    } else {
      assert e == effList[i];
      WriteFromOthers(ds', n, effList, ys, start, end, i + 1, e);
      assert r.0[e] == ds'[e];
    }
  }

  /** The output file while the callback runs. */
  class Store {
    /** Rows of every dataset, `data['s_x'].shape[0]`. */
    const n: nat
    /** The requested effect names, in request order; result `i` of a batch is
        written to dataset `effList[i]`. */
    const effList: seq<string>
    const cfg: Config
    var datasets: map<string, NdArray>

    ghost predicate Valid()
      reads this
    {
      Sized(datasets, n)
    }

    /** A newly opened, empty file. */
    constructor (n: nat, effList: seq<string>, cfg: Config)
      ensures Valid() && datasets == map[]
      ensures this.n == n && this.effList == effList && this.cfg == cfg
    {
      this.n, this.effList, this.cfg := n, effList, cfg;
      datasets := map[];
    }

    /** Create dataset `name` if the file has none, then assign `y` to its rows
        `[start, end)`; `ok` is false when `y` does not fit. */
    method WriteOne(name: string, y: NdArray, start: nat, end: nat) returns (ok: bool)
      requires Valid() && start <= end <= n && WellFormed(y)
      modifies this
      ensures Valid()
      ensures (datasets, ok) == Put(old(datasets), n, name, y, start, end)
    {
      var g: NdArray;
      if name in datasets {
        g := datasets[name];
      } else {
        g := Zeros(n, y.dims);
        datasets := datasets[name := g];
      }
      PutIs(old(datasets), n, name, y, start, end, g);
      assert datasets == old(datasets)[name := g];
      if !(|y.rows| == end - start && y.dims == g.dims) {
        return false;
      }
      var v := NdArray(g.dims, g.rows[..start] + y.rows + g.rows[end..]);
      assert old(datasets)[name := g][name := v] == old(datasets)[name := v];
      datasets := datasets[name := v];
      return true;
    }

    /** `write_fun(x, start, end)`: reduce each result `x[i]` and write it into
        rows `[start, end)` of dataset `effList[i]`, creating the dataset on
        its first write.  `ok` is false when a result does not fit its
        dataset; the file then holds what was written before the failure. */
    method Write(x: seq<NdArray>, start: nat, end: nat) returns (ok: bool)
      requires Valid() && start <= end <= n && |x| == |effList|
      requires forall i :: 0 <= i < |x| ==> ReduceDefined(cfg, x[i])
      modifies this
      ensures Valid()
      ensures (datasets, ok) == WriteFrom(old(datasets), n, effList, ReduceAll(cfg, x), start, end, 0)
    {
      ghost var ys := ReduceAll(cfg, x);
      var i := 0;
      while i < |x|
        invariant 0 <= i <= |x| && Valid()
        invariant WriteFrom(datasets, n, effList, ys, start, end, i) ==
          WriteFrom(old(datasets), n, effList, ys, start, end, 0)
      {
        WriteFromStep(datasets, n, effList, ys, start, end, i);
        var xi := BatchReduce(cfg, x[i]);
        var stored := WriteOne(effList[i], xi, start, end);
        if !stored {
          return false;
        }
        i := i + 1;
      }
      return true;
    }
  }
}
