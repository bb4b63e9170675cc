/** Effect-kind dispatch: from the requested effect kinds to the output
    expressions whose gradients the scoring loop evaluates. */
module Effects {
  import opened Wrappers
  import opened NdArrays

  /** A symbolic combination of the model's named outputs. */
  datatype Expr =
    | Output(key: string)
    | Const(c: real)
    | Add(a: Expr, b: Expr)
    | Sub(a: Expr, b: Expr)
    | Mul(a: Expr, b: Expr)
    | Sqr(a: Expr)
    | DivBy(a: Expr, n: nat)

  /** `T.grad(T.mean(y), x)`, followed by `T.max(T.abs_(g), axis=2)` unless
      per-character output is requested.  The gradient itself is opaque. */
  datatype Grad = Grad(y: Expr, perChar: bool)

  /** The `KeyError`s and the `IndexError` the dispatch can raise. */
  datatype DispatchError =
    | MissingTarget(name: string)
    | MissingOutput(key: string)
    | NoOutputs

  datatype Result<T> = Ok(value: T) | Err(error: DispatchError)

  /** Value of an expression when output `key` evaluates to `val(key)`. */
  function Eval(e: Expr, val: string -> real): real
  {
    match e
    case Output(key) => val(key)
    case Const(c) => c
    case Add(a, b) => Eval(a, val) + Eval(b, val)
    case Sub(a, b) => Eval(a, val) - Eval(b, val)
    case Mul(a, b) => Eval(a, val) * Eval(b, val)
    case Sqr(a) => Eval(a, val) * Eval(a, val)
    case DivBy(a, n) => if n == 0 then 0.0 else Eval(a, val) / (n as real)
  }

  /** The outputs an expression reads. */
  function Keys(e: Expr): set<string>
  {
    match e
    case Output(key) => {key}
    case Const(_) => {}
    case Add(a, b) => Keys(a) + Keys(b)
    case Sub(a, b) => Keys(a) + Keys(b)
    case Mul(a, b) => Keys(a) + Keys(b)
    case Sqr(a) => Keys(a)
    case DivBy(a, _) => Keys(a)
  }

  /** `{n: i for i, n in zip(ids, names)}`: the names paired with an id are the
      keys. */
  function TargetIndex(ids: seq<string>, names: seq<string>): (m: map<string, string>)
    ensures forall name :: name in m <==> name in names[..Min(|ids|, |names|)]
    decreases Min(|ids|, |names|)
  {
    var n := Min(|ids|, |names|);
    if n == 0 then map[]
    else
      var m := TargetIndex(ids[..n - 1], names[..n - 1]);
      assert names[..n - 1][..n - 1] == names[..n - 1];
      assert names[..n] == names[..n - 1] + [names[n - 1]];
      m[names[n - 1] := ids[n - 1]]
  }

  /** A name repeated in the target table maps to the id of its last occurrence. */
  lemma {:induction false} TargetIndexLast(ids: seq<string>, names: seq<string>, j: nat)
    requires j < Min(|ids|, |names|)
    requires names[j] !in names[j + 1 .. Min(|ids|, |names|)]
    ensures TargetIndex(ids, names)[names[j]] == ids[j]
    decreases Min(|ids|, |names|)
  {
    var n := Min(|ids|, |names|);
    if j < n - 1 {
      assert names[n - 1] in names[j + 1 .. n];
      assert names[..n - 1][j + 1 .. Min(|ids[..n - 1]|, |names[..n - 1]|)] == names[j + 1 .. n - 1];
      TargetIndexLast(ids[..n - 1], names[..n - 1], j);
    }
  }

  /** The output key `tar_n2i[name] + '_y'` and its lookup in the model outputs. */
  function OutputKey(name: string, tarN2i: map<string, string>, outNames: seq<string>): (r: Result<string>)
    ensures r.Ok? <==> name in tarN2i && tarN2i[name] + "_y" in outNames
    ensures r.Ok? ==> r.value == tarN2i[name] + "_y"
    ensures name !in tarN2i ==> r == Err(MissingTarget(name))
    ensures name in tarN2i && tarN2i[name] + "_y" !in outNames ==>
      r == Err(MissingOutput(tarN2i[name] + "_y"))
  {
    if name !in tarN2i then Err(MissingTarget(name))
    else
      var key := tarN2i[name] + "_y";
      if key !in outNames then Err(MissingOutput(key)) else Ok(key)
  }

  /** `y = outs[0]; y += outs[1]; ...`: the left-nested sum of the outputs. */
  function SumOutputs(outNames: seq<string>): (s: Expr)
    requires |outNames| > 0
    ensures Keys(s) == set key | key in outNames
  {
    if |outNames| == 1 then Output(outNames[0])
    else Add(SumOutputs(outNames[..|outNames| - 1]), Output(outNames[|outNames| - 1]))
  }

  /** Sum of the values of a list of outputs. */
  function SumValues(outNames: seq<string>, val: string -> real): real
  {
    if outNames == [] then 0.0 else val(outNames[0]) + SumValues(outNames[1..], val)
  }

  /** The expression `(m * (1 - m) - v) ** 2` for the dispersion mismatch. */
  function DispExpr(m: string, v: string): (d: Expr)
    ensures Keys(d) == {m, v}
  {
    var bernoulli := Mul(Output(m), Sub(Const(1.0), Output(m)));
    assert Keys(Sub(Const(1.0), Output(m))) == {m};
    assert Keys(bernoulli) == {m};
    assert Keys(Sub(bernoulli, Output(v))) == {m} + {v};
    Sqr(Sub(bernoulli, Output(v)))
  }

  lemma EvalDisp(m: string, v: string, val: string -> real)
    ensures var x := val(m) * (1.0 - val(m)) - val(v);
      Eval(DispExpr(m, v), val) == x * x
  {
    var inner := Mul(Output(m), Sub(Const(1.0), Output(m)));
    assert Eval(Sub(Const(1.0), Output(m)), val) == 1.0 - val(m);
    assert Eval(inner, val) == val(m) * (1.0 - val(m));
    assert Eval(Sub(inner, Output(v)), val) == val(m) * (1.0 - val(m)) - val(v);
  }

  /** The output expression `y` for one requested effect kind. */
  function EffectOf(effect: string, target: string, tarN2i: map<string, string>,
                    outNames: seq<string>): (r: Result<Expr>)
    ensures r.Ok? ==> Keys(r.value) <= set key | key in outNames
    ensures r.Ok? && effect != "mean" && effect != "var" && effect != "disp" ==>
      Keys(r.value) == set key | key in outNames
  {
    if effect == "mean" then
      match OutputKey(target + "_mean", tarN2i, outNames)
      case Ok(m) => Ok(Output(m))
      case Err(e) => Err(e)
    else if effect == "var" then
      match OutputKey(target + "_var", tarN2i, outNames)
      case Ok(v) => Ok(Output(v))
      case Err(e) => Err(e)
    else if effect == "disp" then
      match OutputKey(target + "_mean", tarN2i, outNames)
      case Err(e) => Err(e)
      case Ok(m) =>
        match OutputKey(target + "_var", tarN2i, outNames)
        case Err(e) => Err(e)
        case Ok(v) => Ok(DispExpr(m, v))
    else if outNames == [] then Err(NoOutputs)
    else Ok(DivBy(SumOutputs(outNames), |outNames|))
  }

  /** The mean and variance outputs a target's effects read. */
  predicate Resolves(name: string, tarN2i: map<string, string>, outNames: seq<string>)
  {
    name in tarN2i && tarN2i[name] + "_y" in outNames
  }

  /** An effect fails exactly when an output it needs cannot be found: "mean"
      and "disp" need the target's mean output, "var" and "disp" its variance
      output, every other kind at least one model output.  A missing target
      name fails as such. */
  lemma EffectOfFails(effect: string, target: string, tarN2i: map<string, string>, outNames: seq<string>)
    ensures var needsMean := effect == "mean" || effect == "disp";
      var needsVar := effect == "var" || effect == "disp";
      var other := !needsMean && !needsVar;
      EffectOf(effect, target, tarN2i, outNames).Err? <==>
        (needsMean && !Resolves(target + "_mean", tarN2i, outNames)) ||
        (needsVar && !Resolves(target + "_var", tarN2i, outNames)) ||
        (other && outNames == [])
    ensures (effect == "mean" || effect == "disp") && target + "_mean" !in tarN2i ==>
      EffectOf(effect, target, tarN2i, outNames) == Err(MissingTarget(target + "_mean"))
    ensures effect == "var" && target + "_var" !in tarN2i ==>
      EffectOf(effect, target, tarN2i, outNames) == Err(MissingTarget(target + "_var"))
    ensures effect == "disp" && Resolves(target + "_mean", tarN2i, outNames) && target + "_var" !in tarN2i ==>
      EffectOf(effect, target, tarN2i, outNames) == Err(MissingTarget(target + "_var"))
  {
  }

  /** "mean" and "var" select the target's output `tar_n2i[name] + '_y'`. */
  lemma EffectOfSelects(effect: string, target: string, tarN2i: map<string, string>,
                        outNames: seq<string>, val: string -> real)
    requires effect == "mean" || effect == "var"
    requires EffectOf(effect, target, tarN2i, outNames).Ok?
    ensures var name := if effect == "mean" then target + "_mean" else target + "_var";
      name in tarN2i &&
      Eval(EffectOf(effect, target, tarN2i, outNames).value, val) == val(tarN2i[name] + "_y")
  {
  }

  /** "disp" is the squared mismatch `(m * (1 - m) - v) ** 2` between the
      variance output `v` and the Bernoulli variance of the mean output `m`:
      never negative, and zero when the two agree. */
  lemma DispMismatch(target: string, tarN2i: map<string, string>, outNames: seq<string>,
                     val: string -> real)
    requires EffectOf("disp", target, tarN2i, outNames).Ok?
    ensures Resolves(target + "_mean", tarN2i, outNames) && Resolves(target + "_var", tarN2i, outNames)
    ensures var m := val(tarN2i[target + "_mean"] + "_y");
      var v := val(tarN2i[target + "_var"] + "_y");
      var d := Eval(EffectOf("disp", target, tarN2i, outNames).value, val);
      && d == (m * (1.0 - m) - v) * (m * (1.0 - m) - v)
      && d >= 0.0
      && (m * (1.0 - m) == v ==> d == 0.0)
  {
    var m := val(tarN2i[target + "_mean"] + "_y");
    var v := val(tarN2i[target + "_var"] + "_y");
    assert EffectOf("disp", target, tarN2i, outNames).value ==
      DispExpr(tarN2i[target + "_mean"] + "_y", tarN2i[target + "_var"] + "_y");
    EvalDisp(tarN2i[target + "_mean"] + "_y", tarN2i[target + "_var"] + "_y", val);
    SquareNonNegative(m * (1.0 - m) - v);
  }

  lemma SquareNonNegative(x: real)
    ensures x * x >= 0.0
  {
  }

  lemma {:induction false} SumValuesSnoc(outNames: seq<string>, key: string, val: string -> real)
    ensures SumValues(outNames + [key], val) == SumValues(outNames, val) + val(key)
  {
    if outNames != [] {
      assert (outNames + [key])[1..] == outNames[1..] + [key];
      SumValuesSnoc(outNames[1..], key, val);
    }
  }

  lemma {:induction false} SumOutputsValue(outNames: seq<string>, val: string -> real)
    requires |outNames| > 0
    ensures Eval(SumOutputs(outNames), val) == SumValues(outNames, val)
  {
    if |outNames| > 1 {
      var init, last := outNames[..|outNames| - 1], outNames[|outNames| - 1];
      SumOutputsValue(init, val);
      SumValuesSnoc(init, last, val);
      assert init + [last] == outNames;
    }
  }

  /** Any other kind is the unweighted average of all model outputs. */
  lemma EffectOfAverages(effect: string, target: string, tarN2i: map<string, string>,
                         outNames: seq<string>, val: string -> real)
    requires effect != "mean" && effect != "var" && effect != "disp"
    requires outNames != []
    ensures EffectOf(effect, target, tarN2i, outNames).Ok?
    ensures Eval(EffectOf(effect, target, tarN2i, outNames).value, val) ==
      SumValues(outNames, val) / (|outNames| as real)
  {
    assert EffectOf(effect, target, tarN2i, outNames) == Ok(DivBy(SumOutputs(outNames), |outNames|));
    SumOutputsValue(outNames, val);
  }

  /** Every requested effect finds the outputs it needs. */
  predicate AllResolve(effects: seq<string>, target: string, tarN2i: map<string, string>,
                       outNames: seq<string>)
  {
    forall i :: 0 <= i < |effects| ==> EffectOf(effects[i], target, tarN2i, outNames).Ok?
  }

  /** The gradients of the requested effects, in request order. */
  function GradsOf(effects: seq<string>, target: string, tarN2i: map<string, string>,
                   outNames: seq<string>, perChar: bool): (gs: seq<Grad>)
    requires AllResolve(effects, target, tarN2i, outNames)
  {
    seq(|effects|, i requires 0 <= i < |effects| =>
      Grad(EffectOf(effects[i], target, tarN2i, outNames).value, perChar))
  }

  /** The dispatch loop: one gradient per requested effect, appended in request
      order together with the effect's name; the first effect whose outputs
      cannot be found raises before anything is compiled. */
  method BuildEffects(effects: seq<string>, target: string, tarN2i: map<string, string>,
                      outNames: seq<string>, perChar: bool)
    returns (gs: seq<Grad>, effList: seq<string>, err: Option<DispatchError>)
    ensures err.None? <==> AllResolve(effects, target, tarN2i, outNames)
    ensures err.None? ==> effList == effects && |gs| == |effects|
    ensures err.None? ==> forall i :: 0 <= i < |effects| ==>
      gs[i] == Grad(EffectOf(effects[i], target, tarN2i, outNames).value, perChar)
    ensures err.None? ==> gs == GradsOf(effects, target, tarN2i, outNames, perChar)
    ensures err.Some? ==> exists i :: (0 <= i < |effects| &&
      EffectOf(effects[i], target, tarN2i, outNames) == Err(err.value) &&
      forall j :: 0 <= j < i ==> EffectOf(effects[j], target, tarN2i, outNames).Ok?)
  {
    gs, effList, err := [], [], None;
    var i := 0;
    while i < |effects|
      invariant 0 <= i <= |effects|
      invariant effList == effects[..i] && |gs| == i
      invariant forall j :: 0 <= j < i ==> EffectOf(effects[j], target, tarN2i, outNames).Ok?
      invariant forall j :: 0 <= j < i ==>
        gs[j] == Grad(EffectOf(effects[j], target, tarN2i, outNames).value, perChar)
    {
      var y := EffectOf(effects[i], target, tarN2i, outNames);
      if y.Err? {
        err := Some(y.error);
        return;
      }
      gs := gs + [Grad(y.value, perChar)];
      effList := effList + [effects[i]];
      i := i + 1;
    }
  }
}
