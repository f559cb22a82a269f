/** Any composition of operations on factored tensors against the same composition on dense ones. */
module LoraExpressions {
  import opened Results
  import opened Tensors
  import opened LoraTensors
  import opened LoraReshape
  import opened LoraPermute
  import opened LoraGetItem
  import opened LoraItem
  import opened LoraJoin
  import opened LoraCat

  /** A program over tensors. */
  datatype Expr =
    | Leaf(t: Lora)
    | ReshapeOf(e: Expr, dims: seq<int>)
    | PermuteOf(e: Expr, dims: seq<int>)
    | SwapAxesOf(e: Expr, dim0: int, dim1: int)
    | ItemOf(e: Expr, ix: Index)
    | TupleOf(e: Expr, ixs: seq<Index>)
    | StackOf(es: seq<Expr>)
    | CatOf(es: seq<Expr>)

  /** The program run on factored tensors. */
  function EvalFactors(e: Expr): Result<Lora>
    decreases e, 2
  {
    LastFactors(e)
  }

  /** The last step and those before it. Apart from `EvalFactors`, so that a proof about one step does not unfold the others. */
  function LastFactors(e: Expr): Result<Lora>
    decreases e, 1
  {
    match e
    case Leaf(t) => Ok(t)
    case ReshapeOf(x, dims) => var t :- EvalFactors(x); ReshapeFactors(t, dims)
    case PermuteOf(x, dims) => var t :- EvalFactors(x); PermuteFactors(t, dims)
    case SwapAxesOf(x, i, j) => var t :- EvalFactors(x); SwapFactorAxes(t, i, j)
    case ItemOf(x, ix) => var t :- EvalFactors(x); ItemOfFactors(t, ix)
    case TupleOf(x, ixs) => var t :- EvalFactors(x); TupleOfFactors(t, ixs)
    case StackOf(xs) => var ts :- EvalFactorsAll(xs); StackFactors(ts)
    case CatOf(xs) => var ts :- EvalFactorsAll(xs); CatFactors(ts)
  }

  function EvalFactorsAll(es: seq<Expr>): (r: Result<seq<Lora>>)
    ensures r.Ok? ==> |r.value| == |es|
    decreases es, 0
  {
    if |es| == 0 then Ok([])
    else
      var t :- EvalFactors(es[0]);
      var ts :- EvalFactorsAll(es[1..]);
      Ok([t] + ts)
  }

  /** The program run on the products. */
  function EvalDense(e: Expr): Result<Tensor>
    decreases e, 2
  {
    LastDense(e)
  }

  /** Apart from `EvalDense`, for the same reason. */
  function LastDense(e: Expr): Result<Tensor>
    decreases e, 1
  {
    match e
    case Leaf(t) => if Aligned(t) then Ok(Materialize(t)) else Err("factors cannot be multiplied")
    case ReshapeOf(x, dims) => var m :- EvalDense(x); Reshape(m, dims)
    case PermuteOf(x, dims) => var m :- EvalDense(x); Permute(m, dims)
    case SwapAxesOf(x, i, j) => var m :- EvalDense(x); SwapAxes(m, i, j)
    case ItemOf(x, ix) => var m :- EvalDense(x); GetItem(m, [ix])
    case TupleOf(x, ixs) => var m :- EvalDense(x); GetItem(m, ixs)
    case StackOf(xs) => var ms :- EvalDenseAll(xs); Stack(ms)
    case CatOf(xs) => var ms :- EvalDenseAll(xs); Cat(ms)
  }

  function EvalDenseAll(es: seq<Expr>): (r: Result<seq<Tensor>>)
    ensures r.Ok? ==> |r.value| == |es|
    decreases es, 0
  {
    if |es| == 0 then Ok([])
    else
      var m :- EvalDense(es[0]);
      var ms :- EvalDenseAll(es[1..]);
      Ok([m] + ms)
  }

  /** What `cat` needs of its inputs: matrices, a single batch, or batches whose first axes A carries in full. */
  predicate CatSupported(ts: seq<Lora>) {
    ts != [] && (|ts[0].a.shape| == 2 || |ts| == 1 || AllFullFirst(ts))
  }

  /** Every index and every `cat` of the program is one that the factors support. */
  predicate Supported(e: Expr) {
    match e
    case Leaf(t) => true
    case ReshapeOf(x, _) => Supported(x)
    case PermuteOf(x, _) => Supported(x)
    case SwapAxesOf(x, _, _) => Supported(x)
    case ItemOf(x, ix) => Supported(x) && (EvalFactors(x).Ok? ==> ItemSupported(EvalFactors(x).value, ix))
    case TupleOf(x, ixs) =>
      && Supported(x)
      && (EvalFactors(x).Ok? && |ixs| <= |EvalFactors(x).value.a.shape| ==>
            TupleSupported(EvalFactors(x).value, ixs))
    case StackOf(xs) => AllSupported(xs)
    case CatOf(xs) => AllSupported(xs) && (EvalFactorsAll(xs).Ok? ==> CatSupported(EvalFactorsAll(xs).value))
  }

  predicate AllSupported(es: seq<Expr>) {
    forall i :: 0 <= i < |es| ==> Supported(es[i])
  }

  /** A supported program means the same on the factors and on the products. */
  lemma {:induction false} FactorsMeanProducts(e: Expr, u: Lora, m: Tensor)
    requires Supported(e) && EvalFactors(e) == Ok(u) && EvalDense(e) == Ok(m)
    ensures Aligned(u) && Materialize(u) == m && Shape(u) == m.shape
    decreases e, 1
  {
    match e
    case Leaf(t) =>
    case ReshapeOf(x, dims) =>
      FactorsMeanProducts(x, EvalFactors(x).value, EvalDense(x).value);
      ReshapeSound(EvalFactors(x).value, dims, u, m);
    case PermuteOf(x, dims) =>
      FactorsMeanProducts(x, EvalFactors(x).value, EvalDense(x).value);
      PermuteSound(EvalFactors(x).value, dims, u, m);
    case SwapAxesOf(x, i, j) =>
      FactorsMeanProducts(x, EvalFactors(x).value, EvalDense(x).value);
      SwapAxesSound(EvalFactors(x).value, i, j, u, m);
    case ItemOf(x, ix) =>
      FactorsMeanProducts(x, EvalFactors(x).value, EvalDense(x).value);
      ItemExact(EvalFactors(x).value, ix, u, m);
    case TupleOf(x, ixs) =>
      FactorsMeanProducts(x, EvalFactors(x).value, EvalDense(x).value);
      TupleExact(EvalFactors(x).value, ixs, u, m);
    case StackOf(xs) =>
      AllFactorsMeanProducts(xs, EvalFactorsAll(xs).value, EvalDenseAll(xs).value);
      StackSound(EvalFactorsAll(xs).value, u);
    case CatOf(xs) =>
      AllFactorsMeanProducts(xs, EvalFactorsAll(xs).value, EvalDenseAll(xs).value);
      CatSupportedSound(EvalFactorsAll(xs).value, u);
  }

  lemma {:induction false} AllFactorsMeanProducts(es: seq<Expr>, us: seq<Lora>, ms: seq<Tensor>)
    requires AllSupported(es) && EvalFactorsAll(es) == Ok(us) && EvalDenseAll(es) == Ok(ms)
    ensures AllAligned(us) && Products(us) == ms
    decreases es, 0
  {
    if |es| > 0 {
      var u, m := EvalFactors(es[0]).value, EvalDense(es[0]).value;
      FactorsMeanProducts(es[0], u, m);
      AllFactorsMeanProducts(es[1..], us[1..], ms[1..]);
      assert us == [u] + us[1..] && ms == [m] + ms[1..];
      ConsProducts(u, us[1..]);
    }
  }

  lemma {:induction false} ConsProducts(u: Lora, us: seq<Lora>)
    requires Aligned(u) && AllAligned(us)
    ensures AllAligned([u] + us) && Products([u] + us) == [Materialize(u)] + Products(us)
  {
  }

  lemma {:induction false} CatSupportedSound(ts: seq<Lora>, u: Lora)
    requires AllAligned(ts) && CatFactors(ts) == Ok(u) && CatSupported(ts)
    ensures Aligned(u) && Cat(Products(ts)) == Ok(Materialize(u))
  {
    if |ts[0].a.shape| == 2 {
      CatMatrices(ts, u);
    } else if |ts| > 1 {
      CatBatches(ts, u);
    }
  }
}
