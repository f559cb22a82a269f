/** Exactly when the factors accept a program that the products accept. */
module LoraAcceptance {
  import opened Results
  import opened Tensors
  import opened LoraTensors
  import opened LoraReshape
  import opened LoraPermute
  import opened LoraGetItem
  import opened LoraItem
  import opened LoraCat
  import opened LoraExpressions

  // ----- what one operation needs

  /** The reshape keeps the last axis; A is not batched or has no element; the rows stay as many. */
  predicate KeepsRows(t: Lora, m: Tensor) {
    && |m.shape| >= 2 && m.shape[|m.shape| - 1] == Cols(t)
    && (UnitLead(t) || Rank(t) == 0 || Cols(t) == 0)
    && (RowsKept(t, m) || Rank(t) == 0)
  }

  /** The permutation is one of a matrix, or leaves the last axis alone while A is not batched. */
  predicate KeepsLast(t: Lora, dims: seq<int>)
    requires |dims| > 0
  {
    |t.a.shape| == 2 || (WrapAxes(dims, |dims|)[|dims| - 1] == |dims| - 1 && UnitLead(t))
  }

  predicate SwapKeepsLast(t: Lora, i: int, j: int) {
    var p := SwappedAxes(|t.a.shape|, i, j);
    p.Ok? && KeepsLast(t, p.value)
  }

  /** A slice, or a position of a batch that the first axis of A has, too. */
  predicate InBothFactors(t: Lora, ix: Index) {
    ix.Slice? || (|t.a.shape| > 2 && 0 <= ix.i + t.a.shape[0] < 2 * t.a.shape[0])
  }

  /** The tuple has slices for the last two axes. */
  predicate SlicesLast(t: Lora, ixs: seq<Index>) {
    var n := |t.a.shape|;
    0 < |ixs| <= n && PadIndices(ixs, n)[n - 2].Slice? && PadIndices(ixs, n)[n - 1].Slice?
  }

  predicate SameShapes(xs: seq<Tensor>) {
    forall i :: 0 <= i < |xs| ==> xs[i].shape == xs[0].shape
  }

  /** Matrices with the same A, or batches of which both factors agree outside the first axis. */
  predicate Concatenable(ts: seq<Lora>)
    requires ts != []
  {
    if |ts[0].a.shape| > 2 then SameTails(FactorsA(ts)) && SameTails(FactorsB(ts)) else SharedA(ts)
  }

  // ----- one operation

  lemma {:induction false} ReshapeAccepted(t: Lora, dims: seq<int>, m: Tensor)
    requires Aligned(t) && Reshape(Materialize(t), dims) == Ok(m)
    ensures ReshapeFactors(t, dims).Ok? <==> KeepsRows(t, m)
  {
    ReshapeSupported(t, dims, m);
  }

  lemma {:induction false} SwapAccepted(t: Lora, i: int, j: int, m: Tensor)
    requires Aligned(t) && SwapAxes(Materialize(t), i, j) == Ok(m)
    ensures SwapFactorAxes(t, i, j).Ok? <==> SwapKeepsLast(t, i, j)
  {
    PermuteSupported(t, SwappedAxes(|t.a.shape|, i, j).value, m);
  }

  /** What indexing with one entry leaves of a shape. */
  lemma {:induction false} ItemShape(x: Tensor, ix: Index)
    requires |x.shape| > 1 && Resolve(ix, x.shape[0]).Ok?
    ensures GetItem(x, [ix]).Ok?
    ensures GetItem(x, [ix]).value.shape ==
            (if ix.Select? then [] else [|Resolve(ix, x.shape[0]).value.at|]) + x.shape[1..]
  {
    ItemPicks(x, ix);
    WholesFit(x.shape[1..]);
    if ix.Select? {
      FirstDropped(Resolve(ix, x.shape[0]).value, Wholes(x.shape[1..]));
    } else {
      FirstAxis(Resolve(ix, x.shape[0]).value.at, Wholes(x.shape[1..]));
    }
  }

  lemma {:induction false} FirstDropped(p: Pick, ps: seq<Pick>)
    requires p.One?
    ensures PickedShape([p] + ps) == PickedShape(ps)
    decreases |ps|
  {
    var n := |ps|;
    if n == 0 {
      assert [p] + ps == [p] && [p][..0] == [];
    } else {
      assert ([p] + ps)[..n] == [p] + ps[..n - 1];
      FirstDropped(p, ps[..n - 1]);
    }
  }

  lemma {:induction false} ResolvesIn(ix: Index, n: nat, k: nat)
    requires Resolve(ix, n).Ok?
    ensures Resolve(ix, k).Ok? <==> ix.Slice? || 0 <= ix.i + k < 2 * k
  {
  }

  lemma {:induction false} ItemAccepted(t: Lora, ix: Index)
    requires Aligned(t) && GetItem(Materialize(t), [ix]).Ok?
    ensures ItemOfFactors(t, ix).Ok? <==> InBothFactors(t, ix)
  {
    ItemPicks(Materialize(t), ix);
    ItemShape(t.b, ix);
    if |t.a.shape| > 2 {
      BatchItemAccepted(t, ix);
    } else if ix.Slice? {
      MatrixItemCreates(t, GetItem(t.b, [ix]).value);
    }
  }

  lemma {:induction false} MatrixItemCreates(t: Lora, b: Tensor)
    requires |t.a.shape| == 2 && |b.shape| == 2 && b.shape[1..] == t.b.shape[1..]
    ensures Create(t.a, b).Ok?
  {
    assert b.shape[1..][0] == t.b.shape[1..][0];
  }

  lemma {:induction false} BatchItemAccepted(t: Lora, ix: Index)
    requires Aligned(t) && |t.a.shape| > 2 && Resolve(ix, t.b.shape[0]).Ok?
    ensures ItemOfFactors(t, ix).Ok? <==> InBothFactors(t, ix)
  {
    ItemPicks(t.a, ix);
    ItemShape(t.b, ix);
    ResolvesIn(ix, t.b.shape[0], t.a.shape[0]);
    if Resolve(ix, t.a.shape[0]).Ok? {
      ItemShape(t.a, ix);
      var k := if ix.Select? then 0 else 1;
      BatchItemCreates(t, GetItem(t.a, [ix]).value, GetItem(t.b, [ix]).value, k);
    }
  }

  lemma {:induction false} BatchItemCreates(t: Lora, a: Tensor, b: Tensor, k: nat)
    requires |t.a.shape| > 2 && k <= 1 && |a.shape| == |b.shape| == |t.a.shape| - 1 + k
    requires a.shape[k..] == t.a.shape[1..] && b.shape[k..] == t.b.shape[1..]
    ensures Create(a, b).Ok?
  {
    var n := |t.a.shape|;
    assert a.shape[k..][n - 3] == t.a.shape[1..][n - 3];
    assert b.shape[k..][n - 2] == t.b.shape[1..][n - 2];
  }

  lemma {:induction false} TupleAcceptedExactly(t: Lora, ixs: seq<Index>)
    requires Aligned(t) && |ixs| <= |t.a.shape| && GetItem(Materialize(t), ixs).Ok? && TupleSupported(t, ixs)
    ensures TupleOfFactors(t, ixs).Ok? <==> SlicesLast(t, ixs)
  {
    if SlicesLast(t, ixs) {
      TupleAccepted(t, ixs);
    } else if TupleOfFactors(t, ixs).Ok? {
      BothOrNeither(t, ixs, TupleOfFactors(t, ixs).value);
    }
  }

  /** Of the last two axes an accepted tuple keeps both or neither. */
  lemma {:induction false} BothOrNeither(t: Lora, ixs: seq<Index>, u: Lora)
    requires Aligned(t) && |ixs| <= |t.a.shape| && GetItem(Materialize(t), ixs).Ok? && TupleOfFactors(t, ixs) == Ok(u)
    ensures var full := PadIndices(ixs, |t.a.shape|); full[|full| - 2].Slice? <==> full[|full| - 1].Slice?
  {
    var full := PadIndices(ixs, |t.a.shape|);
    PaddedItem(Materialize(t), ixs);
    GetItemResolves(Materialize(t), ixs);
    var pa, ps, px, py := TupleParts(t, full);
    TupleShapes(t, u, GetItem(Materialize(t), ixs).value, pa, ps, px, py);
  }

  lemma {:induction false} StackAccepted(ts: seq<Lora>)
    requires ts != []
    ensures StackFactors(ts).Ok? <==> SameShapes(FactorsA(ts)) && SameShapes(FactorsB(ts))
  {
    assert FactorsA(ts)[0] == ts[0].a && FactorsB(ts)[0] == ts[0].b;
  }

  lemma {:induction false} CatFactorsAccepted(ts: seq<Lora>)
    requires ts != []
    ensures CatFactors(ts).Ok? <==> Concatenable(ts)
  {
    CatAccepted(FactorsB(ts));
    if |ts[0].a.shape| > 2 {
      CatAccepted(FactorsA(ts));
      if Concatenable(ts) {
        CatCreates(ts[0], Cat(FactorsA(ts)).value, Cat(FactorsB(ts)).value);
      }
    } else if SharedA(ts) {
      MatrixTails(ts);
      CatCreates(ts[0], ts[0].a, Cat(FactorsB(ts)).value);
    }
  }

  lemma {:induction false} CatCreates(t: Lora, a: Tensor, b: Tensor)
    requires |a.shape| == |b.shape| == |t.a.shape| && b.shape[1..] == t.b.shape[1..]
    requires a == t.a || (|t.a.shape| > 2 && a.shape[1..] == t.a.shape[1..])
    ensures Create(a, b).Ok?
  {
    var n := |t.a.shape|;
    assert b.shape[1..][n - 2] == t.b.shape[1..][n - 2];
    if n > 2 {
      assert a.shape[1..][n - 3] == t.a.shape[1..][n - 3];
    }
  }

  lemma {:induction false} MatrixTails(ts: seq<Lora>)
    requires ts != [] && |ts[0].a.shape| == 2 && SharedA(ts)
    ensures SameTails(FactorsB(ts))
  {
    forall i | 0 <= i < |ts| ensures |ts[i].b.shape| == |ts[0].b.shape| == 2 && ts[i].b.shape[1..] == ts[0].b.shape[1..] {
      assert ts[i].a == ts[0].a;
    }
  }

  // ----- programs

  /** Every step is one that the factors can take. */
  predicate Acceptable(e: Expr)
    decreases e, 2
  {
    LastAcceptable(e)
  }

  /** The last step and those before it. Apart from `Acceptable`, so that a proof about one step does not unfold the others. */
  predicate LastAcceptable(e: Expr)
    decreases e, 1
  {
    match e
    case Leaf(t) => true
    case ReshapeOf(x, dims) =>
      Acceptable(x) && (EvalFactors(x).Ok? && EvalDense(e).Ok? ==> KeepsRows(EvalFactors(x).value, EvalDense(e).value))
    case PermuteOf(x, dims) => Acceptable(x) && (EvalFactors(x).Ok? && |dims| > 0 ==> KeepsLast(EvalFactors(x).value, dims))
    case SwapAxesOf(x, i, j) => Acceptable(x) && (EvalFactors(x).Ok? ==> SwapKeepsLast(EvalFactors(x).value, i, j))
    case ItemOf(x, ix) => Acceptable(x) && (EvalFactors(x).Ok? ==> InBothFactors(EvalFactors(x).value, ix))
    case TupleOf(x, ixs) => Acceptable(x) && (EvalFactors(x).Ok? ==> SlicesLast(EvalFactors(x).value, ixs))
    case StackOf(xs) =>
      && AllAcceptable(xs)
      && (EvalFactorsAll(xs).Ok? ==> SameShapes(FactorsA(EvalFactorsAll(xs).value)) && SameShapes(FactorsB(EvalFactorsAll(xs).value)))
    case CatOf(xs) => AllAcceptable(xs) && (EvalFactorsAll(xs).Ok? && |xs| > 0 ==> Concatenable(EvalFactorsAll(xs).value))
  }

  predicate AllAcceptable(es: seq<Expr>)
    decreases es, 0
  {
    |es| == 0 || (Acceptable(es[0]) && AllAcceptable(es[1..]))
  }

  /** The program gives `t` on the factors, and what `t` stands for on the products. */
  predicate Runs(x: Expr, t: Lora) {
    EvalFactors(x) == Ok(t) && Aligned(t) && EvalDense(x) == Ok(Materialize(t))
  }

  predicate Agree(x: Expr) {
    EvalFactors(x).Ok? && Runs(x, EvalFactors(x).value)
  }

  lemma {:induction false} MeansTheSame(e: Expr)
    requires Supported(e) && EvalFactors(e).Ok? && EvalDense(e).Ok?
    ensures Agree(e)
  {
    FactorsMeanProducts(e, EvalFactors(e).value, EvalDense(e).value);
  }

  lemma {:induction false} AcceptReshape(x: Expr, dims: seq<int>, t: Lora, m: Tensor)
    requires Runs(x, t) && Acceptable(x) && EvalDense(ReshapeOf(x, dims)) == Ok(m)
    ensures EvalFactors(ReshapeOf(x, dims)).Ok? <==> Acceptable(ReshapeOf(x, dims))
  {
    ReshapeAccepted(t, dims, m);
  }

  lemma {:induction false} AcceptPermute(x: Expr, dims: seq<int>, t: Lora, m: Tensor)
    requires Runs(x, t) && Acceptable(x) && EvalDense(PermuteOf(x, dims)) == Ok(m)
    ensures EvalFactors(PermuteOf(x, dims)).Ok? <==> Acceptable(PermuteOf(x, dims))
  {
    PermuteSupported(t, dims, m);
  }

  lemma {:induction false} AcceptSwapAxes(x: Expr, i: int, j: int, t: Lora, m: Tensor)
    requires Runs(x, t) && Acceptable(x) && EvalDense(SwapAxesOf(x, i, j)) == Ok(m)
    ensures EvalFactors(SwapAxesOf(x, i, j)).Ok? <==> Acceptable(SwapAxesOf(x, i, j))
  {
    SwapOnFactors(x, i, j, t);
    SwapOnProduct(x, i, j, Materialize(t));
    SwapAccepted(t, i, j, m);
  }

  lemma {:induction false} SwapOnFactors(x: Expr, i: int, j: int, t: Lora)
    requires EvalFactors(x) == Ok(t)
    ensures EvalFactors(SwapAxesOf(x, i, j)) == SwapFactorAxes(t, i, j)
    ensures Acceptable(SwapAxesOf(x, i, j)) <==> Acceptable(x) && SwapKeepsLast(t, i, j)
  {
  }

  lemma {:induction false} SwapOnProduct(x: Expr, i: int, j: int, m: Tensor)
    requires EvalDense(x) == Ok(m)
    ensures EvalDense(SwapAxesOf(x, i, j)) == SwapAxes(m, i, j)
  {
  }

  lemma {:induction false} AcceptItem(x: Expr, ix: Index, t: Lora, m: Tensor)
    requires Runs(x, t) && Acceptable(x) && EvalDense(ItemOf(x, ix)) == Ok(m)
    ensures EvalFactors(ItemOf(x, ix)).Ok? <==> Acceptable(ItemOf(x, ix))
  {
    ItemOnFactors(x, ix, t);
    ItemOnProduct(x, ix, Materialize(t));
    ItemAccepted(t, ix);
  }

  lemma {:induction false} ItemOnFactors(x: Expr, ix: Index, t: Lora)
    requires EvalFactors(x) == Ok(t)
    ensures EvalFactors(ItemOf(x, ix)) == ItemOfFactors(t, ix)
    ensures Acceptable(ItemOf(x, ix)) <==> Acceptable(x) && InBothFactors(t, ix)
  {
  }

  lemma {:induction false} ItemOnProduct(x: Expr, ix: Index, m: Tensor)
    requires EvalDense(x) == Ok(m)
    ensures EvalDense(ItemOf(x, ix)) == GetItem(m, [ix])
  {
  }

  lemma {:induction false} AcceptTuple(x: Expr, ixs: seq<Index>, t: Lora, m: Tensor)
    requires Runs(x, t) && Acceptable(x) && EvalDense(TupleOf(x, ixs)) == Ok(m) && Supported(TupleOf(x, ixs))
    ensures EvalFactors(TupleOf(x, ixs)).Ok? <==> Acceptable(TupleOf(x, ixs))
  {
    TupleAcceptedExactly(t, ixs);
  }

  lemma {:induction false} SomethingJoined(xs: seq<Expr>)
    ensures EvalDense(StackOf(xs)).Ok? || EvalDense(CatOf(xs)).Ok? ==> |xs| > 0
  {
    if |xs| == 0 {
      assert EvalDenseAll(xs) == Ok([]);
    }
  }

  lemma {:induction false} AcceptStack(xs: seq<Expr>, ts: seq<Lora>)
    requires EvalFactorsAll(xs) == Ok(ts) && AllAcceptable(xs) && |ts| > 0
    ensures EvalFactors(StackOf(xs)).Ok? <==> Acceptable(StackOf(xs))
  {
    StackAccepted(ts);
  }

  lemma {:induction false} AcceptCat(xs: seq<Expr>, ts: seq<Lora>)
    requires EvalFactorsAll(xs) == Ok(ts) && AllAcceptable(xs) && |ts| > 0
    ensures EvalFactors(CatOf(xs)).Ok? <==> Acceptable(CatOf(xs))
  {
    CatFactorsAccepted(ts);
  }

  /** A supported program that runs on the products runs on the factors exactly when every step is acceptable, and then means
      the same. */
  lemma {:induction false} FactorsAccept(e: Expr)
    requires Supported(e) && EvalDense(e).Ok?
    ensures EvalFactors(e).Ok? <==> Acceptable(e)
    ensures Acceptable(e) ==> Agree(e)
    decreases e, 1
  {
    match e {
      case Leaf(t) =>
      case ReshapeOf(x, dims) =>
        FactorsAccept(x);
        if Acceptable(x) { AcceptReshape(x, dims, EvalFactors(x).value, EvalDense(e).value); }
      case PermuteOf(x, dims) =>
        FactorsAccept(x);
        if Acceptable(x) { AcceptPermute(x, dims, EvalFactors(x).value, EvalDense(e).value); }
      case SwapAxesOf(x, i, j) =>
        FactorsAccept(x);
        if Acceptable(x) { AcceptSwapAxes(x, i, j, EvalFactors(x).value, EvalDense(e).value); }
      case ItemOf(x, ix) =>
        FactorsAccept(x);
        if Acceptable(x) { AcceptItem(x, ix, EvalFactors(x).value, EvalDense(e).value); }
      case TupleOf(x, ixs) =>
        FactorsAccept(x);
        if Acceptable(x) { AcceptTuple(x, ixs, EvalFactors(x).value, EvalDense(e).value); }
      case StackOf(xs) =>
        AllFactorsAccept(xs);
        SomethingJoined(xs);
        if AllAcceptable(xs) { AcceptStack(xs, EvalFactorsAll(xs).value); }
      case CatOf(xs) =>
        AllFactorsAccept(xs);
        SomethingJoined(xs);
        if AllAcceptable(xs) { AcceptCat(xs, EvalFactorsAll(xs).value); }
    }
    if EvalFactors(e).Ok? {
      MeansTheSame(e);
    }
  }

  lemma {:induction false} AllFactorsAccept(es: seq<Expr>)
    requires AllSupported(es) && EvalDenseAll(es).Ok?
    ensures EvalFactorsAll(es).Ok? <==> AllAcceptable(es)
    decreases es, 0
  {
    if |es| > 0 {
      FactorsAccept(es[0]);
      AllFactorsAccept(es[1..]);
    }
  }
}
