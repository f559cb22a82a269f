/** What a factored tensor stands for, and what transposing it does to the factors. */
module LoraProducts {
  import opened Results
  import opened Shapes
  import opened Tensors
  import opened TensorLaws
  import opened LoraTensors
  import opened LoraPermute

  // ----- the product

  /** Row `row` of B and column `col` of the matrix of A at `lead`. */
  predicate Meets(t: Lora, row: seq<nat>, lead: seq<nat>, col: nat) {
    && |row| == |t.b.shape| - 1 && InBounds(t.b.shape[..|row|], row)
    && |lead| == |t.a.shape| - 2 && InBounds(t.a.shape[..|lead|], lead) && col < Cols(t)
  }

  lemma {:induction false} MeetsBounds(t: Lora, row: seq<nat>, lead: seq<nat>, col: nat, k: nat)
    requires Meets(t, row, lead, col) && k < Rank(t)
    ensures InBounds(t.b.shape, row + [k]) && InBounds(t.a.shape, lead + [k, col])
  {
    forall d | 0 <= d < |t.b.shape| ensures (row + [k])[d] < t.b.shape[d] {
      if d < |row| { assert row[d] < t.b.shape[..|row|][d]; }
    }
    forall d | 0 <= d < |t.a.shape| ensures (lead + [k, col])[d] < t.a.shape[d] {
      if d < |lead| { assert lead[d] < t.a.shape[..|lead|][d]; }
    }
  }

  /** `x` and `y` list what is multiplied: row `row` of B and column `col` of the matrix of A at `lead`. */
  predicate AreFactors(t: Lora, row: seq<nat>, lead: seq<nat>, col: nat, x: seq<real>, y: seq<real>)
    requires Meets(t, row, lead, col)
  {
    |x| == |y| == Rank(t) && forall k :: 0 <= k < Rank(t) ==> AreFactorsAt(t, row, lead, col, x, y, k)
  }

  predicate AreFactorsAt(t: Lora, row: seq<nat>, lead: seq<nat>, col: nat, x: seq<real>, y: seq<real>, k: nat)
    requires Meets(t, row, lead, col) && k < |x| == |y| == Rank(t)
  {
    MeetsBounds(t, row, lead, col, k);
    x[k] == At(t.b, row + [k]) && y[k] == At(t.a, lead + [k, col])
  }

  /** The sum of the first `n` products. */
  function SumOfProducts(x: seq<real>, y: seq<real>, n: nat): real
    requires n <= |x| == |y|
    decreases n
  {
    if n == 0 then 0.0 else SumOfProducts(x, y, n - 1) + x[n - 1] * y[n - 1]
  }

  lemma {:induction false} DotIsSum(x: seq<real>, y: seq<real>, n: nat)
    requires n <= |x| == |y|
    ensures Dot(x[..n], y[..n]) == SumOfProducts(x, y, n)
    decreases n
  {
    if n > 0 {
      DotIsSum(x, y, n - 1);
      assert x[..n][..n - 1] == x[..n - 1] && y[..n][..n - 1] == y[..n - 1];
    }
  }

  /** The matrix of A for the leading coordinates `c`: an axis of length one is broadcast. */
  predicate LeadsTo(t: Lora, c: seq<nat>, lead: seq<nat>) {
    && |lead| == |t.a.shape| - 2 <= |c|
    && forall d :: 0 <= d < |lead| ==> lead[d] == if t.a.shape[d] == 1 then 0 else c[d]
  }

  lemma {:induction false} LeadMeets(t: Lora, c: seq<nat>, lead: seq<nat>)
    requires Aligned(t) && InBounds(Shape(t), c) && LeadsTo(t, c, lead)
    ensures Meets(t, c[..|c| - 1], lead, c[|c| - 1]) && lead == BroadcastCoords(Lead(t.a.shape), c)
  {
    var n := |t.a.shape|;
    forall d | 0 <= d < n - 2 ensures lead[d] < t.a.shape[d] {
      assert Lead(t.a.shape)[d] == 1 || Lead(t.a.shape)[d] == Lead(t.b.shape)[d];
      assert c[d] < Shape(t)[d];
    }
    var row, rows := c[..n - 1], t.b.shape[..n - 1];
    forall d | 0 <= d < n - 1 ensures row[d] < rows[d] {
      assert c[d] < Shape(t)[d];
    }
  }

  lemma {:induction false} RowAndCol(t: Lora, c: seq<nat>, lead: seq<nat>, row: seq<nat>, col: nat, k: nat)
    requires Aligned(t) && InBounds(Shape(t), c) && LeadsTo(t, c, lead) && k < Rank(t)
    requires row == c[..|c| - 1] && col == c[|c| - 1]
    requires InBounds(t.b.shape, row + [k]) && InBounds(t.a.shape, lead + [k, col])
    ensures Row(t, c)[k] == At(t.b, row + [k]) && Col(t, c)[k] == At(t.a, lead + [k, col])
  {
    LeadMeets(t, c, lead);
    FactorBounds(t, c, k);
  }

  /** Each element is the sum over the rank of B times A, with the leading axes of A broadcast. */
  lemma {:induction false} ProductMeans(t: Lora, c: seq<nat>, lead: seq<nat>, x: seq<real>, y: seq<real>)
    requires Aligned(t) && InBounds(Shape(t), c) && LeadsTo(t, c, lead)
    ensures Meets(t, c[..|c| - 1], lead, c[|c| - 1])
    ensures AreFactors(t, c[..|c| - 1], lead, c[|c| - 1], x, y) ==> At(Materialize(t), c) == SumOfProducts(x, y, Rank(t))
  {
    var row, col := c[..|c| - 1], c[|c| - 1];
    LeadMeets(t, c, lead);
    if AreFactors(t, row, lead, col, x, y) {
      forall k | 0 <= k < Rank(t) ensures Row(t, c)[k] == x[k] && Col(t, c)[k] == y[k] {
        assert AreFactorsAt(t, row, lead, col, x, y, k);
        MeetsBounds(t, row, lead, col, k);
        RowAndCol(t, c, lead, row, col, k);
      }
      assert Row(t, c) == x == x[..Rank(t)] && Col(t, c) == y == y[..Rank(t)];
      DotIsSum(x, y, Rank(t));
      MaterializeAt(t, c);
    }
  }

  /** The product of matrices: as many rows as B, as many columns as A. */
  lemma {:induction false} MatrixProduct(t: Lora, i: nat, j: nat, x: seq<real>, y: seq<real>)
    requires |t.a.shape| == 2 && i < t.b.shape[0] && j < t.a.shape[1]
    requires Meets(t, [i], [], j) && AreFactors(t, [i], [], j, x, y)
    ensures Aligned(t) && Shape(t) == [t.b.shape[0], t.a.shape[1]] && InBounds(Shape(t), [i, j])
    ensures At(Materialize(t), [i, j]) == SumOfProducts(x, y, t.a.shape[0])
  {
    assert [i, j][..1] == [i];
    ProductMeans(t, [i, j], [], x, y);
  }

  // ----- transposing

  /** Transposing a factored matrix transposes and exchanges the factors. */
  lemma {:induction false} FactorsTransposed(t: Lora, i: int, j: int)
    requires |t.a.shape| == 2 && ((MeansAxis(i, 2, 0) && MeansAxis(j, 2, 1)) || (MeansAxis(i, 2, 1) && MeansAxis(j, 2, 0)))
    ensures SwapFactorAxes(t, i, j).Ok?
    ensures IsExchange(SwapFactorAxes(t, i, j).value.a, t.b, 0, 1) && IsExchange(SwapFactorAxes(t, i, j).value.b, t.a, 0, 1)
  {
    AxesSwapped(2, i, j, if MeansAxis(i, 2, 0) then 0 else 1, if MeansAxis(i, 2, 0) then 1 else 0);
    assert ExchangedAxes(2, 0, 1) == ExchangedAxes(2, 1, 0) == SWAP;
    PermuteExchanges(t.b, 0, 1);
    PermuteExchanges(t.a, 0, 1);
    MatrixAxesSwapped(t, SWAP);
    SwappedParts(t, SWAP, SwapFactorAxes(t, i, j).value);
  }

  /** Which axes of the product the factors can exchange: those of a matrix, and otherwise none but the last with itself or two before
      it, if A is not batched. */
  lemma {:induction false} FactorsExchange(t: Lora, i: int, j: int, a: nat, b: nat)
    requires Aligned(t) && MeansAxis(i, |t.a.shape|, a) && MeansAxis(j, |t.a.shape|, b)
    ensures SwapFactorAxes(t, i, j).Ok? <==>
            |t.a.shape| == 2 || (UnitLead(t) && (a == b || (a < |t.a.shape| - 1 && b < |t.a.shape| - 1)))
    ensures SwapFactorAxes(t, i, j).Ok? ==>
              && Aligned(SwapFactorAxes(t, i, j).value)
              && IsExchange(Materialize(SwapFactorAxes(t, i, j).value), Materialize(t), a, b)
  {
    var m := Materialize(t);
    SwapAxesExchanges(m, i, j, a, b);
    AxesSwapped(|t.a.shape|, i, j, a, b);
    ExchangePermutes(|t.a.shape|, a, b);
    PermuteSupported(t, ExchangedAxes(|t.a.shape|, a, b), SwapAxes(m, i, j).value);
    if SwapFactorAxes(t, i, j).Ok? {
      SwapAxesSound(t, i, j, SwapFactorAxes(t, i, j).value, SwapAxes(m, i, j).value);
    }
  }
}
