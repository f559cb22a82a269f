/** Reshaping the factors reshapes the product. */
module LoraReshape {
  import opened Results
  import opened Shapes
  import opened Tensors
  import opened LoraTensors

  /** Row `q` of B and column `j` of A, read straight from the flat data. */
  function FlatRow(b: Tensor, q: nat, rank: nat): (r: seq<real>)
    requires (q + 1) * rank <= |b.data|
    ensures |r| == rank
  {
    b.data[q * rank..(q + 1) * rank]
  }

  function FlatCol(a: Tensor, j: nat, rank: nat, cols: nat): (r: seq<real>)
    requires |a.data| == rank * cols && j < cols
    ensures |r| == rank
  {
    seq(rank, k requires 0 <= k < rank => Horner(k, rank, j, cols); a.data[k * cols + j])
  }

  lemma {:induction false} OffsetInUnits(s: seq<nat>, c: seq<nat>)
    requires AllOnes(s) && InBounds(s, c)
    ensures Offset(s, c) == 0
  {
    if s != [] {
      OffsetInUnits(s[..|s| - 1], c[..|s| - 1]);
      assert s[|s| - 1] == 1;
    }
  }

  lemma {:induction false} OffsetBelowUnits(s: seq<nat>, c: seq<nat>)
    requires |s| >= 2 && AllOnes(Lead(s)) && InBounds(s, c)
    ensures Offset(s, c) == c[|s| - 2] * s[|s| - 1] + c[|s| - 1]
  {
    var n := |s|;
    assert s[..n - 1][..n - 2] == Lead(s) && c[..n - 1][..n - 2] == c[..n - 2];
    OffsetInUnits(Lead(s), c[..n - 2]);
    assert Offset(s[..n - 1], c[..n - 1]) == Offset(Lead(s), c[..n - 2]) * s[n - 2] + c[n - 2];
  }

  lemma {:induction false} UnitLeadSize(t: Lora)
    requires UnitLead(t)
    ensures |t.a.data| == Rank(t) * Cols(t)
  {
    var n := |t.a.shape|;
    SizeOnes(Lead(t.a.shape));
    assert t.a.shape == Lead(t.a.shape) + [Rank(t)] + [Cols(t)];
    SizeSnoc(Lead(t.a.shape) + [Rank(t)], Cols(t));
    SizeSnoc(Lead(t.a.shape), Rank(t));
  }

  lemma {:induction false} UnitLeadAligned(t: Lora)
    requires UnitLead(t)
    ensures Aligned(t)
  {
  }

  /** Number of rows of B over all leading axes. */
  function RowCount(t: Lora): nat {
    Size(t.b.shape[..|t.b.shape| - 1])
  }

  lemma {:induction false} ProductSize(t: Lora)
    ensures Size(Shape(t)) == RowCount(t) * Cols(t)
    ensures |t.b.data| == RowCount(t) * Rank(t)
  {
    SizeSnoc(t.b.shape[..|t.b.shape| - 1], Cols(t));
  }

  lemma {:induction false} RowBound(q: nat, rows: nat, rank: nat)
    requires q < rows
    ensures (q + 1) * rank <= rows * rank
  {
  }

  /** With unit leading axes in A the product is a flat (rows x rank) by (rank x cols) one. */
  lemma {:induction false} FlatProduct(t: Lora, k: nat)
    requires UnitLead(t) && k < Size(Shape(t))
    ensures Aligned(t) && Cols(t) > 0 && k / Cols(t) < RowCount(t) && k % Cols(t) < Cols(t)
    ensures |t.a.data| == Rank(t) * Cols(t) && (k / Cols(t) + 1) * Rank(t) <= |t.b.data|
    ensures Materialize(t).data[k] ==
            Dot(FlatRow(t.b, k / Cols(t), Rank(t)), FlatCol(t.a, k % Cols(t), Rank(t), Cols(t)))
  {
    UnitLeadSize(t);
    UnitLeadAligned(t);
    ProductSize(t);
    Quotient(k, RowCount(t), Cols(t));
    RowBound(k / Cols(t), RowCount(t), Rank(t));
    var c := CoordsOf(Shape(t), k);
    OffsetOfCoords(Shape(t), k);
    MaterializeAt(t, c);
    FlatRowIs(t, k, c);
    FlatColIs(t, k, c);
  }

  lemma {:induction false} FlatRowIs(t: Lora, k: nat, c: seq<nat>)
    requires UnitLead(t) && k < Size(Shape(t)) && c == CoordsOf(Shape(t), k)
    requires Cols(t) > 0 && (k / Cols(t) + 1) * Rank(t) <= |t.b.data|
    ensures Row(t, c) == FlatRow(t.b, k / Cols(t), Rank(t))
  {
    var n := |t.b.shape|;
    var s := t.b.shape[..n - 1];
    ProductSize(t);
    Quotient(k, RowCount(t), Cols(t));
    assert Shape(t)[..n - 1] == s;
    OffsetOfCoords(s, k / Cols(t));
    forall i | 0 <= i < Rank(t) ensures Row(t, c)[i] == FlatRow(t.b, k / Cols(t), Rank(t))[i] {
      FlatRowElement(t, k / Cols(t), c, i);
    }
  }

  lemma {:induction false} FlatRowElement(t: Lora, q: nat, c: seq<nat>, i: nat)
    requires Aligned(t) && InBounds(Shape(t), c) && i < Rank(t) && (q + 1) * Rank(t) <= |t.b.data|
    requires InBounds(t.b.shape[..|c| - 1], c[..|c| - 1]) && Offset(t.b.shape[..|c| - 1], c[..|c| - 1]) == q
    ensures Row(t, c)[i] == FlatRow(t.b, q, Rank(t))[i]
  {
    FactorBounds(t, c, i);
    assert RowCoords(c, i)[..|c| - 1] == c[..|c| - 1];
  }

  lemma {:induction false} FlatColIs(t: Lora, k: nat, c: seq<nat>)
    requires UnitLead(t) && k < Size(Shape(t)) && c == CoordsOf(Shape(t), k)
    requires Cols(t) > 0 && |t.a.data| == Rank(t) * Cols(t)
    ensures Col(t, c) == FlatCol(t.a, k % Cols(t), Rank(t), Cols(t))
  {
    forall i | 0 <= i < Rank(t) ensures Col(t, c)[i] == FlatCol(t.a, k % Cols(t), Rank(t), Cols(t))[i] {
      FactorBounds(t, c, i);
      Horner(i, Rank(t), k % Cols(t), Cols(t));
      OffsetBelowUnits(t.a.shape, ColCoords(t.a.shape, c, i));
    }
  }

  /** Factors over the same flat data stand for the same flat product. */
  lemma {:induction false} SameFactorsSameProduct(t: Lora, u: Lora)
    requires UnitLead(t) && UnitLead(u)
    requires t.a.data == u.a.data && t.b.data == u.b.data && Rank(t) == Rank(u) && Cols(t) == Cols(u)
    requires Size(Shape(t)) == Size(Shape(u))
    ensures Aligned(t) && Aligned(u) && Materialize(t).data == Materialize(u).data
  {
    UnitLeadAligned(t);
    UnitLeadAligned(u);
    forall k | 0 <= k < Size(Shape(t)) ensures Materialize(t).data[k] == Materialize(u).data[k] {
      FlatProduct(t, k);
      FlatProduct(u, k);
    }
  }

  /** With rank zero the product is the zero tensor. */
  lemma {:induction false} RankZero(t: Lora)
    requires Aligned(t) && Rank(t) == 0
    ensures forall k :: 0 <= k < Size(Shape(t)) ==> Materialize(t).data[k] == 0.0
  {
    forall k | 0 <= k < Size(Shape(t)) ensures Materialize(t).data[k] == 0.0 {
      var c := CoordsOf(Shape(t), k);
      OffsetOfCoords(Shape(t), k);
      MaterializeAt(t, c);
    }
  }

  // ----- the reshape theorems

  /** What a successful reshape of the factors computed. */
  lemma {:induction false} ReshapedFactors(t: Lora, dims: seq<int>, u: Lora)
    requires ReshapeFactors(t, dims) == Ok(u)
    ensures UnitLead(u) && Rank(u) == Rank(t) && Cols(u) == Cols(t)
    ensures u.a.data == t.a.data && u.b.data == t.b.data
    ensures ExpandDims(dims, Size(Shape(t))).Ok?
    ensures |dims| >= 2 && IsShape(ExpandDims(dims, Size(Shape(t))).value)
    ensures Shape(u) == AsShape(ExpandDims(dims, Size(Shape(t))).value)
  {
    var full := ExpandDims(dims, Size(Shape(t))).value;
    var n := |full|;
    var shapeA := Ones(n - 2) + [Rank(t), Cols(t)];
    assert u.a.shape == AsShape(shapeA) && u.b.shape == AsShape(full[..n - 1] + [Rank(t)]);
    assert AsShape(shapeA) == shapeA;
    forall d | 0 <= d < n ensures full[d] >= 0 && Shape(u)[d] == full[d] {
      if d < n - 1 {
        assert (full[..n - 1] + [Rank(t)])[d] == full[d];
        assert u.b.shape[d] == full[d];
      }
    }
  }

  /** A dense reshape keeps the data, under the dimensions that the factored one expands to. */
  lemma {:induction false} DenseReshape(x: Tensor, dims: seq<int>, m: Tensor)
    requires Reshape(x, dims) == Ok(m)
    ensures ExpandDims(dims, Size(x.shape)).Ok? && IsShape(ExpandDims(dims, Size(x.shape)).value)
    ensures m.shape == AsShape(ExpandDims(dims, Size(x.shape)).value) && m.data == x.data
  {
  }

  lemma {:induction false} CancelFactor(x: nat, y: nat, n: nat)
    requires x * n == y * n && n > 0
    ensures x == y
  {
    SmallMultiple(x - y, n);
  }

  /** The size of A is the size of its leading axes times rank times cols. */
  lemma {:induction false} SizeOfA(t: Lora)
    ensures |t.a.data| == Size(Lead(t.a.shape)) * Rank(t) * Cols(t)
  {
    assert t.a.shape == Lead(t.a.shape) + [Rank(t)] + [Cols(t)];
    SizeSnoc(Lead(t.a.shape) + [Rank(t)], Cols(t));
    SizeSnoc(Lead(t.a.shape), Rank(t));
  }

  lemma {:induction false} UnitLeadBySize(t: Lora)
    requires Rank(t) > 0 && Cols(t) > 0
    ensures UnitLead(t) <==> |t.a.data| == Rank(t) * Cols(t)
  {
    SizeOfA(t);
    if UnitLead(t) {
      UnitLeadSize(t);
    } else if |t.a.data| == Rank(t) * Cols(t) {
      CancelFactor(Size(Lead(t.a.shape)) * Rank(t), Rank(t), Cols(t));
      CancelFactor(Size(Lead(t.a.shape)), 1, Rank(t));
      SizeOneIsOnes(Lead(t.a.shape));
      assert false;
    }
  }

  /** The same data under another shape, with only unit leading axes in the new A, stands for the same product. */
  lemma {:induction false} SameDataSameProduct(t: Lora, u: Lora)
    requires Aligned(t) && UnitLead(u) && Rank(u) == Rank(t) && Cols(u) == Cols(t)
    requires u.a.data == t.a.data && u.b.data == t.b.data && Size(Shape(t)) == Size(Shape(u))
    ensures Aligned(u) && Materialize(u).data == Materialize(t).data
  {
    UnitLeadAligned(u);
    ProductSize(u);
    if Cols(t) == 0 {
    } else if Rank(t) == 0 {
      RankZero(t);
      RankZero(u);
    } else {
      UnitLeadBySize(t);
      UnitLeadSize(u);
      SameFactorsSameProduct(t, u);
    }
  }

  /** Whenever both reshapes succeed, the product of the new factors is the reshaped product. */
  lemma {:induction false} ReshapeSound(t: Lora, dims: seq<int>, u: Lora, m: Tensor)
    requires Aligned(t) && ReshapeFactors(t, dims) == Ok(u) && Reshape(Materialize(t), dims) == Ok(m)
    ensures Aligned(u) && Materialize(u) == m
  {
    ReshapedFactors(t, dims, u);
    DenseReshape(Materialize(t), dims, m);
    SameDataSameProduct(t, u);
  }

  /** What the factored reshape accepts, the dense one accepts exactly when at most one dimension is inferred
      and, if none is, the sizes agree. */
  lemma {:induction false} ReshapeAgrees(t: Lora, dims: seq<int>, u: Lora)
    requires Aligned(t) && ReshapeFactors(t, dims) == Ok(u)
    ensures Reshape(Materialize(t), dims).Ok? <==>
            AtMostOneInferred(dims) && (-1 in dims || (IsShape(dims) && Size(AsShape(dims)) == Size(Shape(t))))
  {
    ReshapedFactors(t, dims, u);
    if -1 in dims && AtMostOneInferred(dims) {
      OneInferred(Materialize(t), dims);
    }
  }

  lemma {:induction false} OneInferred(x: Tensor, dims: seq<int>)
    requires -1 in dims && AtMostOneInferred(dims)
    requires ExpandDims(dims, Size(x.shape)).Ok? && IsShape(ExpandDims(dims, Size(x.shape)).value)
    ensures Reshape(x, dims).Ok?
  {
    var q := Size(x.shape) / KnownProduct(dims);
    var full := FillInferred(dims, q);
    InferredSize(dims, q);
    WholeQuotient(Size(x.shape), KnownProduct(dims));
    assert forall d :: 0 <= d < |dims| && dims[d] != -1 ==> full[d] == dims[d];
  }

  lemma {:induction false} WholeQuotient(n: nat, k: int)
    requires k != 0 && n % k == 0
    ensures k * (n / k) == n
  {
  }

  /** Filling in one inferred dimension multiplies the product of the others by it. */
  lemma {:induction false} InferredSize(dims: seq<int>, q: int)
    requires AtMostOneInferred(dims) && -1 in dims && IsShape(FillInferred(dims, q))
    ensures Size(AsShape(FillInferred(dims, q))) == KnownProduct(dims) * q
    decreases |dims|
  {
    var n := |dims| - 1;
    var full := FillInferred(dims, q);
    assert AsShape(full)[..n] == AsShape(full[..n]) && full[..n] == FillInferred(dims[..n], q);
    if dims[n] == -1 {
      assert forall d :: 0 <= d < n ==> dims[d] != -1 && full[d] == dims[d];
      NothingInferred(dims[..n], q);
    } else {
      InferredSize(dims[..n], q);
      TimesLast(KnownProduct(dims[..n]), q, dims[n]);
    }
  }

  lemma {:induction false} TimesLast(x: int, q: int, d: int)
    ensures x * q * d == x * d * q
  {
  }

  lemma {:induction false} NothingInferred(dims: seq<int>, q: int)
    requires -1 !in dims && IsShape(dims)
    ensures FillInferred(dims, q) == dims && Size(AsShape(dims)) == KnownProduct(dims)
    decreases |dims|
  {
    if dims != [] {
      var n := |dims| - 1;
      NothingInferred(dims[..n], q);
      assert AsShape(dims)[..n] == AsShape(dims[..n]);
    }
  }

  /** With a positive rank the sizes always agree, so only several `-1` make a difference. */
  lemma {:induction false} ReshapeAgreesWithRank(t: Lora, dims: seq<int>, u: Lora)
    requires Aligned(t) && ReshapeFactors(t, dims) == Ok(u) && Rank(t) > 0
    ensures Reshape(Materialize(t), dims).Ok? <==> AtMostOneInferred(dims)
  {
    ReshapeAgrees(t, dims, u);
    ReshapedFactors(t, dims, u);
    ProductSize(t);
    ProductSize(u);
    CancelFactor(RowCount(t), RowCount(u), Rank(t));
  }

  /** Exactly which dense reshapes the factors support: those that keep the last axis, if A is not batched or has no element,
      and, where neither rank nor columns see to it, keep the number of rows. */
  lemma {:induction false} ReshapeSupported(t: Lora, dims: seq<int>, m: Tensor)
    requires Aligned(t) && Reshape(Materialize(t), dims) == Ok(m)
    ensures ReshapeFactors(t, dims).Ok? <==>
            && |m.shape| >= 2 && m.shape[|m.shape| - 1] == Cols(t)
            && (UnitLead(t) || Rank(t) == 0 || Cols(t) == 0)
            && (RowsKept(t, m) || Rank(t) == 0)
    ensures |m.shape| >= 2 && m.shape[|m.shape| - 1] == Cols(t) > 0 ==> RowsKept(t, m)
  {
    DenseReshape(Materialize(t), dims, m);
    var full := ExpandDims(dims, Size(Shape(t))).value;
    if |dims| >= 2 && full[|full| - 1] == Cols(t) {
      FactorsReshaped(t, full, m.shape[..|m.shape| - 1]);
      SameRows(t, m);
    }
  }

  lemma {:induction false} FactorsReshaped(t: Lora, full: seq<int>, init: seq<nat>)
    requires |full| >= 2 && IsShape(full) && init == AsShape(full)[..|full| - 1]
    ensures ReshapeExact(t.a, Ones(|full| - 2) + [Rank(t), Cols(t)]).Ok? <==> UnitLead(t) || Rank(t) == 0 || Cols(t) == 0
    ensures ReshapeExact(t.b, full[..|full| - 1] + [Rank(t)]).Ok? <==> Size(init) == RowCount(t) || Rank(t) == 0
  {
    SupportedSizeA(t);
    SupportedSizeB(t, init);
    ReshapedSizeA(|full| - 2, Rank(t), Cols(t));
    ReshapedSizeB(t, full, init);
  }

  /** The other axes hold as many rows as those of the product. */
  predicate RowsKept(t: Lora, m: Tensor)
    requires |m.shape| > 0
  {
    Size(m.shape[..|m.shape| - 1]) == RowCount(t)
  }

  lemma {:induction false} SameRows(t: Lora, m: Tensor)
    requires |m.shape| > 0 && Size(m.shape) == Size(Shape(t)) && m.shape[|m.shape| - 1] == Cols(t)
    ensures Cols(t) > 0 ==> RowsKept(t, m)
  {
    var init := m.shape[..|m.shape| - 1];
    ProductSize(t);
    SizeSnoc(init, Cols(t));
    assert m.shape == init + [Cols(t)];
    if Cols(t) > 0 {
      CancelFactor(Size(init), RowCount(t), Cols(t));
    }
  }

  lemma {:induction false} SupportedSizeA(t: Lora)
    ensures |t.a.data| == Rank(t) * Cols(t) <==> UnitLead(t) || Rank(t) == 0 || Cols(t) == 0
  {
    if Rank(t) > 0 && Cols(t) > 0 {
      UnitLeadBySize(t);
    } else {
      SizeOfA(t);
    }
  }

  lemma {:induction false} SupportedSizeB(t: Lora, init: seq<nat>)
    ensures Size(init) * Rank(t) == |t.b.data| <==> Size(init) == RowCount(t) || Rank(t) == 0
  {
    ProductSize(t);
    if Rank(t) > 0 && Size(init) * Rank(t) == RowCount(t) * Rank(t) {
      CancelFactor(Size(init), RowCount(t), Rank(t));
    }
  }

  lemma {:induction false} ReshapedSizeA(k: nat, rank: nat, cols: nat)
    ensures IsShape(Ones(k) + [rank, cols]) && Size(AsShape(Ones(k) + [rank, cols])) == rank * cols
  {
    assert AsShape(Ones(k) + [rank, cols]) == Ones(k) + [rank] + [cols];
    SizeSnoc(Ones(k) + [rank], cols);
    SizeSnoc(Ones(k), rank);
    SizeOnes(Ones(k));
  }

  lemma {:induction false} ReshapedSizeB(t: Lora, full: seq<int>, init: seq<nat>)
    requires |full| >= 2 && IsShape(full) && init == AsShape(full)[..|full| - 1]
    ensures IsShape(full[..|full| - 1] + [Rank(t)])
    ensures Size(AsShape(full[..|full| - 1] + [Rank(t)])) == Size(init) * Rank(t)
  {
    SizeSnoc(init, Rank(t));
    assert AsShape(full[..|full| - 1] + [Rank(t)]) == init + [Rank(t)];
  }
}
