/** Permuting the factors permutes the product. */
module LoraPermute {
  import opened Results
  import opened Shapes
  import opened Tensors
  import opened LoraTensors
  import opened LoraReshape

  /** Counting an axis from the end and wrapping it back names the same axis. */
  lemma {:induction false} SameAxes(dims: seq<int>, n: nat)
    requires IsPermutation(WrapAxes(dims, n)) && |dims| == n
    ensures WrapAxes(FromEnd(dims, n), n) == WrapAxes(dims, n)
  {
    forall d | 0 <= d < n ensures WrapAxes(FromEnd(dims, n), n)[d] == WrapAxes(dims, n)[d] {
      assert 0 <= WrapAxes(dims, n)[d] < n;
    }
  }

  // ----- the last axis stays

  lemma {:induction false} SourceKeepsLast(p: seq<int>, c: seq<nat>, k: nat)
    requires IsPermutation(p) && |p| == |c| > 0 && p[|p| - 1] == |p| - 1
    ensures SourceCoords(p, RowCoords(c, k)) == RowCoords(SourceCoords(p, c), k)
    ensures SourceCoords(p, c)[|c| - 1] == c[|c| - 1]
  {
    var n := |c|;
    var x := SourceCoords(p, RowCoords(c, k));
    var y := RowCoords(SourceCoords(p, c), k);
    forall a | 0 <= a < n ensures x[a] == y[a] {
      var d := Place(p, a);
      assert x[p[d]] == RowCoords(c, k)[d] && SourceCoords(p, c)[p[d]] == c[d];
    }
  }

  lemma {:induction false} PermutedRowsShape(t: Lora, p: seq<int>)
    requires IsPermutation(p) && |p| == |t.b.shape| && p[|p| - 1] == |p| - 1
    ensures PermutedShape(t.b.shape, p)[..|p| - 1] + [Cols(t)] == PermutedShape(Shape(t), p)
  {
    var n := |p|;
    forall d | 0 <= d < n
      ensures (PermutedShape(t.b.shape, p)[..n - 1] + [Cols(t)])[d] == PermutedShape(Shape(t), p)[d]
    {
      if d < n - 1 {
        assert p[d] != p[n - 1];
        assert Shape(t)[p[d]] == t.b.shape[p[d]];
      }
    }
  }

  lemma {:induction false} PermuteRowsOnly(t: Lora, p: seq<int>, u: Lora)
    requires UnitLead(t) && IsPermutation(p) && |p| == |t.b.shape| && p[|p| - 1] == |p| - 1
    requires u.a == t.a && u.b == PermuteAxes(t.b, p)
    ensures Aligned(t) && Aligned(u) && Materialize(u) == PermuteAxes(Materialize(t), p)
  {
    UnitLeadAligned(t);
    UnitLeadAligned(u);
    PermutedShapes(t, p, u);
    forall c | InBounds(Shape(u), c) ensures ElementPermuted(t, p, u, c) {
      PermutedElement(t, p, u, c);
    }
    PermutedAll(t, p, u);
  }

  lemma {:induction false} PermutedShapes(t: Lora, p: seq<int>, u: Lora)
    requires IsPermutation(p) && |p| == |t.b.shape| && p[|p| - 1] == |p| - 1
    requires u.a == t.a && u.b == PermuteAxes(t.b, p)
    ensures Shape(u) == PermutedShape(Shape(t), p)
  {
    PermutedRowsShape(t, p);
  }

  predicate ElementPermuted(t: Lora, p: seq<int>, u: Lora, c: seq<nat>)
    requires Aligned(t) && Aligned(u) && IsPermutation(p) && |p| == |t.b.shape|
  {
    && InBounds(Shape(u), c) && InBounds(PermuteAxes(Materialize(t), p).shape, c)
    && At(Materialize(u), c) == At(PermuteAxes(Materialize(t), p), c)
  }

  lemma {:induction false} PermutedAll(t: Lora, p: seq<int>, u: Lora)
    requires Aligned(t) && Aligned(u) && IsPermutation(p) && |p| == |t.b.shape|
    requires Shape(u) == PermutedShape(Shape(t), p)
    requires forall c :: InBounds(Shape(u), c) ==> ElementPermuted(t, p, u, c)
    ensures Materialize(u) == PermuteAxes(Materialize(t), p)
  {
    var x, y := Materialize(u), PermuteAxes(Materialize(t), p);
    forall c | InBounds(x.shape, c) ensures At(x, c) == At(y, c) {
      assert ElementPermuted(t, p, u, c);
    }
    Extensional(x, y);
  }

  lemma {:induction false} PermutedElement(t: Lora, p: seq<int>, u: Lora, c: seq<nat>)
    requires UnitLead(t) && IsPermutation(p) && |p| == |t.b.shape| && p[|p| - 1] == |p| - 1
    requires u.a == t.a && u.b == PermuteAxes(t.b, p) && Aligned(t) && Aligned(u)
    requires InBounds(Shape(u), c) && Shape(u) == PermutedShape(Shape(t), p)
    ensures ElementPermuted(t, p, u, c)
  {
    PermuteAt(Materialize(t), p, c);
    PermutedRow(t, p, u, c);
    PermutedCol(t, p, u, c);
    SameDot(u, c, t, SourceCoords(p, c));
  }

  lemma {:induction false} PermutedRow(t: Lora, p: seq<int>, u: Lora, c: seq<nat>)
    requires UnitLead(t) && IsPermutation(p) && |p| == |t.b.shape| && p[|p| - 1] == |p| - 1
    requires u.a == t.a && u.b == PermuteAxes(t.b, p)
    requires Aligned(t) && Aligned(u) && InBounds(Shape(u), c) && InBounds(Shape(t), SourceCoords(p, c))
    ensures Row(u, c) == Row(t, SourceCoords(p, c))
  {
    var d := SourceCoords(p, c);
    KeptRank(t, p, u);
    forall k | 0 <= k < Rank(t) ensures Row(u, c)[k] == Row(t, d)[k] {
      PermutedRowAt(t, p, u, c, d, k);
    }
  }

  lemma {:induction false} KeptRank(t: Lora, p: seq<int>, u: Lora)
    requires IsPermutation(p) && |p| == |t.b.shape| && p[|p| - 1] == |p| - 1 && u.b == PermuteAxes(t.b, p)
    ensures Rank(u) == Rank(t)
  {
    PermutedLength(t.b.shape, p, |p| - 1);
  }

  lemma {:induction false} PermutedLength(s: seq<nat>, p: seq<int>, d: nat)
    requires IsPermutation(p) && |p| == |s| && d < |p| && p[d] == d
    ensures PermutedShape(s, p)[d] == s[d]
  {
  }

  lemma {:induction false} PermutedRowAt(t: Lora, p: seq<int>, u: Lora, c: seq<nat>, d: seq<nat>, k: nat)
    requires IsPermutation(p) && |p| == |t.b.shape| == |c| && p[|p| - 1] == |p| - 1 && u.b == PermuteAxes(t.b, p)
    requires Aligned(t) && Aligned(u) && InBounds(Shape(u), c) && InBounds(Shape(t), d) && d == SourceCoords(p, c)
    requires k < Rank(t) == Rank(u)
    ensures Row(u, c)[k] == Row(t, d)[k]
  {
    FactorBounds(u, c, k);
    FactorBounds(t, d, k);
    PermutedRowElement(t.b, p, c, k);
  }

  lemma {:induction false} PermutedRowElement(x: Tensor, p: seq<int>, c: seq<nat>, k: nat)
    requires IsPermutation(p) && |p| == |x.shape| == |c| > 0 && p[|p| - 1] == |p| - 1
    requires InBounds(PermuteAxes(x, p).shape, RowCoords(c, k)) && InBounds(x.shape, RowCoords(SourceCoords(p, c), k))
    ensures At(PermuteAxes(x, p), RowCoords(c, k)) == At(x, RowCoords(SourceCoords(p, c), k))
  {
    SourceKeepsLast(p, c, k);
    PermuteAt(x, p, RowCoords(c, k));
  }

  lemma {:induction false} PermutedCol(t: Lora, p: seq<int>, u: Lora, c: seq<nat>)
    requires UnitLead(t) && IsPermutation(p) && |p| == |t.b.shape| && p[|p| - 1] == |p| - 1
    requires u.a == t.a && u.b == PermuteAxes(t.b, p)
    requires Aligned(t) && Aligned(u) && InBounds(Shape(u), c) && InBounds(Shape(t), SourceCoords(p, c))
    ensures Col(u, c) == Col(t, SourceCoords(p, c))
  {
    SourceKeepsLast(p, c, 0);
    SameLastSameCol(t, u, c, SourceCoords(p, c));
  }

  lemma {:induction false} SameLastSameCol(t: Lora, u: Lora, c: seq<nat>, d: seq<nat>)
    requires UnitLead(t) && u.a == t.a && Aligned(t) && Aligned(u) && InBounds(Shape(u), c) && InBounds(Shape(t), d)
    requires c[|c| - 1] == d[|d| - 1]
    ensures Col(u, c) == Col(t, d)
  {
    forall k | 0 <= k < Rank(t) ensures Col(u, c)[k] == Col(t, d)[k] {
      UnitColCoords(t.a.shape, c, d, k);
    }
  }

  /** Under unit leading axes only the last coordinate selects the column of A. */
  lemma {:induction false} UnitColCoords(sa: seq<nat>, c: seq<nat>, d: seq<nat>, k: nat)
    requires |c| == |d| == |sa| >= 2 && AllOnes(Lead(sa)) && c[|c| - 1] == d[|d| - 1]
    ensures ColCoords(sa, c, k) == ColCoords(sa, d, k)
  {
  }

  // ----- the two axes of a matrix change places

  const SWAP: seq<int> := [1, 0]

  lemma {:induction false} SwapSource(c: seq<nat>)
    requires |c| == 2
    ensures IsPermutation(SWAP) && SourceCoords(SWAP, c) == [c[1], c[0]]
  {
    var r := SourceCoords(SWAP, c);
    assert r[SWAP[0]] == c[0] && r[SWAP[1]] == c[1];
  }

  lemma {:induction false} SwapFactors(t: Lora, u: Lora)
    requires |t.a.shape| == 2 && IsPermutation(SWAP)
    requires u.a == PermuteAxes(t.b, SWAP) && u.b == PermuteAxes(t.a, SWAP)
    ensures Aligned(t) && Aligned(u) && Materialize(u) == PermuteAxes(Materialize(t), SWAP)
  {
    var m := PermuteAxes(Materialize(t), SWAP);
    assert Shape(u) == m.shape;
    forall c | InBounds(Shape(u), c) ensures At(Materialize(u), c) == At(m, c) {
      PermuteAt(Materialize(t), SWAP, c);
      SwapSource(c);
      var d := [c[1], c[0]];
      MaterializeAt(u, c);
      MaterializeAt(t, d);
      SwappedRow(t, u, c, d);
      SwappedCol(t, u, c, d);
      DotCommutes(Row(t, d), Col(t, d));
    }
    Extensional(Materialize(u), m);
  }

  lemma {:induction false} SwappedRow(t: Lora, u: Lora, c: seq<nat>, d: seq<nat>)
    requires |t.a.shape| == 2 && IsPermutation(SWAP)
    requires u.a == PermuteAxes(t.b, SWAP) && u.b == PermuteAxes(t.a, SWAP)
    requires Aligned(t) && Aligned(u) && InBounds(Shape(u), c) && InBounds(Shape(t), d) && d == [c[1], c[0]]
    ensures Row(u, c) == Col(t, d)
  {
    forall k | 0 <= k < Rank(t) ensures Row(u, c)[k] == Col(t, d)[k] {
      MatrixElements(u, c, k);
      MatrixElements(t, d, k);
      SwappedElement(t.a, c[0], k);
    }
  }

  lemma {:induction false} SwappedCol(t: Lora, u: Lora, c: seq<nat>, d: seq<nat>)
    requires |t.a.shape| == 2 && IsPermutation(SWAP)
    requires u.a == PermuteAxes(t.b, SWAP) && u.b == PermuteAxes(t.a, SWAP)
    requires Aligned(t) && Aligned(u) && InBounds(Shape(u), c) && InBounds(Shape(t), d) && d == [c[1], c[0]]
    ensures Col(u, c) == Row(t, d)
  {
    forall k | 0 <= k < Rank(t) ensures Col(u, c)[k] == Row(t, d)[k] {
      MatrixElements(u, c, k);
      MatrixElements(t, d, k);
      SwappedElement(t.b, k, c[1]);
    }
  }

  lemma {:induction false} MatrixElements(t: Lora, c: seq<nat>, k: nat)
    requires |t.a.shape| == 2 && Aligned(t) && InBounds(Shape(t), c) && k < Rank(t)
    ensures InBounds(t.b.shape, [c[0], k]) && Row(t, c)[k] == At(t.b, [c[0], k])
    ensures InBounds(t.a.shape, [k, c[1]]) && Col(t, c)[k] == At(t.a, [k, c[1]])
  {
    FactorBounds(t, c, k);
    MatrixColCoords(t.a.shape, c, k);
    assert RowCoords(c, k) == [c[0], k];
  }

  lemma {:induction false} SwappedElement(x: Tensor, i: nat, j: nat)
    requires IsPermutation(SWAP) && |x.shape| == 2 && InBounds(PermuteAxes(x, SWAP).shape, [i, j])
    ensures InBounds(x.shape, [j, i]) && At(PermuteAxes(x, SWAP), [i, j]) == At(x, [j, i])
  {
    PermuteAt(x, SWAP, [i, j]);
    SwapSource([i, j]);
  }

  lemma {:induction false} MatrixColCoords(sa: seq<nat>, c: seq<nat>, k: nat)
    requires |c| == |sa| == 2
    ensures ColCoords(sa, c, k) == [k, c[1]]
  {
  }

  // ----- the permute theorems

  lemma {:induction false} KeptLastParts(t: Lora, dims: seq<int>, u: Lora)
    requires PermuteFactors(t, dims) == Ok(u) && |dims| == |t.a.shape| && IsPermutation(WrapAxes(dims, |dims|))
    requires FromEnd(dims, |dims|)[|dims| - 1] == -1
    ensures var p := WrapAxes(dims, |dims|);
            UnitLead(t) && p[|p| - 1] == |p| - 1 && u.a == t.a && u.b == PermuteAxes(t.b, p)
  {
    KeptLastFactors(t, dims, u);
    SameAxes(dims, |dims|);
    var n := |dims|;
    assert WrapAxes(FromEnd(dims, n), n)[n - 1] == n - 1;
  }

  lemma {:induction false} KeptLastFactors(t: Lora, dims: seq<int>, u: Lora)
    requires PermuteFactors(t, dims) == Ok(u) && |dims| == |t.a.shape| && FromEnd(dims, |dims|)[|dims| - 1] == -1
    ensures UnitLead(t) && u.a == t.a && Permute(t.b, FromEnd(dims, |dims|)) == Ok(u.b)
  {
  }

  lemma {:induction false} SwappedParts(t: Lora, dims: seq<int>, u: Lora)
    requires PermuteFactors(t, dims) == Ok(u) && |dims| == |t.a.shape| && IsPermutation(WrapAxes(dims, |dims|))
    requires FromEnd(dims, |dims|)[|dims| - 1] != -1
    ensures |t.a.shape| == 2 && WrapAxes(dims, 2) == SWAP && IsPermutation(SWAP)
    ensures u.a == PermuteAxes(t.b, SWAP) && u.b == PermuteAxes(t.a, SWAP)
  {
    var p := WrapAxes(dims, 2);
    SameAxes(dims, 2);
    assert p[1] == 0 && p[0] == 1;
    assert p == SWAP;
  }

  lemma {:induction false} DensePermute(x: Tensor, dims: seq<int>, m: Tensor)
    requires Permute(x, dims) == Ok(m)
    ensures |dims| == |x.shape| && IsPermutation(WrapAxes(dims, |dims|)) && m == PermuteAxes(x, WrapAxes(dims, |dims|))
  {
  }

  /** Whenever both permutations succeed, the product of the new factors is the permuted product. */
  lemma {:induction false} PermuteSound(t: Lora, dims: seq<int>, u: Lora, m: Tensor)
    requires Aligned(t) && PermuteFactors(t, dims) == Ok(u) && Permute(Materialize(t), dims) == Ok(m)
    ensures Aligned(u) && Materialize(u) == m
  {
    DensePermute(Materialize(t), dims, m);
    if FromEnd(dims, |dims|)[|dims| - 1] == -1 {
      KeptLastParts(t, dims, u);
      PermuteRowsOnly(t, WrapAxes(dims, |dims|), u);
    } else {
      SwappedParts(t, dims, u);
      SwapFactors(t, u);
    }
  }

  /** Exactly which dense permutations the factors support. */
  lemma {:induction false} PermuteSupported(t: Lora, dims: seq<int>, m: Tensor)
    requires Aligned(t) && Permute(Materialize(t), dims) == Ok(m)
    ensures PermuteFactors(t, dims).Ok? <==>
            |t.a.shape| == 2 || (WrapAxes(dims, |dims|)[|dims| - 1] == |dims| - 1 && UnitLead(t))
  {
    DensePermute(Materialize(t), dims, m);
    var n := |dims|;
    if WrapAxes(dims, n)[n - 1] == n - 1 {
      LastAxisKept(t, dims);
      MatrixLead(t);
    } else if n == 2 {
      MatrixAxesSwapped(t, dims);
    } else {
      OtherAxesRefused(t, dims);
    }
  }

  lemma {:induction false} MatrixLead(t: Lora)
    ensures |t.a.shape| == 2 ==> UnitLead(t)
  {
  }

  lemma {:induction false} OtherAxesRefused(t: Lora, dims: seq<int>)
    requires |dims| == |t.a.shape| != 2 && WrapAxes(dims, |dims|)[|dims| - 1] != |dims| - 1
    ensures PermuteFactors(t, dims).Err?
  {
  }

  lemma {:induction false} LastAxisKept(t: Lora, dims: seq<int>)
    requires |dims| == |t.a.shape| && IsPermutation(WrapAxes(dims, |dims|))
    requires WrapAxes(dims, |dims|)[|dims| - 1] == |dims| - 1
    ensures PermuteFactors(t, dims).Ok? <==> UnitLead(t)
  {
    var p := WrapAxes(dims, |dims|);
    SameAxes(dims, |dims|);
    assert PermuteAxes(t.b, p).shape[|p| - 1] == t.b.shape[|p| - 1];
  }

  lemma {:induction false} MatrixAxesSwapped(t: Lora, dims: seq<int>)
    requires |dims| == |t.a.shape| == 2 && IsPermutation(WrapAxes(dims, 2)) && WrapAxes(dims, 2)[1] != 1
    ensures PermuteFactors(t, dims).Ok?
  {
    AxesAreSwapped(dims);
    SwappedCreate(t);
    assert Permute(t.b, [-1, -2]) == Ok(PermuteAxes(t.b, SWAP)) && Permute(t.a, [-1, -2]) == Ok(PermuteAxes(t.a, SWAP));
  }

  lemma {:induction false} AxesAreSwapped(dims: seq<int>)
    requires |dims| == 2 && IsPermutation(WrapAxes(dims, 2)) && WrapAxes(dims, 2)[1] != 1
    ensures FromEnd(dims, 2) == [-1, -2] && WrapAxes([-1, -2], 2) == SWAP && IsPermutation(SWAP)
  {
    var p := WrapAxes(dims, 2);
    SameAxes(dims, 2);
    assert p[0] != p[1] && 0 <= p[0] < 2 && 0 <= p[1] < 2;
  }

  lemma {:induction false} SwappedCreate(t: Lora)
    requires |t.a.shape| == 2 && IsPermutation(SWAP)
    ensures Create(PermuteAxes(t.b, SWAP), PermuteAxes(t.a, SWAP)).Ok?
  {
    assert PermuteAxes(t.b, SWAP).shape[0] == t.b.shape[1];
    assert PermuteAxes(t.a, SWAP).shape[1] == t.a.shape[0];
  }

  /** Swapping axes, whenever both swaps succeed. */
  lemma {:induction false} SwapAxesSound(t: Lora, dim0: int, dim1: int, u: Lora, m: Tensor)
    requires Aligned(t) && SwapFactorAxes(t, dim0, dim1) == Ok(u)
    requires SwapAxes(Materialize(t), dim0, dim1) == Ok(m)
    ensures Aligned(u) && Materialize(u) == m
  {
    var p := SwappedAxes(|t.a.shape|, dim0, dim1).value;
    PermuteSound(t, p, u, m);
  }
}
