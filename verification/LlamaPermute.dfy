/** The head permutation of attention weights, on dense and on factored tensors. */
module LlamaPermute {
  import opened Results
  import opened Shapes
  import opened Tensors
  import opened LoraTensors
  import opened LoraReshape
  import opened LoraPermute

  function Heads(nHead: nat, nHeadKv: Option<nat>): nat {
    if nHeadKv.Some? && nHead != nHeadKv.value then nHeadKv.value else nHead
  }

  /** The number of heads of the rows: that of keys and values where it is given, and otherwise that of queries. */
  predicate HeadCount(nHead: nat, nHeadKv: Option<nat>, h: nat) {
    match nHeadKv
    case Some(kv) => h == kv
    case None => h == nHead
  }

  function SplitRows(s: seq<nat>, h: nat): seq<int>
    requires |s| > 0 && h > 0
  {
    [h, 2, s[0] / h / 2] + s[1..]
  }

  function PermuteWeights(w: Tensor, nHead: nat, nHeadKv: Option<nat>): Result<Tensor> {
    var h := Heads(nHead, nHeadKv);
    if w.shape == [] then Err("tuple index out of range")
    else if h == 0 then Err("integer division by zero")
    else
      var x :- Reshape(w, SplitRows(w.shape, h));
      var y :- SwapAxes(x, 1, 2);
      Reshape(y, w.shape)
  }

  function PermuteLora(t: Lora, nHead: nat, nHeadKv: Option<nat>): Result<Lora> {
    var h := Heads(nHead, nHeadKv);
    if h == 0 then Err("integer division by zero")
    else
      var x :- ReshapeFactors(t, SplitRows(Shape(t), h));
      var y :- SwapFactorAxes(x, 1, 2);
      ReshapeFactors(y, Shape(t))
  }

  /** Whenever both succeed, permuting the factors permutes the product. */
  lemma {:induction false} PermuteLoraSound(t: Lora, nHead: nat, nHeadKv: Option<nat>, u: Lora, m: Tensor)
    requires Aligned(t) && PermuteLora(t, nHead, nHeadKv) == Ok(u)
    requires PermuteWeights(Materialize(t), nHead, nHeadKv) == Ok(m)
    ensures Aligned(u) && Materialize(u) == m
  {
    var h := Heads(nHead, nHeadKv);
    var dims := SplitRows(Shape(t), h);
    var x := ReshapeFactors(t, dims).value;
    var dx := Reshape(Materialize(t), dims).value;
    ReshapeSound(t, dims, x, dx);
    var y := SwapFactorAxes(x, 1, 2).value;
    SwapAxesSound(x, 1, 2, y, SwapAxes(dx, 1, 2).value);
    ReshapeSound(y, Shape(t), u, m);
  }

  // ----- closed form

  /** The rows split into `h` heads of two halves. */
  predicate EvenHeads(rows: nat, h: nat) {
    h > 0 && rows % (2 * h) == 0
  }

  /** Row `r` of the result is row `SourceRow(r)` of the input: within a head, evens and odds become halves. */
  function SourceRow(r: nat, half: nat): nat
    requires half > 0
  {
    (r / 2 / half * 2 + r % 2) * half + r / 2 % half
  }

  function TargetRow(r: nat, half: nat): nat
    requires half > 0
  {
    (r / half / 2 * half + r % half) * 2 + r / half % 2
  }

  /** The row map stays inside its head. */
  lemma {:induction false} RowsStayInHead(r: nat, half: nat)
    requires half > 0
    ensures SourceRow(r, half) / half / 2 == r / 2 / half
    ensures SourceRow(r, half) / half % 2 == r % 2 && SourceRow(r, half) % half == r / 2 % half
  {
    DivMod(r / 2 / half * 2 + r % 2, half, r / 2 % half);
    DivMod(r / 2 / half, 2, r % 2);
  }

  /** The row map is a bijection; `TargetRow` is its inverse. */
  lemma {:induction false} RowsInverse(r: nat, half: nat)
    requires half > 0
    ensures TargetRow(SourceRow(r, half), half) == r
    ensures SourceRow(TargetRow(r, half), half) == r
  {
    TargetOfSource(r, half);
    SourceOfTarget(r, half);
  }

  lemma {:induction false} TargetOfSource(r: nat, half: nat)
    requires half > 0
    ensures TargetRow(SourceRow(r, half), half) == r
  {
    RowsStayInHead(r, half);
    assert r / 2 == r / 2 / half * half + r / 2 % half;
  }

  lemma {:induction false} SourceOfTarget(r: nat, half: nat)
    requires half > 0
    ensures SourceRow(TargetRow(r, half), half) == r
  {
    var x := r / half / 2 * half + r % half;
    var t := TargetRow(r, half);
    DivMod(x, 2, r / half % 2);
    DivMod(r / half / 2, half, r % half);
    assert t / 2 == x && t % 2 == r / half % 2;
    assert x / half == r / half / 2 && x % half == r % half;
    assert r / half / 2 * 2 + r / half % 2 == r / half;
    assert r == r / half * half + r % half;
  }

  lemma {:induction false} HalfHeads(rows: nat, h: nat)
    requires h > 0
    ensures EvenHeads(rows, h) <==> h * 2 * (rows / h / 2) == rows
  {
    Halves(rows, h);
    var half := rows / h / 2;
    assert rows == half * (2 * h) + rows % (2 * h);
    assert half * (2 * h) == h * 2 * half;
  }

  /** Dividing by `h` and then by two is dividing by `2h`. */
  lemma {:induction false} Halves(rows: nat, h: nat)
    requires h > 0
    ensures rows / h / 2 == rows / (2 * h)
  {
    var q, r := rows / h, rows % h;
    assert rows == q * h + r;
    TwoSteps(rows, h, q / 2, q % 2, r);
  }

  lemma {:induction false} TwoSteps(rows: nat, h: nat, k: nat, b: nat, r: nat)
    requires b < 2 && r < h && rows == (k * 2 + b) * h + r
    ensures rows / (2 * h) == k
  {
    Expand(k, b, h);
    assert b * h + r < 2 * h;
    DivMod(k, 2 * h, b * h + r);
  }

  lemma {:induction false} Expand(k: nat, b: nat, h: nat)
    ensures (k * 2 + b) * h == k * (2 * h) + b * h
  {
  }

  /** Size of one row. */
  function RowSize(w: Tensor): nat
    requires w.shape != []
  {
    Size(w.shape[1..])
  }

  function SwapMiddle(n: nat): (p: seq<int>)
    requires n >= 3
    ensures |p| == n
  {
    seq(n, d => if d == 1 then 2 else if d == 2 then 1 else d)
  }

  lemma {:induction false} SwapMiddlePermutes(n: nat)
    requires n >= 3
    ensures IsPermutation(SwapMiddle(n)) && SwappedAxes(n, 1, 2) == Ok(SwapMiddle(n))
    ensures WrapAxes(SwapMiddle(n), n) == SwapMiddle(n)
  {
    assert SwappedAxes(n, 1, 2).value == SwapMiddle(n);
  }

  lemma {:induction false} SwapMiddleShape(s: seq<nat>)
    requires |s| >= 3 && IsPermutation(SwapMiddle(|s|))
    ensures PermutedShape(s, SwapMiddle(|s|)) == [s[0], s[2], s[1]] + s[3..]
  {
  }

  lemma {:induction false} SwapMiddleSource(c: seq<nat>)
    requires |c| >= 3 && IsPermutation(SwapMiddle(|c|))
    ensures SourceCoords(SwapMiddle(|c|), c) == [c[0], c[2], c[1]] + c[3..]
  {
    var p := SwapMiddle(|c|);
    var r := SourceCoords(p, c);
    forall d | 0 <= d < |c| ensures r[d] == ([c[0], c[2], c[1]] + c[3..])[d] {
      assert p[p[d]] == d && r[p[p[d]]] == c[p[d]];
    }
  }

  /** Exchanging axes 1 and 2, element by element. */
  lemma {:induction false} SwapMiddleAt(x: Tensor, i: nat, j: nat, k: nat, c: seq<nat>)
    requires |x.shape| == |c| + 3 && InBounds(x.shape, [i, j, k] + c)
    ensures SwapAxes(x, 1, 2).Ok?
    ensures SwapAxes(x, 1, 2).value.shape == [x.shape[0], x.shape[2], x.shape[1]] + x.shape[3..]
    ensures InBounds(SwapAxes(x, 1, 2).value.shape, [i, k, j] + c)
    ensures At(SwapAxes(x, 1, 2).value, [i, k, j] + c) == At(x, [i, j, k] + c)
  {
    var p := SwapMiddle(|x.shape|);
    SwapMiddlePermutes(|x.shape|);
    SwapMiddleShape(x.shape);
    var d := [i, k, j] + c;
    SwapMiddleSource(d);
    assert [d[0], d[2], d[1]] + d[3..] == [i, j, k] + c;
    SwapBounds(x.shape, i, j, k, c);
    PermuteAt(x, p, d);
  }

  lemma {:induction false} SwapBounds(s: seq<nat>, i: nat, j: nat, k: nat, c: seq<nat>)
    requires |s| == |c| + 3 && InBounds(s, [i, j, k] + c)
    ensures InBounds([s[0], s[2], s[1]] + s[3..], [i, k, j] + c)
  {
    var d := [i, j, k] + c;
    forall e | 0 <= e < |s| ensures ([i, k, j] + c)[e] < ([s[0], s[2], s[1]] + s[3..])[e] {
      assert d[0] < s[0] && d[1] < s[1] && d[2] < s[2];
      if e >= 3 {
        assert d[e] == c[e - 3] && d[e] < s[e];
      }
    }
  }

  /** Flat position of an element below three leading axes. */
  function Flat(i: nat, j: nat, k: nat, p: nat, q: nat, z: nat, o: nat): nat {
    ((i * p + j) * q + k) * z + o
  }

  lemma {:induction false} OffsetThree(h: nat, p: nat, q: nat, s: seq<nat>, i: nat, j: nat, k: nat, c: seq<nat>)
    requires i < h && j < p && k < q && InBounds(s, c)
    ensures InBounds([h, p, q] + s, [i, j, k] + c)
    ensures Offset([h, p, q] + s, [i, j, k] + c) == Flat(i, j, k, p, q, Size(s), Offset(s, c))
  {
    OffsetTwo(p, q, s, j, k, c);
    OffsetCons(h, [p, q] + s, i, [j, k] + c);
    assert [h, p, q] + s == [h] + ([p, q] + s) && [i, j, k] + c == [i] + ([j, k] + c);
    Nest(i, j * q + k, p * q, Size(s));
    Nest(i, j, p, q);
  }

  lemma {:induction false} OffsetTwo(p: nat, q: nat, s: seq<nat>, j: nat, k: nat, c: seq<nat>)
    requires j < p && k < q && InBounds(s, c)
    ensures InBounds([p, q] + s, [j, k] + c) && Size([p, q] + s) == p * q * Size(s)
    ensures Offset([p, q] + s, [j, k] + c) == (j * q + k) * Size(s) + Offset(s, c)
  {
    OffsetCons(q, s, k, c);
    OffsetCons(p, [q] + s, j, [k] + c);
    assert [p, q] + s == [p] + ([q] + s) && [j, k] + c == [j] + ([k] + c);
    SizeCons(q, s);
    SizeCons(p, [q] + s);
    Nest(j, k, q, Size(s));
    Associate(p, q, Size(s));
  }

  lemma {:induction false} Nest(j: int, k: int, q: int, z: int)
    ensures j * (q * z) + k * z == (j * q + k) * z
  {
  }

  /** Element `o` of `m` is element `n` of `w`. */
  predicate SameElement(m: Tensor, o: nat, w: Tensor, n: nat) {
    o < |m.data| && n < |w.data| && m.data[o] == w.data[n]
  }

  /** Flat position of element `j` of row `r`, for rows of `z` elements. */
  function Position(r: nat, z: nat, j: nat): nat {
    r * z + j
  }

  /** The same in a tensor. */
  function RowOffset(w: Tensor, r: nat, j: nat): nat
    requires w.shape != []
  {
    Position(r, RowSize(w), j)
  }

  /** Row `r` of the result is row `SourceRow(r)` of the weights, for heads of two halves. */
  lemma {:induction false} PermutedRows(w: Tensor, nHead: nat, nHeadKv: Option<nat>, h: nat, m: Tensor, half: nat, r: nat, j: nat)
    requires PermuteWeights(w, nHead, nHeadKv) == Ok(m) && HeadCount(nHead, nHeadKv, h) && h > 0
    requires half == w.shape[0] / h / 2
    requires r < w.shape[0] && j < RowSize(w)
    ensures EvenHeads(w.shape[0], h) && m.shape == w.shape
    ensures half > 0 && SourceRow(r, half) < w.shape[0]
    ensures SameElement(m, RowOffset(w, r, j), w, RowOffset(w, SourceRow(r, half), j))
  {
    var x := Reshape(w, SplitRows(w.shape, h)).value;
    SplitShape(w, h, x);
    HeadParts(r, half, h);
    RestoredShape(w, SwapAxes(x, 1, 2).value, m);
    MovedRow(x, h, half, w.shape[1..], r, j);
  }

  lemma {:induction false} RestoredShape(w: Tensor, y: Tensor, m: Tensor)
    requires Reshape(y, w.shape) == Ok(m)
    ensures m.shape == w.shape && m.data == y.data
  {
  }

  lemma {:induction false} MovedRow(x: Tensor, h: nat, half: nat, rest: seq<nat>, r: nat, j: nat)
    requires half > 0 && r < h * 2 * half && j < Size(rest)
    requires x.shape == [h, 2, half] + rest
    ensures SwapAxes(x, 1, 2).Ok?
    ensures SameElement(SwapAxes(x, 1, 2).value, Position(r, Size(rest), j), x, Position(SourceRow(r, half), Size(rest), j))
  {
    OffsetOfCoords(rest, j);
    MovedRowAt(x, h, half, rest, r, CoordsOf(rest, j), j);
  }

  lemma {:induction false} MovedRowAt(x: Tensor, h: nat, half: nat, rest: seq<nat>, r: nat, c: seq<nat>, j: nat)
    requires half > 0 && r < h * 2 * half && InBounds(rest, c) && Offset(rest, c) == j
    requires x.shape == [h, 2, half] + rest
    ensures SwapAxes(x, 1, 2).Ok?
    ensures SameElement(SwapAxes(x, 1, 2).value, Position(r, Size(rest), j), x, Position(SourceRow(r, half), Size(rest), j))
  {
    HeadParts(r, half, h);
    MovedElement(x, h, half, rest, r / 2 / half, r % 2, r / 2 % half, c);
    FlatRow(r, half, Size(rest), j);
  }

  lemma {:induction false} FlatRow(r: nat, half: nat, z: nat, o: nat)
    requires half > 0 && r == (r / 2 / half * half + r / 2 % half) * 2 + r % 2
    ensures Flat(r / 2 / half, r / 2 % half, r % 2, half, 2, z, o) == Position(r, z, o)
    ensures Flat(r / 2 / half, r % 2, r / 2 % half, 2, half, z, o) == Position(SourceRow(r, half), z, o)
  {
  }

  lemma {:induction false} MovedElement(x: Tensor, h: nat, half: nat, rest: seq<nat>, i: nat, b: nat, k: nat, c: seq<nat>)
    requires x.shape == [h, 2, half] + rest && i < h && b < 2 && k < half && InBounds(rest, c)
    ensures SwapAxes(x, 1, 2).Ok?
    ensures SameElement(SwapAxes(x, 1, 2).value, Flat(i, k, b, half, 2, Size(rest), Offset(rest, c)),
                        x, Flat(i, b, k, 2, half, Size(rest), Offset(rest, c)))
  {
    OffsetThree(h, 2, half, rest, i, b, k, c);
    OffsetThree(h, half, 2, rest, i, k, b, c);
    assert x.shape[3..] == rest;
    SwapMiddleAt(x, i, b, k, c);
    SameByCoords(SwapAxes(x, 1, 2).value, [i, k, b] + c, x, [i, b, k] + c);
  }

  lemma {:induction false} SameByCoords(y: Tensor, d: seq<nat>, x: Tensor, c: seq<nat>)
    requires InBounds(y.shape, d) && InBounds(x.shape, c) && At(y, d) == At(x, c)
    ensures SameElement(y, Offset(y.shape, d), x, Offset(x.shape, c))
  {
  }

  lemma {:induction false} HeadParts(r: nat, half: nat, h: nat)
    requires r < h * 2 * half
    ensures half > 0 && r / 2 / half < h && r / 2 % half < half
    ensures r == (r / 2 / half * half + r / 2 % half) * 2 + r % 2
    ensures SourceRow(r, half) < h * 2 * half
  {
    assert h * 2 * half == h * half * 2;
    Quotient(r / 2, h, half);
    Horner(r / 2 / half, h, r % 2, 2);
    Horner(r / 2 / half * 2 + r % 2, h * 2, r / 2 % half, half);
  }

  lemma {:induction false} SplitDims(w: Tensor, h: nat)
    requires w.shape != [] && h > 0
    ensures var dims := SplitRows(w.shape, h);
            -1 !in dims && IsShape(dims) && AsShape(dims) == [h, 2, w.shape[0] / h / 2] + w.shape[1..]
  {
  }

  lemma {:induction false} SplitShape(w: Tensor, h: nat, x: Tensor)
    requires w.shape != [] && h > 0 && RowSize(w) > 0 && Reshape(w, SplitRows(w.shape, h)) == Ok(x)
    ensures x.shape == [h, 2, w.shape[0] / h / 2] + w.shape[1..] && x.data == w.data
    ensures EvenHeads(w.shape[0], h) && h * 2 * (w.shape[0] / h / 2) == w.shape[0]
  {
    SplitDims(w, h);
    EvenSplit(w, h);
  }

  lemma {:induction false} EvenSplit(w: Tensor, h: nat)
    requires w.shape != [] && h > 0 && RowSize(w) > 0
    requires Size([h, 2, w.shape[0] / h / 2] + w.shape[1..]) == Size(w.shape)
    ensures EvenHeads(w.shape[0], h) && h * 2 * (w.shape[0] / h / 2) == w.shape[0]
  {
    SizeRows(w, h);
    CancelFactor(h * 2 * (w.shape[0] / h / 2), w.shape[0], RowSize(w));
    HalfHeads(w.shape[0], h);
  }

  lemma {:induction false} SizeRows(w: Tensor, h: nat)
    requires w.shape != [] && h > 0
    ensures Size(w.shape) == w.shape[0] * RowSize(w)
    ensures Size([h, 2, w.shape[0] / h / 2] + w.shape[1..]) == h * 2 * (w.shape[0] / h / 2) * RowSize(w)
  {
    var half := w.shape[0] / h / 2;
    assert w.shape == [w.shape[0]] + w.shape[1..];
    SizeConcat([w.shape[0]], w.shape[1..]);
    SizeConcat([h, 2, half], w.shape[1..]);
    assert [h, 2, half] == [] + [h] + [2] + [half];
    SizeSnoc([h, 2], half);
    SizeSnoc([h], 2);
    SizeSnoc([], h);
    SizeSnoc([], w.shape[0]);
  }

  // ----- when the permutation is accepted

  /** The heads divide the rows evenly, or the rows are empty. */
  predicate Splits(w: Tensor, h: nat)
    requires w.shape != []
  {
    h > 0 && (EvenHeads(w.shape[0], h) || RowSize(w) == 0)
  }

  /** Weights are accepted exactly when they have an axis, and the heads divide the rows evenly or the rows are empty. */
  lemma {:induction false} PermuteAccepted(w: Tensor, nHead: nat, nHeadKv: Option<nat>, h: nat)
    requires HeadCount(nHead, nHeadKv, h)
    ensures PermuteWeights(w, nHead, nHeadKv).Ok? <==> w.shape != [] && Splits(w, h)
  {
    if w.shape != [] && h > 0 {
      if Splits(w, h) {
        SplitAccepted(w, h);
        SwapAccepted(Reshape(w, SplitRows(w.shape, h)).value, h, w.shape[0] / h / 2, w.shape[1..]);
        NonNegativeShape(w.shape);
      } else if PermuteWeights(w, nHead, nHeadKv).Ok? {
        SplitShape(w, h, Reshape(w, SplitRows(w.shape, h)).value);
      }
    }
  }

  lemma {:induction false} NonNegativeShape(s: seq<nat>)
    ensures -1 !in s && AsShape(s) == s
  {
  }

  lemma {:induction false} SplitAccepted(w: Tensor, h: nat)
    requires w.shape != [] && Splits(w, h)
    ensures Reshape(w, SplitRows(w.shape, h)) ==
            Ok(RawTensor.Tensor([h, 2, w.shape[0] / h / 2] + w.shape[1..], w.data))
    ensures Size([h, 2, w.shape[0] / h / 2] + w.shape[1..]) == Size(w.shape)
  {
    var dims := SplitRows(w.shape, h);
    assert -1 !in dims;
    assert AsShape(dims) == [h, 2, w.shape[0] / h / 2] + w.shape[1..];
    SizeRows(w, h);
    HalfHeads(w.shape[0], h);
  }

  lemma {:induction false} SwapAccepted(x: Tensor, h: nat, half: nat, rest: seq<nat>)
    requires x.shape == [h, 2, half] + rest
    ensures SwapAxes(x, 1, 2).Ok?
    ensures SwapAxes(x, 1, 2).value.shape == [h, half, 2] + rest
    ensures |SwapAxes(x, 1, 2).value.data| == |x.data|
  {
    SwapMiddlePermutes(|x.shape|);
    SwapMiddleShape(x.shape);
    assert x.shape[3..] == rest;
    SwappedSize(h, half, rest);
  }

  lemma {:induction false} SwappedSize(h: nat, half: nat, rest: seq<nat>)
    ensures Size([h, 2, half] + rest) == Size([h, half, 2] + rest)
  {
    SizeConcat([h, 2, half], rest);
    SizeConcat([h, half, 2], rest);
    SwappedThree(h, half);
  }

  lemma {:induction false} SwappedThree(h: nat, half: nat)
    ensures Size([h, 2, half]) == Size([h, half, 2])
  {
    SizeOfThree(h, 2, half);
    SizeOfThree(h, half, 2);
    assert h * 2 * half == h * half * 2;
  }

  // ----- a factored matrix

  lemma {:induction false} HeadsAre(nHead: nat, nHeadKv: Option<nat>, h: nat)
    ensures HeadCount(nHead, nHeadKv, h) <==> Heads(nHead, nHeadKv) == h
  {
  }

  /** On a factored matrix the permutation leaves A alone, permutes the rows of B as it would any weights,
      and means the permutation of the product. */
  lemma {:induction false} PermuteLoraMatrix(t: Lora, nHead: nat, nHeadKv: Option<nat>, h: nat)
    requires |t.a.shape| == 2 && HeadCount(nHead, nHeadKv, h) && EvenHeads(Shape(t)[0], h)
    ensures Aligned(t) && PermuteLora(t, nHead, nHeadKv).Ok?
    ensures PermuteLora(t, nHead, nHeadKv).value.a == t.a
    ensures PermuteWeights(t.b, nHead, nHeadKv) == Ok(PermuteLora(t, nHead, nHeadKv).value.b)
    ensures Aligned(PermuteLora(t, nHead, nHeadKv).value)
    ensures PermuteWeights(Materialize(t), nHead, nHeadKv) == Ok(Materialize(PermuteLora(t, nHead, nHeadKv).value))
  {
    HeadsAre(nHead, nHeadKv, h);
    var x, y, u := MatrixFactors(t, h);
    LoraSteps(t, nHead, nHeadKv, h, x, y);
    WeightSteps(t.b, nHead, nHeadKv, h, x.b, y.b);
    MatrixMeaning(t, nHead, nHeadKv, h, u);
  }

  lemma {:induction false} MatrixMeaning(t: Lora, nHead: nat, nHeadKv: Option<nat>, h: nat, u: Lora)
    requires |t.a.shape| == 2 && HeadCount(nHead, nHeadKv, h) && EvenHeads(Shape(t)[0], h) && PermuteLora(t, nHead, nHeadKv) == Ok(u)
    ensures Aligned(t) && Aligned(u) && PermuteWeights(Materialize(t), nHead, nHeadKv) == Ok(Materialize(u))
  {
    PermuteAccepted(Materialize(t), nHead, nHeadKv, h);
    PermuteLoraSound(t, nHead, nHeadKv, u, PermuteWeights(Materialize(t), nHead, nHeadKv).value);
  }

  /** The steps of the permutation on a factored matrix, and on B. */
  lemma {:induction false} MatrixFactors(t: Lora, h: nat) returns (x: Lora, y: Lora, u: Lora)
    requires |t.a.shape| == 2 && EvenHeads(Shape(t)[0], h)
    ensures ReshapeFactors(t, SplitRows(Shape(t), h)) == Ok(x) && Reshape(t.b, SplitRows(t.b.shape, h)) == Ok(x.b)
    ensures SwapFactorAxes(x, 1, 2) == Ok(y) && SwapAxes(x.b, 1, 2) == Ok(y.b)
    ensures ReshapeFactors(y, Shape(t)) == Ok(u) && Reshape(y.b, t.b.shape) == Ok(u.b) && u.a == t.a
  {
    var half := t.b.shape[0] / h / 2;
    SplitFactors(t, h, half);
    x := ReshapeFactors(t, SplitRows(Shape(t), h)).value;
    SwapSplitFactors(x, h, half);
    y := SwapFactorAxes(x, 1, 2).value;
    SwappedBack(t, x, y, h, half);
    RestoreFactors(t, y);
    u := ReshapeFactors(y, Shape(t)).value;
  }

  lemma {:induction false} SwappedBack(t: Lora, x: Lora, y: Lora, h: nat, half: nat)
    requires x.a == RawTensor.Tensor([1, 1, Rank(t), Cols(t)], t.a.data) && x.b.shape == [h, 2, half, Rank(t)]
    requires |x.b.data| == |t.b.data| && y.a == x.a && SwapAxes(x.b, 1, 2) == Ok(y.b)
    ensures Rank(y) == Rank(t) && Cols(y) == Cols(t) && |y.b.shape| >= 2 && Reshape(y.b, t.b.shape).Ok?
  {
    assert [h, 2, half] + [Rank(t)] == x.b.shape;
    SwapAccepted(x.b, h, half, [Rank(t)]);
    NonNegativeShape(t.b.shape);
  }

  lemma {:induction false} WeightSteps(w: Tensor, nHead: nat, nHeadKv: Option<nat>, h: nat, x: Tensor, y: Tensor)
    requires w.shape != [] && 0 < h == Heads(nHead, nHeadKv)
    requires Reshape(w, SplitRows(w.shape, h)) == Ok(x) && SwapAxes(x, 1, 2) == Ok(y)
    ensures PermuteWeights(w, nHead, nHeadKv) == Reshape(y, w.shape)
  {
  }

  lemma {:induction false} LoraSteps(t: Lora, nHead: nat, nHeadKv: Option<nat>, h: nat, x: Lora, y: Lora)
    requires 0 < h == Heads(nHead, nHeadKv)
    requires ReshapeFactors(t, SplitRows(Shape(t), h)) == Ok(x) && SwapFactorAxes(x, 1, 2) == Ok(y)
    ensures PermuteLora(t, nHead, nHeadKv) == ReshapeFactors(y, Shape(t))
  {
  }

  lemma {:induction false} SplitFactors(t: Lora, h: nat, half: nat)
    requires |t.a.shape| == 2 && EvenHeads(Shape(t)[0], h) && half == t.b.shape[0] / h / 2
    ensures ReshapeFactors(t, SplitRows(Shape(t), h)).Ok?
    ensures var x := ReshapeFactors(t, SplitRows(Shape(t), h)).value;
            && x.a == RawTensor.Tensor([1, 1, Rank(t), Cols(t)], t.a.data)
            && x.b.shape == [h, 2, half, Rank(t)]
            && Reshape(t.b, SplitRows(t.b.shape, h)) == Ok(x.b)
  {
    var dims := SplitRows(Shape(t), h);
    assert dims == [h, 2, half, Cols(t)];
    assert Ones(2) + [Rank(t), Cols(t)] == [1, 1, Rank(t), Cols(t)];
    assert dims[..3] + [Rank(t)] == SplitRows(t.b.shape, h) == [h, 2, half, Rank(t)];
    ReshapedSizeA(2, Rank(t), Cols(t));
    NonNegativeShape([1, 1, Rank(t), Cols(t)]);
    UnitLeadSize(t);
    SplitAccepted(t.b, h);
    NonNegativeShape([h, 2, half, Rank(t)]);
  }

  lemma {:induction false} SwapSplitFactors(x: Lora, h: nat, half: nat)
    requires x.a.shape[..2] == [1, 1] && x.b.shape == [h, 2, half, Rank(x)] && |x.a.shape| == 4
    ensures SwapFactorAxes(x, 1, 2).Ok?
    ensures SwapFactorAxes(x, 1, 2).value.a == x.a
    ensures SwapAxes(x.b, 1, 2) == Ok(SwapFactorAxes(x, 1, 2).value.b)
  {
    SwapMiddlePermutes(4);
    var p := SwapMiddle(4);
    SameAxes(p, 4);
    assert FromEnd(p, 4)[3] == -1;
    assert Lead(x.a.shape) == [1, 1];
    LastAxisKept(x, p);
  }

  lemma {:induction false} RestoreFactors(t: Lora, y: Lora)
    requires |t.a.shape| == 2 && Rank(y) == Rank(t) && Cols(y) == Cols(t)
    requires y.a.data == t.a.data && Reshape(y.b, t.b.shape).Ok? && |y.b.shape| >= 2
    ensures ReshapeFactors(y, Shape(t)).Ok?
    ensures ReshapeFactors(y, Shape(t)).value.a == t.a
    ensures Reshape(y.b, t.b.shape) == Ok(ReshapeFactors(y, Shape(t)).value.b)
  {
    NonNegativeShape(Shape(t));
    NonNegativeShape(t.a.shape);
    NonNegativeShape(t.b.shape);
    assert Ones(0) + [Rank(y), Cols(y)] == t.a.shape;
    assert Shape(t)[..1] + [Rank(y)] == t.b.shape;
  }
}
