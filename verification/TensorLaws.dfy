/** What the dense operations mean, element by element. */
module TensorLaws {
  import opened Results
  import opened Shapes
  import opened Tensors

  /** `i` means axis `a` of `n`: counted from the start, or from the end if negative. */
  predicate MeansAxis(i: int, n: nat, a: nat) {
    a < n && (i == a || i == a - n)
  }

  // ----- swapaxes and transpose

  /** The sequence with two places exchanged. */
  function Exchanged(s: seq<nat>, a: nat, b: nat): (r: seq<nat>)
    requires a < |s| && b < |s|
    ensures |r| == |s|
  {
    s[a := s[b]][b := s[a]]
  }

  /** The identity with two entries exchanged. */
  function ExchangedAxes(n: nat, a: nat, b: nat): (p: seq<int>)
    requires a < n && b < n
    ensures |p| == n
  {
    seq(n, d => if d == a then b else if d == b then a else d)
  }

  lemma {:induction false} AxesSwapped(n: nat, i: int, j: int, a: nat, b: nat)
    requires MeansAxis(i, n, a) && MeansAxis(j, n, b)
    ensures SwappedAxes(n, i, j) == Ok(ExchangedAxes(n, a, b))
  {
    assert seq(n, d => d)[a := b][b := a] == ExchangedAxes(n, a, b);
  }

  lemma {:induction false} ExchangePermutes(n: nat, a: nat, b: nat)
    requires a < n && b < n
    ensures IsPermutation(ExchangedAxes(n, a, b)) && WrapAxes(ExchangedAxes(n, a, b), n) == ExchangedAxes(n, a, b)
  {
  }

  lemma {:induction false} ExchangeShape(s: seq<nat>, a: nat, b: nat)
    requires a < |s| && b < |s| && IsPermutation(ExchangedAxes(|s|, a, b))
    ensures PermutedShape(s, ExchangedAxes(|s|, a, b)) == Exchanged(s, a, b)
  {
  }

  lemma {:induction false} ExchangeSource(c: seq<nat>, a: nat, b: nat)
    requires a < |c| && b < |c| && IsPermutation(ExchangedAxes(|c|, a, b))
    ensures SourceCoords(ExchangedAxes(|c|, a, b), c) == Exchanged(c, a, b)
  {
    var p := ExchangedAxes(|c|, a, b);
    var r := SourceCoords(p, c);
    forall d | 0 <= d < |c| ensures r[d] == Exchanged(c, a, b)[d] {
      var e := if d == a then b else if d == b then a else d;
      assert p[e] == d && r[p[e]] == c[e];
    }
  }

  /** The two lengths are exchanged, and so are the two coordinates of every element. */
  ghost predicate IsExchange(y: Tensor, x: Tensor, a: nat, b: nat) {
    && a < |x.shape| && b < |x.shape| && y.shape == Exchanged(x.shape, a, b)
    && forall c :: InBounds(y.shape, c) ==> ExchangedElement(y, x, a, b, c)
  }

  predicate ExchangedElement(y: Tensor, x: Tensor, a: nat, b: nat, c: seq<nat>)
    requires a < |x.shape| == |y.shape| && b < |x.shape|
    requires InBounds(y.shape, c)
  {
    InBounds(x.shape, Exchanged(c, a, b)) && At(y, c) == At(x, Exchanged(c, a, b))
  }

  lemma {:induction false} PermuteExchanges(x: Tensor, a: nat, b: nat)
    requires a < |x.shape| && b < |x.shape|
    ensures var p := ExchangedAxes(|x.shape|, a, b); IsPermutation(p) && IsExchange(PermuteAxes(x, p), x, a, b)
  {
    var p := ExchangedAxes(|x.shape|, a, b);
    ExchangePermutes(|x.shape|, a, b);
    ExchangeShape(x.shape, a, b);
    forall c | InBounds(PermuteAxes(x, p).shape, c) ensures ExchangedElement(PermuteAxes(x, p), x, a, b, c) {
      ExchangeSource(c, a, b);
      PermuteAt(x, p, c);
    }
  }

  /** Any two axes, counted from either end, are exchanged; other numbers are refused. */
  lemma {:induction false} SwapAxesExchanges(x: Tensor, i: int, j: int, a: nat, b: nat)
    requires MeansAxis(i, |x.shape|, a) && MeansAxis(j, |x.shape|, b)
    ensures SwapAxes(x, i, j).Ok? && IsExchange(SwapAxes(x, i, j).value, x, a, b)
  {
    AxesSwapped(|x.shape|, i, j, a, b);
    ExchangePermutes(|x.shape|, a, b);
    PermuteExchanges(x, a, b);
  }

  lemma {:induction false} SwapAxesRefuses(x: Tensor, i: int, j: int)
    requires SwapAxes(x, i, j).Ok?
    ensures exists a, b :: MeansAxis(i, |x.shape|, a) && MeansAxis(j, |x.shape|, b)
  {
    var n := |x.shape|;
    assert MeansAxis(i, n, if i < 0 then i + n else i) && MeansAxis(j, n, if j < 0 then j + n else j);
  }

  // ----- permute

  /** The axes that the numbers mean, each once. */
  predicate MeansAxes(dims: seq<int>, n: nat, axes: seq<nat>) {
    && |dims| == n == |axes|
    && (forall d :: 0 <= d < n ==> MeansAxis(dims[d], n, axes[d]))
    && forall d, e :: 0 <= d < e < n ==> axes[d] != axes[e]
  }

  /** Axis `d` of the result is axis `axes[d]`, and element `c` the one with coordinate `c[d]` there. */
  ghost predicate IsPermuted(y: Tensor, x: Tensor, axes: seq<nat>) {
    && |y.shape| == |x.shape| == |axes|
    && (forall d :: 0 <= d < |axes| ==> axes[d] < |axes| && y.shape[d] == x.shape[axes[d]])
    && forall c, e :: InBounds(y.shape, c) && InBounds(x.shape, e) && (forall d :: 0 <= d < |axes| ==> e[axes[d]] == c[d]) ==>
         At(y, c) == At(x, e)
  }

  lemma {:induction false} WrappedAxes(dims: seq<int>, n: nat, axes: seq<nat>)
    requires MeansAxes(dims, n, axes)
    ensures |WrapAxes(dims, n)| == n && forall d :: 0 <= d < n ==> WrapAxes(dims, n)[d] == axes[d]
    ensures IsPermutation(WrapAxes(dims, n))
  {
  }

  lemma {:induction false} OneSource(p: seq<int>, c: seq<nat>, e: seq<nat>)
    requires IsPermutation(p) && |p| == |c| == |e| && forall d :: 0 <= d < |p| ==> e[p[d]] == c[d]
    ensures SourceCoords(p, c) == e
  {
    forall a | 0 <= a < |e| ensures SourceCoords(p, c)[a] == e[a] {
      assert p[Place(p, a)] == a;
    }
  }

  /** Exactly the lists that name every axis once are accepted, and reorder the axes. */
  lemma {:induction false} PermuteReorders(x: Tensor, dims: seq<int>, axes: seq<nat>)
    requires MeansAxes(dims, |x.shape|, axes)
    ensures Permute(x, dims).Ok? && IsPermuted(Permute(x, dims).value, x, axes)
  {
    var p := WrapAxes(dims, |x.shape|);
    WrappedAxes(dims, |x.shape|, axes);
    var y := PermuteAxes(x, p);
    forall c, e | InBounds(y.shape, c) && InBounds(x.shape, e) && (forall d :: 0 <= d < |axes| ==> e[axes[d]] == c[d])
      ensures At(y, c) == At(x, e)
    {
      OneSource(p, c, e);
      PermuteAt(x, p, c);
    }
  }

  lemma {:induction false} PermuteRefuses(x: Tensor, dims: seq<int>) returns (axes: seq<nat>)
    requires Permute(x, dims).Ok?
    ensures MeansAxes(dims, |x.shape|, axes)
  {
    var p := WrapAxes(dims, |x.shape|);
    axes := seq(|p|, d requires 0 <= d < |p| => p[d] as nat);
  }

  // ----- reshape

  /** Without an inferred dimension: the given shape, if it holds as many elements, with the same elements in row-major order. */
  lemma {:induction false} ReshapeKeepsData(x: Tensor, s: seq<nat>)
    ensures Reshape(x, s).Ok? <==> Size(s) == Size(x.shape)
    ensures Reshape(x, s).Ok? ==> Reshape(x, s).value.shape == s && Reshape(x, s).value.data == x.data
  {
    assert -1 !in s && AsShape(s) == s;
  }

  /** The shape `s` with axis `d` left to be inferred. */
  predicate InferredAt(dims: seq<int>, s: seq<nat>, d: nat) {
    d < |s| == |dims| && dims[d] == -1 && forall e :: 0 <= e < |s| && e != d ==> dims[e] == s[e]
  }

  /** With one: the only length in its place that holds as many elements, where the others do not hold none. */
  lemma {:induction false} ReshapeInfers(x: Tensor, s: seq<nat>, d: nat, dims: seq<int>)
    requires InferredAt(dims, s, d)
    ensures Size(s) == Size(x.shape) && Size(s[..d] + s[d + 1..]) > 0 ==>
              Reshape(x, dims) == Ok(RawTensor.Tensor(s, x.data))
  {
    if Size(s) == Size(x.shape) && Size(s[..d] + s[d + 1..]) > 0 {
      KnownIsSize(s, d, dims);
      SizeAround(s, d);
      WholeQuotient(s[d], Size(s[..d] + s[d + 1..]));
      OnlyOne(s, d, dims);
    }
  }

  lemma {:induction false} OnlyOne(s: seq<nat>, d: nat, dims: seq<int>)
    requires InferredAt(dims, s, d)
    ensures -1 in dims && AtMostOneInferred(dims) && forall e :: 0 <= e < |dims| ==> dims[e] >= -1
    ensures forall q: nat :: q == s[d] ==> FillInferred(dims, q) == s && AsShape(FillInferred(dims, q)) == s
  {
  }

  lemma {:induction false} WholeQuotient(q: nat, k: nat)
    requires k > 0
    ensures (q * k) % k == 0 && (q * k) / k == q
  {
    DivMod(q, k, 0);
  }

  lemma {:induction false} SizeAround(s: seq<nat>, d: nat)
    requires d < |s|
    ensures Size(s) == s[d] * Size(s[..d] + s[d + 1..])
  {
    var x, y := s[..d], s[d + 1..];
    assert s == (x + [s[d]]) + y;
    SizeConcat(x + [s[d]], y);
    SizeSnoc(x, s[d]);
    SizeConcat(x, y);
    Regroup(Size(x), s[d], Size(y));
  }

  lemma {:induction false} Regroup(x: int, n: int, y: int)
    ensures x * n * y == n * (x * y)
  {
  }

  lemma {:induction false} KnownIsSize(s: seq<nat>, d: nat, dims: seq<int>)
    requires InferredAt(dims, s, d)
    ensures KnownProduct(dims) == Size(s[..d] + s[d + 1..])
    decreases |s|
  {
    var n := |s| - 1;
    if d == n {
      assert dims[..n] == s[..d] + s[d + 1..];
      KnownOfShape(s[..d] + s[d + 1..], dims[..n]);
    } else {
      assert s[..n][..d] == s[..d];
      KnownIsSize(s[..n], d, dims[..n]);
      assert s[..d] + s[d + 1..] == (s[..n][..d] + s[..n][d + 1..]) + [s[n]];
      SizeSnoc(s[..n][..d] + s[..n][d + 1..], s[n]);
    }
  }

  lemma {:induction false} KnownOfShape(s: seq<nat>, dims: seq<int>)
    requires |dims| == |s| && forall d :: 0 <= d < |s| ==> dims[d] == s[d]
    ensures KnownProduct(dims) == Size(s)
    decreases |s|
  {
    if |s| > 0 {
      KnownOfShape(s[..|s| - 1], dims[..|s| - 1]);
    }
  }

  /** Conversely, an accepted list with one inferred dimension is the new shape but for it, and the elements stay. */
  lemma {:induction false} ReshapeFits(x: Tensor, dims: seq<int>, m: Tensor)
    requires Reshape(x, dims) == Ok(m)
    ensures AtMostOneInferred(dims) && |m.shape| == |dims| && m.data == x.data && Size(m.shape) == Size(x.shape)
    ensures forall d :: 0 <= d < |dims| ==> dims[d] == -1 || dims[d] == m.shape[d]
  {
  }
}
