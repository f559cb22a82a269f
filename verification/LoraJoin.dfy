/** Stacking and concatenating the factors stacks and concatenates the products. */
module LoraJoin {
  import opened Results
  import opened Shapes
  import opened Tensors
  import opened LoraTensors

  predicate AllAligned(ts: seq<Lora>) {
    forall i :: 0 <= i < |ts| ==> Aligned(ts[i])
  }

  function Products(ts: seq<Lora>): (ms: seq<Tensor>)
    requires AllAligned(ts)
    ensures |ms| == |ts|
  {
    seq(|ts|, i requires 0 <= i < |ts| => Materialize(ts[i]))
  }

  // ----- stack

  lemma {:induction false} StackedShapes(ts: seq<Lora>, u: Lora, i: nat)
    requires AllAligned(ts) && StackFactors(ts) == Ok(u) && i < |ts|
    ensures ts[i].a.shape == ts[0].a.shape && ts[i].b.shape == ts[0].b.shape
    ensures u.a.shape == [|ts|] + ts[0].a.shape && u.b.shape == [|ts|] + ts[0].b.shape
    ensures Aligned(u) && Shape(u) == [|ts|] + Shape(ts[0]) && Shape(ts[i]) == Shape(ts[0])
    ensures Rank(u) == Rank(ts[0]) == Rank(ts[i])
  {
    StackOfSame(FactorsA(ts), u.a, i);
    StackOfSame(FactorsB(ts), u.b, i);
    StackedLead(|ts|, ts[0], u);
  }

  lemma {:induction false} StackOfSame(xs: seq<Tensor>, y: Tensor, i: nat)
    requires Stack(xs) == Ok(y) && i < |xs|
    ensures xs[i].shape == xs[0].shape && y.shape == [|xs|] + xs[0].shape
  {
  }

  /** A new first axis of both factors. */
  lemma {:induction false} StackedLead(n: nat, t: Lora, u: Lora)
    requires Aligned(t) && u.a.shape == [n] + t.a.shape && u.b.shape == [n] + t.b.shape
    ensures Aligned(u) && Shape(u) == [n] + Shape(t) && Rank(u) == Rank(t)
  {
    assert Lead(u.a.shape) == [n] + Lead(t.a.shape) && Lead(u.b.shape) == [n] + Lead(t.b.shape);
    forall d | 0 <= d < |Lead(u.a.shape)| ensures Lead(u.a.shape)[d] == 1 || Lead(u.a.shape)[d] == Lead(u.b.shape)[d] {
      if d > 0 {
        assert Lead(t.a.shape)[d - 1] == 1 || Lead(t.a.shape)[d - 1] == Lead(t.b.shape)[d - 1];
      }
    }
  }

  lemma {:induction false} StackedFactor(xs: seq<Tensor>, x: Tensor, y: Tensor, i: nat, c: seq<nat>)
    requires Stack(xs) == Ok(y) && i < |xs| && xs[i] == x
    requires InBounds(y.shape, [i] + c)
    ensures InBounds(x.shape, c) && At(y, [i] + c) == At(x, c)
  {
    assert forall j :: 0 <= j < |xs| ==> xs[j].shape == xs[0].shape;
    StackAt(xs, [i] + c);
  }

  lemma {:induction false} StackedRow(ts: seq<Lora>, u: Lora, i: nat, c: seq<nat>)
    requires AllAligned(ts) && StackFactors(ts) == Ok(u) && i < |ts|
    requires Aligned(u) && InBounds(Shape(u), [i] + c) && InBounds(Shape(ts[i]), c)
    ensures Row(u, [i] + c) == Row(ts[i], c)
  {
    StackedShapes(ts, u, i);
    forall k | 0 <= k < Rank(u) ensures Row(u, [i] + c)[k] == Row(ts[i], c)[k] {
      FactorBounds(u, [i] + c, k);
      assert RowCoords([i] + c, k) == [i] + RowCoords(c, k);
      StackedFactor(FactorsB(ts), ts[i].b, u.b, i, RowCoords(c, k));
    }
  }

  lemma {:induction false} StackedCol(ts: seq<Lora>, u: Lora, i: nat, c: seq<nat>)
    requires AllAligned(ts) && StackFactors(ts) == Ok(u) && i < |ts|
    requires Aligned(u) && InBounds(Shape(u), [i] + c) && InBounds(Shape(ts[i]), c)
    ensures Col(u, [i] + c) == Col(ts[i], c)
  {
    StackedShapes(ts, u, i);
    forall k | 0 <= k < Rank(u) ensures Col(u, [i] + c)[k] == Col(ts[i], c)[k] {
      FactorBounds(u, [i] + c, k);
      ColCoordsCons(|ts|, ts[i].a.shape, i, c, k);
      StackedFactor(FactorsA(ts), ts[i].a, u.a, i, ColCoords(ts[i].a.shape, c, k));
    }
  }

  lemma {:induction false} ColCoordsCons(n: nat, s: seq<nat>, i: nat, c: seq<nat>, k: nat)
    requires |s| == |c| >= 2 && i < n
    ensures ColCoords([n] + s, [i] + c, k) == [i] + ColCoords(s, c, k)
  {
    assert Lead([n] + s) == [n] + Lead(s);
  }

  lemma {:induction false} StackedProducts(ts: seq<Lora>, u: Lora)
    requires AllAligned(ts) && StackFactors(ts) == Ok(u)
    ensures Stack(Products(ts)).Ok? && Stack(Products(ts)).value.shape == Shape(u)
    ensures forall i :: 0 <= i < |ts| ==> Products(ts)[i].shape == Products(ts)[0].shape
  {
    StackedShapes(ts, u, 0);
    forall i | 0 <= i < |ts| ensures Products(ts)[i].shape == Products(ts)[0].shape {
      StackedShapes(ts, u, i);
    }
  }

  lemma {:induction false} StackedElement(ts: seq<Lora>, u: Lora, i: nat, c: seq<nat>)
    requires AllAligned(ts) && StackFactors(ts) == Ok(u) && i < |ts| && Aligned(u)
    requires InBounds(Shape(u), [i] + c) && InBounds(Shape(ts[i]), c)
    ensures At(Materialize(u), [i] + c) == At(Materialize(ts[i]), c)
  {
    MaterializeAt(u, [i] + c);
    MaterializeAt(ts[i], c);
    StackedRow(ts, u, i, c);
    StackedCol(ts, u, i, c);
  }

  predicate StackedAt(xs: seq<Tensor>, y: Tensor, i: nat, c: seq<nat>)
    requires i < |xs|
  {
    InBounds(xs[i].shape, c) && InBounds(y.shape, [i] + c) && At(y, [i] + c) == At(xs[i], c)
  }

  /** Slice `i` of `y` is `xs[i]`. */
  ghost predicate IsStack(xs: seq<Tensor>, y: Tensor) {
    && xs != [] && y.shape == [|xs|] + xs[0].shape
    && forall i: nat, c :: i < |xs| && InBounds(xs[0].shape, c) ==> StackedAt(xs, y, i, c)
  }

  lemma {:induction false} StackIsStack(xs: seq<Tensor>, y: Tensor)
    requires Stack(xs) == Ok(y)
    ensures IsStack(xs, y)
  {
    forall i: nat, c | i < |xs| && InBounds(xs[0].shape, c) ensures StackedAt(xs, y, i, c) {
      InFront(|xs|, xs[0].shape, i, c);
      StackedFactor(xs, xs[i], y, i, c);
    }
  }

  lemma {:induction false} InFront(n: nat, s: seq<nat>, i: nat, c: seq<nat>)
    requires i < n && InBounds(s, c)
    ensures InBounds([n] + s, [i] + c)
  {
  }

  lemma {:induction false} TakeFront(n: nat, s: seq<nat>, c: seq<nat>)
    requires InBounds([n] + s, c)
    ensures c == [c[0]] + c[1..] && c[0] < n && InBounds(s, c[1..])
  {
    forall d | 0 <= d < |s| ensures c[1..][d] < s[d] {
      assert c[d + 1] < ([n] + s)[d + 1];
    }
  }

  lemma {:induction false} SameStack(xs: seq<Tensor>, y: Tensor, z: Tensor)
    requires IsStack(xs, y) && IsStack(xs, z)
    ensures y == z
  {
    forall c | InBounds(y.shape, c) ensures At(y, c) == At(z, c) {
      TakeFront(|xs|, xs[0].shape, c);
      assert StackedAt(xs, y, c[0], c[1..]) && StackedAt(xs, z, c[0], c[1..]);
    }
    Extensional(y, z);
  }

  lemma {:induction false} ProductIsStack(ts: seq<Lora>, u: Lora)
    requires AllAligned(ts) && StackFactors(ts) == Ok(u) && Aligned(u) && ts != []
    ensures IsStack(Products(ts), Materialize(u))
  {
    var ms := Products(ts);
    StackedShapes(ts, u, 0);
    forall i: nat, c | i < |ms| && InBounds(ms[0].shape, c) ensures StackedAt(ms, Materialize(u), i, c) {
      StackedShapes(ts, u, i);
      InFront(|ts|, Shape(ts[0]), i, c);
      StackedElement(ts, u, i, c);
    }
  }

  /** The stack of the factors stands for the stack of the products, without condition. */
  lemma {:induction false} StackSound(ts: seq<Lora>, u: Lora)
    requires AllAligned(ts) && StackFactors(ts) == Ok(u)
    ensures Aligned(u) && Stack(Products(ts)) == Ok(Materialize(u))
  {
    StackedShapes(ts, u, 0);
    StackedProducts(ts, u);
    ProductIsStack(ts, u);
    StackIsStack(Products(ts), Stack(Products(ts)).value);
    SameStack(Products(ts), Stack(Products(ts)).value, Materialize(u));
  }

  // ----- cat

  /** The first leading axis of A is as long as that of B. */
  predicate FullFirst(t: Lora) {
    t.a.shape[0] == t.b.shape[0]
  }

  /** Element `c` of the joined tensor `z` comes from `x` or from `y`. */
  ghost predicate JoinedAt(x: Tensor, y: Tensor, z: Tensor, c: seq<nat>)
    requires |x.shape| > 0 && InBounds(z.shape, c) && |z.shape| == |x.shape|
  {
    if c[0] < x.shape[0] then InBounds(x.shape, c) && At(z, c) == At(x, c)
    else
      var d := c[0 := c[0] - x.shape[0]];
      InBounds(y.shape, d) && At(z, c) == At(y, d)
  }

  /** `z` is `x` followed by `y` along axis 0. */
  ghost predicate Joins(x: Tensor, y: Tensor, z: Tensor) {
    && |x.shape| == |y.shape| == |z.shape| > 0
    && z.shape[0] == x.shape[0] + y.shape[0]
    && (forall d :: 1 <= d < |z.shape| ==> z.shape[d] == x.shape[d] == y.shape[d])
    && forall c :: InBounds(z.shape, c) ==> JoinedAt(x, y, z, c)
  }

  lemma {:induction false} JoinTwoJoins(x: Tensor, y: Tensor)
    requires Joinable(x, y)
    ensures Joins(x, y, JoinTwo(x, y))
  {
    var z := JoinTwo(x, y);
    forall d | 1 <= d < |z.shape| ensures z.shape[d] == x.shape[d] == y.shape[d] {
      assert x.shape[1..][d - 1] == y.shape[1..][d - 1];
    }
    forall c | InBounds(z.shape, c) ensures JoinedAt(x, y, z, c) {
      JoinAt(x, y, c);
    }
  }

  lemma {:induction false} JoinsIsJoinTwo(x: Tensor, y: Tensor, z: Tensor)
    requires Joins(x, y, z)
    ensures Joinable(x, y) && z == JoinTwo(x, y)
  {
    assert x.shape[1..] == y.shape[1..] == z.shape[1..];
    JoinTwoJoins(x, y);
    var w := JoinTwo(x, y);
    assert w.shape == z.shape;
    forall c | InBounds(z.shape, c) ensures At(z, c) == At(w, c) {
      assert JoinedAt(x, y, z, c) && JoinedAt(x, y, w, c);
    }
    Extensional(z, w);
  }

  /** Joining two batches whose first axes A carries in full. */
  ghost predicate JoinedBatches(t: Lora, v: Lora, u: Lora) {
    && Aligned(t) && Aligned(v)
    && |t.a.shape| > 2 && FullFirst(t) && FullFirst(v)
    && Joins(t.a, v.a, u.a) && Joins(t.b, v.b, u.b)
  }

  lemma {:induction false} JoinedShapes(t: Lora, v: Lora, u: Lora)
    requires JoinedBatches(t, v, u)
    ensures Aligned(u) && FullFirst(u)
    ensures Rank(u) == Rank(t) == Rank(v)
    ensures |Shape(t)| == |Shape(v)| == |Shape(u)| > 2
    ensures Shape(t)[0] == t.b.shape[0] && Shape(u)[0] == Shape(t)[0] + Shape(v)[0]
    ensures forall d :: 1 <= d < |Shape(u)| ==> Shape(u)[d] == Shape(t)[d] == Shape(v)[d]
  {
    JoinedLead(Lead(t.a.shape), Lead(t.b.shape), Lead(u.a.shape), Lead(u.b.shape));
  }

  lemma {:induction false} JoinedLead(sa: seq<nat>, sb: seq<nat>, ra: seq<nat>, rb: seq<nat>)
    requires Broadcasts(sa, sb) && |sa| == |ra| == |rb| > 0 && ra[0] == rb[0]
    requires forall d :: 1 <= d < |sa| ==> ra[d] == sa[d] && rb[d] == sb[d]
    ensures Broadcasts(ra, rb)
  {
  }

  lemma {:induction false} UpperBounds(t: Lora, v: Lora, u: Lora, c: seq<nat>)
    requires JoinedBatches(t, v, u) && InBounds(Shape(u), c) && c[0] < Shape(t)[0]
    ensures InBounds(Shape(t), c)
  {
    JoinedShapes(t, v, u);
  }

  lemma {:induction false} UpperRowCol(t: Lora, v: Lora, u: Lora, c: seq<nat>, k: nat)
    requires JoinedBatches(t, v, u) && Aligned(u) && k < Rank(u) == Rank(t)
    requires InBounds(Shape(u), c) && InBounds(Shape(t), c)
    ensures Row(u, c)[k] == Row(t, c)[k] && Col(u, c)[k] == Col(t, c)[k]
  {
    FactorBounds(u, c, k);
    FactorBounds(t, c, k);
    UpperColCoords(t.a.shape, u.a.shape, c, k);
    assert JoinedAt(t.b, v.b, u.b, RowCoords(c, k));
    assert JoinedAt(t.a, v.a, u.a, ColCoords(u.a.shape, c, k));
  }

  lemma {:induction false} UpperColCoords(s: seq<nat>, r: seq<nat>, c: seq<nat>, k: nat)
    requires |s| == |r| == |c| > 2 && (forall d :: 1 <= d < |s| ==> s[d] == r[d]) && c[0] < s[0] <= r[0]
    ensures ColCoords(r, c, k) == ColCoords(s, c, k) && ColCoords(r, c, k)[0] < s[0]
  {
  }

  lemma {:induction false} LowerBounds(t: Lora, v: Lora, u: Lora, c: seq<nat>)
    requires JoinedBatches(t, v, u) && InBounds(Shape(u), c) && c[0] >= Shape(t)[0]
    ensures InBounds(Shape(v), c[0 := c[0] - Shape(t)[0]])
  {
    JoinedShapes(t, v, u);
  }

  lemma {:induction false} LowerRowCol(t: Lora, v: Lora, u: Lora, c: seq<nat>, d: seq<nat>, k: nat)
    requires JoinedBatches(t, v, u) && Aligned(u) && k < Rank(u) == Rank(v)
    requires InBounds(Shape(u), c) && c[0] >= Shape(t)[0] && d == c[0 := c[0] - Shape(t)[0]]
    requires InBounds(Shape(v), d)
    ensures Row(u, c)[k] == Row(v, d)[k] && Col(u, c)[k] == Col(v, d)[k]
  {
    JoinedShapes(t, v, u);
    FactorBounds(u, c, k);
    FactorBounds(v, d, k);
    LowerRowCoords(c, t.b.shape[0], k);
    LowerColCoords(t.a.shape[0], v.a.shape, u.a.shape, c, d, k);
    assert JoinedAt(t.b, v.b, u.b, RowCoords(c, k));
    assert JoinedAt(t.a, v.a, u.a, ColCoords(u.a.shape, c, k));
  }

  lemma {:induction false} LowerRowCoords(c: seq<nat>, n: nat, k: nat)
    requires |c| > 1 && c[0] >= n
    ensures RowCoords(c, k)[0] == c[0] && RowCoords(c, k)[0 := c[0] - n] == RowCoords(c[0 := c[0] - n], k)
  {
  }

  lemma {:induction false} LowerColCoords(n: nat, s: seq<nat>, r: seq<nat>, c: seq<nat>, d: seq<nat>, k: nat)
    requires |s| == |r| == |c| > 2 && (forall i :: 1 <= i < |s| ==> s[i] == r[i]) && r[0] == n + s[0]
    requires n <= c[0] < r[0] && d == c[0 := c[0] - n]
    ensures ColCoords(r, c, k)[0] >= n
    ensures ColCoords(r, c, k)[0 := ColCoords(r, c, k)[0] - n] == ColCoords(s, d, k)
  {
  }

  lemma {:induction false} UpperElement(t: Lora, v: Lora, u: Lora, c: seq<nat>)
    requires JoinedBatches(t, v, u) && Aligned(u) && InBounds(Shape(u), c) && InBounds(Shape(t), c) && Rank(u) == Rank(t)
    ensures At(Materialize(u), c) == At(Materialize(t), c)
  {
    MaterializeAt(u, c);
    MaterializeAt(t, c);
    forall k | 0 <= k < Rank(u) ensures Row(u, c)[k] == Row(t, c)[k] && Col(u, c)[k] == Col(t, c)[k] {
      UpperRowCol(t, v, u, c, k);
    }
    assert Row(u, c) == Row(t, c) && Col(u, c) == Col(t, c);
  }

  lemma {:induction false} LowerElement(t: Lora, v: Lora, u: Lora, c: seq<nat>, d: seq<nat>)
    requires JoinedBatches(t, v, u) && Aligned(u) && InBounds(Shape(u), c) && InBounds(Shape(v), d) && Rank(u) == Rank(v)
    requires c[0] >= Shape(t)[0] && d == c[0 := c[0] - Shape(t)[0]]
    ensures At(Materialize(u), c) == At(Materialize(v), d)
  {
    MaterializeAt(u, c);
    MaterializeAt(v, d);
    forall k | 0 <= k < Rank(u) ensures Row(u, c)[k] == Row(v, d)[k] && Col(u, c)[k] == Col(v, d)[k] {
      LowerRowCol(t, v, u, c, d, k);
    }
    assert Row(u, c) == Row(v, d) && Col(u, c) == Col(v, d);
  }

  lemma {:induction false} JoinedElement(t: Lora, v: Lora, u: Lora, c: seq<nat>)
    requires JoinedBatches(t, v, u) && Aligned(u) && InBounds(Shape(u), c)
    ensures |Shape(t)| == |Shape(u)|
    ensures JoinedAt(Materialize(t), Materialize(v), Materialize(u), c)
  {
    JoinedShapes(t, v, u);
    if c[0] < Shape(t)[0] {
      UpperBounds(t, v, u, c);
      UpperElement(t, v, u, c);
    } else {
      LowerBounds(t, v, u, c);
      LowerElement(t, v, u, c, c[0 := c[0] - Shape(t)[0]]);
    }
    JoinedAtParts(Materialize(t), Materialize(v), Materialize(u), c);
  }

  lemma {:induction false} JoinedAtParts(x: Tensor, y: Tensor, z: Tensor, c: seq<nat>)
    requires |x.shape| > 0 && InBounds(z.shape, c) && |z.shape| == |x.shape|
    requires c[0] < x.shape[0] ==> InBounds(x.shape, c) && At(z, c) == At(x, c)
    requires c[0] >= x.shape[0] ==>
               && InBounds(y.shape, c[0 := c[0] - x.shape[0]])
               && At(z, c) == At(y, c[0 := c[0] - x.shape[0]])
    ensures JoinedAt(x, y, z, c)
  {
  }

  lemma {:induction false} JoinSound(t: Lora, v: Lora, u: Lora)
    requires JoinedBatches(t, v, u)
    ensures Aligned(u) && FullFirst(u) && Joins(Materialize(t), Materialize(v), Materialize(u))
  {
    JoinedShapes(t, v, u);
    forall c | InBounds(Shape(u), c) ensures JoinedAt(Materialize(t), Materialize(v), Materialize(u), c) {
      JoinedElement(t, v, u, c);
    }
  }
}
