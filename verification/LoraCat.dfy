/** When `torch.cat` on factored tensors is `torch.cat` on their products. */
module LoraCat {
  import opened Results
  import opened Shapes
  import opened Tensors
  import opened LoraTensors
  import opened LoraJoin

  predicate AllFullFirst(ts: seq<Lora>) {
    forall i :: 0 <= i < |ts| ==> FullFirst(ts[i])
  }

  /** All inputs of a `cat` agree with its result outside axis 0. */
  lemma {:induction false} CatShape(xs: seq<Tensor>, y: Tensor, i: nat)
    requires Cat(xs) == Ok(y) && i < |xs|
    ensures |xs[i].shape| == |y.shape| > 0 && xs[i].shape[1..] == y.shape[1..]
  {
    if |xs| > 1 {
      var rest := Cat(xs[1..]).value;
      if i > 0 {
        CatShape(xs[1..], rest, i - 1);
      }
    }
  }

  /** The shapes agree outside the first axis. */
  predicate SameTails(xs: seq<Tensor>) {
    forall i :: 0 <= i < |xs| ==> |xs[i].shape| == |xs[0].shape| > 0 && xs[i].shape[1..] == xs[0].shape[1..]
  }

  lemma {:induction false} CatAccepted(xs: seq<Tensor>)
    requires xs != []
    ensures Cat(xs).Ok? <==> xs[0].shape != [] && SameTails(xs)
    ensures Cat(xs).Ok? ==> |Cat(xs).value.shape| == |xs[0].shape| && Cat(xs).value.shape[1..] == xs[0].shape[1..]
    decreases |xs|
  {
    if |xs| > 1 {
      CatAccepted(xs[1..]);
      TailsOfRest(xs);
    }
  }

  lemma {:induction false} TailsOfRest(xs: seq<Tensor>)
    requires |xs| > 1
    ensures SameTails(xs) <==>
            SameTails(xs[1..]) && |xs[0].shape| == |xs[1].shape| > 0 && xs[0].shape[1..] == xs[1].shape[1..]
  {
    if SameTails(xs[1..]) && |xs[0].shape| == |xs[1].shape| > 0 && xs[0].shape[1..] == xs[1].shape[1..] {
      forall i | 1 <= i < |xs| ensures |xs[i].shape| == |xs[0].shape| && xs[i].shape[1..] == xs[0].shape[1..] {
        assert xs[1..][i - 1] == xs[i];
      }
    }
  }

  lemma {:induction false} FactorTails(ts: seq<Lora>)
    requires |ts| > 0
    ensures FactorsA(ts)[1..] == FactorsA(ts[1..]) && FactorsB(ts)[1..] == FactorsB(ts[1..])
  {
  }

  lemma {:induction false} CatTail(xs: seq<Tensor>, y: Tensor)
    requires |xs| > 1 && Cat(xs) == Ok(y)
    ensures Cat(xs[1..]).Ok? && Joins(xs[0], Cat(xs[1..]).value, y)
  {
    JoinTwoJoins(xs[0], Cat(xs[1..]).value);
  }

  /** One step of `cat` over the factors of batches. */
  lemma {:induction false} CatStep(ts: seq<Lora>, u: Lora) returns (v: Lora)
    requires |ts| > 1 && Cat(FactorsA(ts)) == Ok(u.a) && Cat(FactorsB(ts)) == Ok(u.b) && |ts[0].a.shape| > 2
    ensures Cat(FactorsA(ts[1..])) == Ok(v.a) && Cat(FactorsB(ts[1..])) == Ok(v.b)
    ensures Joins(ts[0].a, v.a, u.a) && Joins(ts[0].b, v.b, u.b)
    ensures |ts[1].a.shape| == |v.a.shape| == |ts[0].a.shape|
  {
    FactorTails(ts);
    CatTail(FactorsA(ts), u.a);
    CatTail(FactorsB(ts), u.b);
    var a, b := Cat(FactorsA(ts[1..])).value, Cat(FactorsB(ts[1..])).value;
    CatShape(FactorsA(ts[1..]), a, 0);
    CatShape(FactorsB(ts[1..]), b, 0);
    StillValid(ts[0], a, b, u);
    v := RawLora.Lora(a, b);
  }

  lemma {:induction false} StillValid(t: Lora, a: Tensor, b: Tensor, u: Lora)
    requires Joins(t.a, a, u.a) && Joins(t.b, b, u.b) && |t.a.shape| > 2
    ensures RawLora.Lora(a, b).Valid()
  {
  }

  lemma {:induction false} ProductsTail(ts: seq<Lora>)
    requires AllAligned(ts) && |ts| > 0
    ensures AllAligned(ts[1..]) && Products(ts)[1..] == Products(ts[1..])
  {
  }

  /** Batches whose first axes A carries in full. */
  lemma {:induction false} CatBatches(ts: seq<Lora>, u: Lora)
    requires ts != [] && AllAligned(ts) && AllFullFirst(ts) && |ts[0].a.shape| > 2
    requires Cat(FactorsA(ts)) == Ok(u.a) && Cat(FactorsB(ts)) == Ok(u.b)
    ensures Aligned(u) && FullFirst(u) && Cat(Products(ts)) == Ok(Materialize(u))
  {
    if |ts| > 1 {
      var v := CatStep(ts, u);
      ProductsTail(ts);
      CatBatches(ts[1..], v);
      JoinSound(ts[0], v, u);
      JoinsIsJoinTwo(Materialize(ts[0]), Materialize(v), Materialize(u));
    }
  }

  // ----- exactly when cat on batches is right

  /** No batch is empty in B alone. */
  predicate EmptyInBoth(ts: seq<Lora>) {
    forall i :: 0 <= i < |ts| ==> ts[i].b.shape[0] > 0 || ts[i].a.shape[0] == 0
  }

  /** Every batch but the `i`-th is empty. */
  predicate Lone(ts: seq<Lora>, i: nat) {
    i < |ts| && forall j :: 0 <= j < |ts| && j != i ==> ts[j].b.shape[0] == 0
  }

  /** The lengths of the joined first axes. */
  lemma {:induction false} CatHeads(ts: seq<Lora>, u: Lora)
    requires ts != [] && AllAligned(ts) && |ts[0].a.shape| > 2 && EmptyInBoth(ts)
    requires Cat(FactorsA(ts)) == Ok(u.a) && Cat(FactorsB(ts)) == Ok(u.b)
    ensures u.a.shape[0] <= u.b.shape[0]
    ensures u.a.shape[0] == u.b.shape[0] <==> AllFullFirst(ts)
    ensures u.a.shape[0] == 0 ==> forall j :: 0 <= j < |ts| ==> ts[j].b.shape[0] == 0
    ensures u.a.shape[0] == 1 ==> exists i: nat :: Lone(ts, i)
    decreases |ts|
  {
    HeadOfAligned(ts[0]);
    if |ts| == 1 {
      assert Lone(ts, 0);
    } else {
      var v := CatStep(ts, u);
      CatHeads(ts[1..], v);
      AllFullFirstCons(ts);
      LoneCons(ts, u, v);
    }
  }

  lemma {:induction false} LoneCons(ts: seq<Lora>, u: Lora, v: Lora)
    requires |ts| > 1 && EmptyInBoth(ts) && u.a.shape != [] && v.a.shape != [] && u.a.shape[0] == ts[0].a.shape[0] + v.a.shape[0]
    requires ts[0].a.shape[0] == 0 ==> ts[0].b.shape[0] == 0
    requires v.a.shape[0] == 0 ==> forall j :: 0 <= j < |ts[1..]| ==> ts[1..][j].b.shape[0] == 0
    requires v.a.shape[0] == 1 ==> exists i: nat :: Lone(ts[1..], i)
    ensures u.a.shape[0] == 0 ==> forall j :: 0 <= j < |ts| ==> ts[j].b.shape[0] == 0
    ensures u.a.shape[0] == 1 ==> exists i: nat :: Lone(ts, i)
  {
    if v.a.shape[0] == 0 {
      NothingElse(ts);
    } else if u.a.shape[0] == 1 {
      var i: nat :| Lone(ts[1..], i);
      LoneAfter(ts, i);
    }
  }

  lemma {:induction false} NothingElse(ts: seq<Lora>)
    requires ts != [] && forall j :: 0 <= j < |ts[1..]| ==> ts[1..][j].b.shape[0] == 0
    ensures Lone(ts, 0)
  {
    forall j | 1 <= j < |ts| ensures ts[j].b.shape[0] == 0 {
      assert ts[1..][j - 1] == ts[j];
    }
  }

  lemma {:induction false} LoneAfter(ts: seq<Lora>, i: nat)
    requires ts != [] && ts[0].b.shape[0] == 0 && Lone(ts[1..], i)
    ensures Lone(ts, i + 1)
  {
    forall j | 0 <= j < |ts| && j != i + 1 ensures ts[j].b.shape[0] == 0 {
      if j > 0 { assert ts[1..][j - 1] == ts[j]; }
    }
  }

  // ----- joining with nothing

  lemma {:induction false} JoinNothing(x: Tensor, y: Tensor)
    requires Joinable(x, y)
    ensures x.shape[0] == 0 ==> JoinTwo(x, y) == y
    ensures y.shape[0] == 0 ==> JoinTwo(x, y) == x
  {
    var z := JoinTwo(x, y);
    if x.shape[0] == 0 {
      assert z.shape == y.shape;
      forall c | InBounds(z.shape, c) ensures At(z, c) == At(y, c) {
        JoinAt(x, y, c);
        assert c[0 := c[0] - 0] == c;
      }
      Extensional(z, y);
    }
    if y.shape[0] == 0 {
      assert z.shape == x.shape;
      forall c | InBounds(z.shape, c) ensures At(z, c) == At(x, c) {
        JoinAt(x, y, c);
      }
      Extensional(z, x);
    }
  }

  /** All but one are empty. */
  predicate LoneTensor(xs: seq<Tensor>, i: nat) {
    i < |xs| && forall j :: 0 <= j < |xs| && j != i ==> xs[j].shape != [] && xs[j].shape[0] == 0
  }

  lemma {:induction false} CatEmpty(xs: seq<Tensor>, y: Tensor)
    requires Cat(xs) == Ok(y) && forall j :: 0 <= j < |xs| ==> xs[j].shape != [] && xs[j].shape[0] == 0
    ensures y.shape != [] && y.shape[0] == 0
    decreases |xs|
  {
    if |xs| > 1 {
      CatEmpty(xs[1..], Cat(xs[1..]).value);
    }
  }

  lemma {:induction false} CatLone(xs: seq<Tensor>, y: Tensor, i: nat)
    requires Cat(xs) == Ok(y) && LoneTensor(xs, i)
    ensures y == xs[i]
    decreases |xs|
  {
    if |xs| > 1 {
      var rest := Cat(xs[1..]).value;
      JoinNothing(xs[0], rest);
      if i == 0 {
        CatEmpty(xs[1..], rest);
      } else {
        forall j | 0 <= j < |xs[1..]| && j != i - 1 ensures xs[1..][j].shape != [] && xs[1..][j].shape[0] == 0 {
          assert xs[1..][j] == xs[j + 1];
        }
        CatLone(xs[1..], rest, i - 1);
      }
    }
  }

  /** Products of factors that can be concatenated can be concatenated. */
  lemma {:induction false} ProductTails(ts: seq<Lora>)
    requires ts != [] && AllAligned(ts) && |ts[0].a.shape| > 2 && SameTails(FactorsA(ts)) && SameTails(FactorsB(ts))
    ensures SameTails(Products(ts))
  {
    forall i | 0 <= i < |ts|
      ensures |Products(ts)[i].shape| == |Products(ts)[0].shape| > 0
      ensures Products(ts)[i].shape[1..] == Products(ts)[0].shape[1..]
    {
      assert FactorsA(ts)[i].shape[1..] == FactorsA(ts)[0].shape[1..] && FactorsB(ts)[i].shape[1..] == FactorsB(ts)[0].shape[1..];
      ShapeTail(ts[i], ts[0]);
    }
  }

  lemma {:induction false} ShapeTail(t: Lora, v: Lora)
    requires |t.a.shape| == |v.a.shape| > 2 && t.a.shape[1..] == v.a.shape[1..] && t.b.shape[1..] == v.b.shape[1..]
    ensures |Shape(t)| == |Shape(v)| && Shape(t)[1..] == Shape(v)[1..]
  {
    var n := |t.a.shape|;
    assert t.a.shape[1..][n - 2] == v.a.shape[1..][n - 2];
    forall d | 0 <= d < n - 1 ensures Shape(t)[1..][d] == Shape(v)[1..][d] {
      if d < n - 2 {
        assert t.b.shape[1..][d] == v.b.shape[1..][d];
      }
    }
  }

  lemma {:induction false} LoneEmpty(ts: seq<Lora>, i: nat)
    requires AllAligned(ts) && EmptyInBoth(ts) && Lone(ts, i) && forall j :: 0 <= j < |ts| ==> |ts[j].a.shape| > 2
    ensures LoneTensor(FactorsA(ts), i) && LoneTensor(FactorsB(ts), i) && LoneTensor(Products(ts), i)
  {
    forall j | 0 <= j < |ts| && j != i
      ensures ts[j].a.shape[0] == 0 && ts[j].b.shape[0] == 0 && Products(ts)[j].shape != [] && Products(ts)[j].shape[0] == 0
    {
      assert Products(ts)[j] == Materialize(ts[j]) && Shape(ts[j])[0] == ts[j].b.shape[0];
    }
  }

  /** One batch and empty ones. */
  lemma {:induction false} CatOfLone(ts: seq<Lora>, u: Lora, i: nat)
    requires ts != [] && AllAligned(ts) && |ts[0].a.shape| > 2 && EmptyInBoth(ts) && Lone(ts, i) && CatFactors(ts) == Ok(u)
    ensures u == ts[i] && Cat(Products(ts)) == Ok(Materialize(u))
  {
    CatAccepted(FactorsA(ts));
    CatAccepted(FactorsB(ts));
    forall j | 0 <= j < |ts| ensures |ts[j].a.shape| > 2 {
      assert |FactorsA(ts)[j].shape| == |FactorsA(ts)[0].shape|;
    }
    LoneEmpty(ts, i);
    CatLone(FactorsA(ts), u.a, i);
    CatLone(FactorsB(ts), u.b, i);
    ProductTails(ts);
    CatAccepted(Products(ts));
    CatLone(Products(ts), Cat(Products(ts)).value, i);
  }

  lemma {:induction false} AllFullFirstCons(ts: seq<Lora>)
    requires ts != []
    ensures AllFullFirst(ts) <==> FullFirst(ts[0]) && AllFullFirst(ts[1..])
  {
    if FullFirst(ts[0]) && AllFullFirst(ts[1..]) {
      forall i | 0 <= i < |ts| ensures FullFirst(ts[i]) {
        if i > 0 { assert ts[1..][i - 1] == ts[i]; }
      }
    }
  }

  lemma {:induction false} HeadOfAligned(t: Lora)
    requires Aligned(t) && |t.a.shape| > 2
    ensures t.a.shape[0] == 1 || t.a.shape[0] == t.b.shape[0]
  {
    assert Lead(t.a.shape)[0] == t.a.shape[0] && Lead(t.b.shape)[0] == t.b.shape[0];
  }

  /** Concatenating batches is right exactly when A carries the first axis of each in full, or when all but one are empty. */
  lemma {:induction false} CatExact(ts: seq<Lora>, u: Lora)
    requires ts != [] && AllAligned(ts) && |ts[0].a.shape| > 2 && EmptyInBoth(ts)
    requires CatFactors(ts) == Ok(u)
    ensures (Aligned(u) && Cat(Products(ts)) == Ok(Materialize(u))) <==> (AllFullFirst(ts) || exists i: nat :: Lone(ts, i))
  {
    CatHeads(ts, u);
    if AllFullFirst(ts) {
      CatBatches(ts, u);
    } else if i: nat :| Lone(ts, i) {
      CatOfLone(ts, u, i);
    } else if Aligned(u) {
      CatShape(FactorsA(ts), u.a, 0);
      HeadOfAligned(u);
      assert false;
    }
  }

  // ----- matrices that share A

  ghost predicate JoinedMatrices(t: Lora, v: Lora, u: Lora) {
    |t.a.shape| == 2 && t.a == v.a == u.a && Joins(t.b, v.b, u.b)
  }

  lemma {:induction false} JoinedRowsElement(t: Lora, v: Lora, u: Lora, c: seq<nat>)
    requires JoinedMatrices(t, v, u) && InBounds(Shape(u), c)
    ensures JoinedAt(Materialize(t), Materialize(v), Materialize(u), c)
  {
    if c[0] < t.b.shape[0] {
      UpperRowsElement(t, v, u, c);
    } else {
      LowerRowsElement(t, v, u, c, c[0 := c[0] - t.b.shape[0]]);
    }
    JoinedAtParts(Materialize(t), Materialize(v), Materialize(u), c);
  }

  lemma {:induction false} UpperRowsElement(t: Lora, v: Lora, u: Lora, c: seq<nat>)
    requires JoinedMatrices(t, v, u) && InBounds(Shape(u), c) && c[0] < t.b.shape[0]
    ensures InBounds(Shape(t), c) && At(Materialize(u), c) == At(Materialize(t), c)
  {
    SharedRowCol(t, v, u, c);
    SameDot(u, c, t, c);
  }

  lemma {:induction false} LowerRowsElement(t: Lora, v: Lora, u: Lora, c: seq<nat>, d: seq<nat>)
    requires JoinedMatrices(t, v, u) && InBounds(Shape(u), c) && c[0] >= t.b.shape[0]
    requires d == c[0 := c[0] - t.b.shape[0]]
    ensures InBounds(Shape(v), d) && At(Materialize(u), c) == At(Materialize(v), d)
  {
    SharedLowerRowCol(t, v, u, c, d);
    SameDot(u, c, v, d);
  }

  lemma {:induction false} SharedRowCol(t: Lora, v: Lora, u: Lora, c: seq<nat>)
    requires JoinedMatrices(t, v, u) && InBounds(Shape(u), c) && InBounds(Shape(t), c)
    ensures Row(u, c) == Row(t, c) && Col(u, c) == Col(t, c)
  {
    forall k | 0 <= k < Rank(u) ensures Row(u, c)[k] == Row(t, c)[k] {
      FactorBounds(u, c, k);
      assert JoinedAt(t.b, v.b, u.b, RowCoords(c, k));
    }
  }

  lemma {:induction false} SharedLowerRowCol(t: Lora, v: Lora, u: Lora, c: seq<nat>, d: seq<nat>)
    requires JoinedMatrices(t, v, u) && InBounds(Shape(u), c) && InBounds(Shape(v), d)
    requires c[0] >= t.b.shape[0] && d == c[0 := c[0] - t.b.shape[0]]
    ensures Row(u, c) == Row(v, d) && Col(u, c) == Col(v, d)
  {
    forall k | 0 <= k < Rank(u) ensures Row(u, c)[k] == Row(v, d)[k] && Col(u, c)[k] == Col(v, d)[k] {
      FactorBounds(u, c, k);
      LowerRowCoords(c, t.b.shape[0], k);
      assert JoinedAt(t.b, v.b, u.b, RowCoords(c, k));
      SharedColCoords(u.a.shape, c, d, k);
    }
  }

  lemma {:induction false} SharedColCoords(s: seq<nat>, c: seq<nat>, d: seq<nat>, k: nat)
    requires |s| == |c| == |d| == 2 && c[1] == d[1]
    ensures ColCoords(s, c, k) == ColCoords(s, d, k)
  {
  }

  lemma {:induction false} CatShared(ts: seq<Lora>, u: Lora)
    requires ts != [] && |ts[0].a.shape| == 2 && SharedA(ts)
    requires u.a == ts[0].a && Cat(FactorsB(ts)) == Ok(u.b)
    ensures AllAligned(ts) && Cat(Products(ts)) == Ok(Materialize(u))
  {
    if |ts| > 1 {
      var v := SharedRest(ts, u);
      CatShared(ts[1..], v);
      ProductsTail(ts);
      JoinedProducts(ts[0], v, u);
    }
  }

  /** What the matrices after the first are joined to. */
  lemma {:induction false} SharedRest(ts: seq<Lora>, u: Lora) returns (v: Lora)
    requires |ts| > 1 && |ts[0].a.shape| == 2 && SharedA(ts) && u.a == ts[0].a && Cat(FactorsB(ts)) == Ok(u.b)
    ensures v.a == ts[1].a && SharedA(ts[1..]) && Cat(FactorsB(ts[1..])) == Ok(v.b) && JoinedMatrices(ts[0], v, u)
  {
    FactorTails(ts);
    CatTail(FactorsB(ts), u.b);
    v := RawLora.Lora(u.a, Cat(FactorsB(ts[1..])).value);
  }

  lemma {:induction false} JoinedProducts(t: Lora, v: Lora, u: Lora)
    requires JoinedMatrices(t, v, u)
    ensures Aligned(t) && Aligned(v) && Aligned(u)
    ensures Joinable(Materialize(t), Materialize(v)) && Materialize(u) == JoinTwo(Materialize(t), Materialize(v))
  {
    forall c | InBounds(Shape(u), c) ensures JoinedAt(Materialize(t), Materialize(v), Materialize(u), c) {
      JoinedRowsElement(t, v, u, c);
    }
    JoinsIsJoinTwo(Materialize(t), Materialize(v), Materialize(u));
  }

  /** Concatenating matrices is right whenever it is accepted. */
  lemma {:induction false} CatMatrices(ts: seq<Lora>, u: Lora)
    requires ts != [] && |ts[0].a.shape| == 2 && CatFactors(ts) == Ok(u)
    ensures AllAligned(ts) && Aligned(u) && Cat(Products(ts)) == Ok(Materialize(u))
  {
    CatShared(ts, u);
  }
}
