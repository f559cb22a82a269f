/** Merging a complete layer finds every expert and empties the buffer. */
module ExpertMerging {
  import opened Results
  import opened Shapes
  import opened Tensors
  import opened ExpertNames
  import opened Experts
  import opened ExpertLaws

  /** All experts of the weight are there, with one shape. */
  predicate Uniform(buf: Buffer, b: nat, n: nat, w: nat)
    requires w < 3
  {
    && n > 0
    && forall x: nat :: x < n ==> ExpertName(b, x, WEIGHTS[w]) in buf && Slot(buf, b, x, w).shape == Slot(buf, b, 0, w).shape
  }

  function Slot(buf: Buffer, b: nat, x: nat, w: nat): Tensor
    requires w < 3
  {
    var name := ExpertName(b, x, WEIGHTS[w]);
    if name in buf then buf[name] else RawTensor.Tensor([0], [])
  }

  function Slots(buf: Buffer, b: nat, w: nat, k: nat): (r: seq<Tensor>)
    requires w < 3
    ensures |r| == k && forall x :: 0 <= x < k ==> r[x] == Slot(buf, b, x, w)
  {
    if k == 0 then [] else Slots(buf, b, w, k - 1) + [Slot(buf, b, k - 1, w)]
  }

  /** Slot `x` of the merged tensor holds expert `x`. */
  function StackedWeight(buf: Buffer, b: nat, n: nat, w: nat): Tensor
    requires w < 3 && Uniform(buf, b, n, w)
  {
    StackSame(Slots(buf, b, w, n))
  }

  predicate Mergeable(buf: Buffer, b: nat, n: nat) {
    Uniform(buf, b, n, 0) && Uniform(buf, b, n, 1) && Uniform(buf, b, n, 2)
  }

  lemma {:induction false} MergeableHas(buf: Buffer, b: nat, n: nat, w: nat)
    requires Mergeable(buf, b, n) && w < 3
    ensures Uniform(buf, b, n, w)
  {
  }

  function LayerStacks(buf: Buffer, b: nat, n: nat, k: nat): (r: seq<Named>)
    requires k <= 3 && Mergeable(buf, b, n)
    ensures |r| == k
    decreases k, n
  {
    if k == 0 then []
    else
      MergeableHas(buf, b, n, k - 1);
      LayerStacks(buf, b, n, k - 1) + [Named(MergedName(b, WEIGHTS[k - 1]), StackedWeight(buf, b, n, k - 1))]
  }

  // ----- taking

  lemma {:induction false} NextName(b: nat, w: nat, k: nat)
    requires w < 3
    ensures ExpertName(b, k, WEIGHTS[w]) !in WeightNames(b, w, k)
  {
    WeightNamesHave(b, w, k, ExpertName(b, k, WEIGHTS[w]));
    if x: nat :| x < k && ExpertName(b, k, WEIGHTS[w]) == ExpertName(b, x, WEIGHTS[w]) {
      ExpertNameInjective(b, k, WEIGHTS[w], b, x, WEIGHTS[w]);
    }
  }

  lemma {:induction false} TakeAllPresent(buf: Buffer, b: nat, w: nat, k: nat)
    requires w < 3 && forall x: nat :: x < k ==> ExpertName(b, x, WEIGHTS[w]) in buf
    ensures TakeExperts(buf, b, WEIGHTS[w], k) == Ok((Slots(buf, b, w, k), buf - WeightNames(b, w, k)))
  {
    if k == 0 {
      assert buf - {} == buf;
    } else {
      TakeAllPresent(buf, b, w, k - 1);
      NextName(b, w, k - 1);
      var name := ExpertName(b, k - 1, WEIGHTS[w]);
      assert buf - WeightNames(b, w, k - 1) - {name} == buf - WeightNames(b, w, k);
    }
  }

  function Left(buf: Buffer, b: nat, n: nat, k: nat): Buffer
    requires k <= 3
  {
    if k == 0 then buf else Left(buf, b, n, k - 1) - WeightNames(b, k - 1, n)
  }

  lemma {:induction false} LeftHas(buf: Buffer, b: nat, n: nat, k: nat, w: nat, x: nat)
    requires k <= w < 3 && x < n && ExpertName(b, x, WEIGHTS[w]) in buf
    ensures ExpertName(b, x, WEIGHTS[w]) in Left(buf, b, n, k)
    ensures Slot(Left(buf, b, n, k), b, x, w) == Slot(buf, b, x, w)
  {
    if k > 0 {
      var name := ExpertName(b, x, WEIGHTS[w]);
      LeftHas(buf, b, n, k - 1, w, x);
      WeightNamesDisjoint(b, k - 1, w, n);
      WeightNamesHave(b, w, n, name);
      assert name !in WeightNames(b, k - 1, n);
    }
  }

  lemma {:induction false} StackWorks(buf: Buffer, b: nat, n: nat, w: nat)
    requires w < 3 && Uniform(buf, b, n, w)
    ensures Stack(Slots(buf, b, w, n)) == Ok(StackedWeight(buf, b, n, w))
  {
  }

  lemma {:induction false} SameSlots(buf: Buffer, other: Buffer, b: nat, w: nat, k: nat)
    requires w < 3 && forall x: nat :: x < k ==> Slot(buf, b, x, w) == Slot(other, b, x, w)
    ensures Slots(buf, b, w, k) == Slots(other, b, w, k)
  {
  }

  lemma {:induction false} MergeNext(buf: Buffer, b: nat, n: nat, k: nat)
    requires k < 3 && Mergeable(buf, b, n)
    ensures Uniform(buf, b, n, k)
    ensures MergeWeight(Left(buf, b, n, k), b, n, WEIGHTS[k]) ==
            Ok((Named(MergedName(b, WEIGHTS[k]), StackedWeight(buf, b, n, k)), Left(buf, b, n, k + 1)))
  {
    var left := Left(buf, b, n, k);
    MergeableHas(buf, b, n, k);
    forall x: nat | x < n ensures ExpertName(b, x, WEIGHTS[k]) in left && Slot(left, b, x, k) == Slot(buf, b, x, k) {
      LeftHas(buf, b, n, k, k, x);
    }
    TakeAllPresent(left, b, k, n);
    SameSlots(left, buf, b, k, n);
    StackWorks(buf, b, n, k);
  }

  lemma {:induction false} MergeUpTo(buf: Buffer, b: nat, n: nat, k: nat)
    requires k <= 3 && Mergeable(buf, b, n)
    ensures MergeWeights(buf, b, n, k) == Ok((LayerStacks(buf, b, n, k), Left(buf, b, n, k)))
  {
    if k > 0 {
      MergeUpTo(buf, b, n, k - 1);
      MergeNext(buf, b, n, k - 1);
    }
  }

  lemma {:induction false} NothingLeft(buf: Buffer, b: nat, n: nat)
    requires buf.Keys == LayerNames(b, n)
    ensures Left(buf, b, n, 3) == map[]
  {
    var one, two := Left(buf, b, n, 1), Left(buf, b, n, 2);
    assert Left(buf, b, n, 0) == buf;
    assert one == buf - WeightNames(b, 0, n);
    assert two == one - WeightNames(b, 1, n);
    assert Left(buf, b, n, 3).Keys == {};
  }

  /** No lookup misses, and nothing stays. */
  lemma {:induction false} MergeComplete(buf: Buffer, b: nat, n: nat)
    requires Mergeable(buf, b, n) && buf.Keys == LayerNames(b, n)
    ensures MergeWeights(buf, b, n, 3) == Ok((LayerStacks(buf, b, n, 3), map[]))
  {
    MergeUpTo(buf, b, n, 3);
    NothingLeft(buf, b, n);
  }

  lemma {:induction false} CompleteIsMergeable(p: Params, es: seq<Expert>, b: nat)
    requires WellFormed(p, es) && Complete(p, es, b)
    ensures Mergeable(LayerMap(p, es, b), b, p.nExperts)
    ensures LayerMap(p, es, b).Keys == LayerNames(b, p.nExperts)
  {
    LayerMapInNames(p, es, b);
    CompleteUniform(p, es, b, 0);
    CompleteUniform(p, es, b, 1);
    CompleteUniform(p, es, b, 2);
  }

  lemma {:induction false} CompleteUniform(p: Params, es: seq<Expert>, b: nat, w: nat)
    requires WellFormed(p, es) && Complete(p, es, b) && w < 3
    ensures Uniform(LayerMap(p, es, b), b, p.nExperts, w)
  {
    var buf := LayerMap(p, es, b);
    var first := SlotIs(p, es, b, 0, w);
    forall x: nat | x < p.nExperts
      ensures ExpertName(b, x, WEIGHTS[w]) in buf && Slot(buf, b, x, w).shape == Slot(buf, b, 0, w).shape
    {
      var i := SlotIs(p, es, b, x, w);
      assert SameWeight(es[i], es[first]);
    }
  }

  /** Slot `x` of a complete layer holds the tensor that came for expert `x`. */
  lemma {:induction false} SlotIs(p: Params, es: seq<Expert>, b: nat, x: nat, w: nat) returns (i: nat)
    requires WellFormed(p, es) && Complete(p, es, b) && x < p.nExperts && w < 3
    ensures i < |es| && es[i].bid == b && es[i].xid == x && es[i].wid == w
    ensures ExpertName(b, x, WEIGHTS[w]) in LayerMap(p, es, b) && Slot(LayerMap(p, es, b), b, x, w) == es[i].data
  {
    LayerMapInNames(p, es, b);
    InLayerNames(b, x, w, p.nExperts);
    i := LayerMapOnly(p, es, b, ExpertName(b, x, WEIGHTS[w]));
    NamesDiffer(es[i], Expert(b, x, w, es[i].data));
    LayerMapHas(p, es, i);
  }

  /** Every element of every expert of a complete layer is in its slot of the merged tensor. */
  lemma {:induction false} ExpertInSlot(p: Params, es: seq<Expert>, i: nat, c: seq<nat>)
    requires WellFormed(p, es) && i < |es| && Complete(p, es, es[i].bid) && InBounds(es[i].data.shape, c)
    ensures Bounded(p, es[i]) && Uniform(LayerMap(p, es, es[i].bid), es[i].bid, p.nExperts, es[i].wid)
    ensures var t := StackedWeight(LayerMap(p, es, es[i].bid), es[i].bid, p.nExperts, es[i].wid);
            InBounds(t.shape, [es[i].xid] + c) && At(t, [es[i].xid] + c) == At(es[i].data, c)
  {
    var e, n := es[i], p.nExperts;
    var buf := LayerMap(p, es, e.bid);
    assert Bounded(p, es[i]);
    CompleteUniform(p, es, e.bid, e.wid);
    LayerMapHas(p, es, i);
    var xs := Slots(buf, e.bid, e.wid, n);
    assert xs[e.xid] == e.data;
    assert ([e.xid] + c)[1..] == c;
    StackAt(xs, [e.xid] + c);
  }
}
