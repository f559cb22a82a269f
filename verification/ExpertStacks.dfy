/** What the merged tensors of a layer are called and what they hold. */
module ExpertStacks {
  import opened Shapes
  import opened Tensors
  import opened ExpertNames
  import opened Experts
  import opened ExpertLaws
  import opened ExpertMerging
  import opened ExpertRuns

  predicate IsDigit(ch: char) {
    '0' <= ch <= '9'
  }

  /** The number that digits stand for. */
  function Value(s: string): int
    requires forall i :: 0 <= i < |s| ==> IsDigit(s[i])
  {
    if |s| == 0 then 0 else 10 * Value(s[..|s| - 1]) + (s[|s| - 1] as int - '0' as int)
  }

  /** A number in decimal is read back, and does not start with a zero unless it is zero. */
  lemma {:induction false} DecimalMeans(n: nat)
    ensures forall i :: 0 <= i < |Decimal(n)| ==> IsDigit(Decimal(n)[i])
    ensures Value(Decimal(n)) == n
    ensures Decimal(n)[0] == '0' ==> n == 0 && |Decimal(n)| == 1
    decreases n
  {
    if n < 10 {
      assert Decimal(n)[..0] == "";
    } else {
      DecimalMeans(n / 10);
      assert Decimal(n)[..|Decimal(n)| - 1] == Decimal(n / 10);
    }
  }

  /** The weights of an expert, and the names of the tensor that arrives and of the one that is emitted. */
  lemma {:induction false} Names(b: nat, x: nat, w: string)
    ensures WEIGHTS == ["w1", "w2", "w3"]
    ensures ExpertName(b, x, w) == "model.layers." + Decimal(b) + ".block_sparse_moe.experts." + Decimal(x) + "." + w + ".weight"
    ensures MergedName(b, w) == "layers." + Decimal(b) + ".feed_forward.experts." + w + ".weight"
  {
    DotsAround("model.layers." + Decimal(b), "block_sparse_moe.experts", Decimal(x) + "." + w + ".weight");
    assert "." + "block_sparse_moe.experts" + "." == ".block_sparse_moe.experts.";
    Regroup(b, x, w);
  }

  lemma {:induction false} DotsAround(x: string, y: string, z: string)
    ensures x + ("." + y + "." + z) == x + ("." + y + ".") + z
  {
  }

  lemma {:induction false} StackAtWeight(buf: Buffer, b: nat, n: nat, k: nat, w: nat)
    requires w < k <= 3 && Mergeable(buf, b, n)
    ensures Uniform(buf, b, n, w)
    ensures LayerStacks(buf, b, n, k)[w] == Named(MergedName(b, WEIGHTS[w]), StackedWeight(buf, b, n, w))
    decreases k
  {
    MergeableHas(buf, b, n, w);
    if w < k - 1 {
      StackAtWeight(buf, b, n, k - 1, w);
    }
  }

  lemma {:induction false} StackOfLayer(p: Params, es: seq<Expert>, b: nat, w: nat)
    requires WellFormed(p, es) && Complete(p, es, b) && w < 3
    ensures |StacksOf(p, es, b)| == 3 && Uniform(LayerMap(p, es, b), b, p.nExperts, w)
    ensures StacksOf(p, es, b)[w] == Named(MergedName(b, WEIGHTS[w]), StackedWeight(LayerMap(p, es, b), b, p.nExperts, w))
  {
    CompleteIsMergeable(p, es, b);
    StackAtWeight(LayerMap(p, es, b), b, p.nExperts, 3, w);
  }

  lemma {:induction false} StackShape(p: Params, es: seq<Expert>, i: nat, t: Tensor)
    requires WellFormed(p, es) && i < |es| && Bounded(p, es[i]) && Complete(p, es, es[i].bid)
    requires Uniform(LayerMap(p, es, es[i].bid), es[i].bid, p.nExperts, es[i].wid)
    requires t == StackedWeight(LayerMap(p, es, es[i].bid), es[i].bid, p.nExperts, es[i].wid)
    ensures t.shape == [p.nExperts] + es[i].data.shape
  {
    var e := es[i];
    var first := SlotIs(p, es, e.bid, 0, e.wid);
    assert SameWeight(es[first], es[i]);
  }

  /** The stacks of a complete layer: one for each weight, named after the layer and the weight, with every element of
      expert x in slot x. */
  lemma {:induction false} LayerStacked(p: Params, es: seq<Expert>, i: nat, c: seq<nat>)
    requires WellFormed(p, es) && i < |es| && Complete(p, es, es[i].bid) && InBounds(es[i].data.shape, c)
    ensures |StacksOf(p, es, es[i].bid)| == 3 && es[i].wid < 3
    ensures var e := es[i];
            var stack := StacksOf(p, es, e.bid)[e.wid];
            && stack.name == "layers." + Decimal(e.bid) + ".feed_forward.experts." + ["w1", "w2", "w3"][e.wid] + ".weight"
            && stack.data.shape == [p.nExperts] + e.data.shape
            && InBounds(stack.data.shape, [e.xid] + c) && At(stack.data, [e.xid] + c) == At(e.data, c)
  {
    var e := es[i];
    assert Bounded(p, es[i]);
    StackOfLayer(p, es, e.bid, e.wid);
    StackShape(p, es, i, StacksOf(p, es, e.bid)[e.wid].data);
    ExpertInSlot(p, es, i, c);
    Names(e.bid, e.xid, WEIGHTS[e.wid]);
  }
}
