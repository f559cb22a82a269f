/** What `...` in an index tuple stands for, in the factored and in the dense tensor. */
module LoraEllipsis {
  import opened Results
  import opened Sequences
  import opened Tensors
  import opened LoraTensors
  import opened LoraIndex
  import opened LoraGetItem

  datatype Entry = Plain(ix: Index) | Ellipsis

  function Fill(n: nat): (r: seq<Index>)
    ensures |r| == n
  {
    seq(n, _ => FULL)
  }

  /** The code replaces each `...` by one slice less than there are entries. */
  function ExpandEach(es: seq<Entry>, k: nat): seq<Index> {
    if es == [] then []
    else (if es[0] == Ellipsis then Fill(k) else [es[0].ix]) + ExpandEach(es[1..], k)
  }

  /** The tuple that the factored tensor is indexed with. */
  function FactoredTuple(es: seq<Entry>): seq<Index>
    requires es != []
  {
    if es[|es| - 1] == Ellipsis then
      if |es| == 1 then [] else FactoredTuple(es[..|es| - 1])
    else ExpandEach(es, |es| - 1)
  }

  /** A dense tensor of `n` axes fills `...` with as many slices as are missing. */
  function DenseTuple(pre: seq<Index>, post: seq<Index>, n: nat): seq<Index>
    requires |pre| + |post| <= n
  {
    pre + Fill(n - |pre| - |post|) + post
  }

  function OneEllipsis(pre: seq<Index>, post: seq<Index>): (es: seq<Entry>)
    ensures |es| == |pre| + 1 + |post|
  {
    AsEntries(pre) + [Ellipsis] + AsEntries(post)
  }

  function AsEntries(ixs: seq<Index>): (es: seq<Entry>)
    ensures |es| == |ixs| && forall i :: 0 <= i < |es| ==> es[i] == Plain(ixs[i])
  {
    seq(|ixs|, i requires 0 <= i < |ixs| => Plain(ixs[i]))
  }

  lemma {:induction false} ExpandPlain(ixs: seq<Index>, rest: seq<Entry>, k: nat)
    ensures ExpandEach(AsEntries(ixs) + rest, k) == ixs + ExpandEach(rest, k)
    decreases |ixs|
  {
    if ixs == [] {
      assert AsEntries(ixs) + rest == rest;
    } else {
      ExpandPlain(ixs[1..], rest, k);
      FirstEntry(ixs, rest);
      Associate([ixs[0]], ixs[1..], ExpandEach(rest, k));
      assert [ixs[0]] + ixs[1..] == ixs;
    }
  }

  lemma {:induction false} FirstEntry(ixs: seq<Index>, rest: seq<Entry>)
    requires ixs != []
    ensures (AsEntries(ixs) + rest)[0] == Plain(ixs[0]) && (AsEntries(ixs) + rest)[1..] == AsEntries(ixs[1..]) + rest
  {
  }

  lemma {:induction false} ExpandOne(pre: seq<Index>, post: seq<Index>, k: nat)
    ensures ExpandEach(OneEllipsis(pre, post), k) == pre + Fill(k) + post
  {
    var tail := [Ellipsis] + AsEntries(post);
    Associate(AsEntries(pre), [Ellipsis], AsEntries(post));
    ExpandPlain(pre, tail, k);
    ExpandTail(post, k);
    Associate(pre, Fill(k), post);
  }

  lemma {:induction false} ExpandTail(post: seq<Index>, k: nat)
    ensures ExpandEach([Ellipsis] + AsEntries(post), k) == Fill(k) + post
  {
    assert ([Ellipsis] + AsEntries(post))[1..] == AsEntries(post) == AsEntries(post) + [];
    ExpandPlain(post, [], k);
    assert post + [] == post;
  }

  predicate AllFull(ixs: seq<Index>) {
    forall i :: 0 <= i < |ixs| ==> ixs[i] == FULL
  }

  /** A list that is unchanged by moving whole slices from its end to its front holds only whole slices. */
  lemma {:induction false} ShiftedFull(post: seq<Index>, b: nat, i: nat)
    requires b > 0 && post + Fill(b) == Fill(b) + post && i < |post|
    ensures post[i] == FULL
    decreases i
  {
    assert (post + Fill(b))[i] == (Fill(b) + post)[i];
    if i >= b {
      ShiftedFull(post, b, i - b);
    }
  }

  /** An ellipsis at the end of the tuple is the same tuple to both. */
  lemma {:induction false} TrailingEllipsis(pre: seq<Index>, n: nat)
    requires 0 < |pre| <= n
    ensures PadIndices(FactoredTuple(OneEllipsis(pre, [])), n) == DenseTuple(pre, [], n)
  {
    var es := OneEllipsis(pre, []);
    assert es[..|es| - 1] == AsEntries(pre) + [];
    ExpandPlain(pre, [], |pre| - 1);
    assert pre + Fill(n - |pre|) + [] == PadIndices(pre, n);
  }

  /** Elsewhere the two tuples are equal exactly when the tensor has twice as many axes as there are other entries,
      or when the tensor has more and nothing but `:` follows the ellipsis. */
  lemma {:induction false} InnerEllipsis(pre: seq<Index>, post: seq<Index>, n: nat)
    requires post != [] && |pre| + |post| <= n
    ensures PadIndices(FactoredTuple(OneEllipsis(pre, post)), n) == DenseTuple(pre, post, n) <==>
            (n == 2 * (|pre| + |post|) || (n > 2 * (|pre| + |post|) && AllFull(post)))
  {
    var k := |pre| + |post|;
    var es := OneEllipsis(pre, post);
    assert es[|es| - 1] == Plain(post[|post| - 1]);
    ExpandOne(pre, post, k);
    var code := pre + Fill(k) + post;
    assert FactoredTuple(es) == code && |code| == 2 * k;
    if n > 2 * k {
      var b := n - 2 * k;
      assert PadIndices(code, n) == pre + Fill(k) + (post + Fill(b));
      assert DenseTuple(pre, post, n) == pre + Fill(k) + (Fill(b) + post);
      if PadIndices(code, n) == DenseTuple(pre, post, n) {
        SameTail(pre + Fill(k), post + Fill(b), Fill(b) + post);
        forall i | 0 <= i < |post| ensures post[i] == FULL {
          ShiftedFull(post, b, i);
        }
      }
      if AllFull(post) {
        assert post + Fill(b) == Fill(b) + post;
      }
    }
  }

  lemma {:induction false} SameTail(x: seq<Index>, y: seq<Index>, z: seq<Index>)
    requires x + y == x + z
    ensures y == z
  {
    assert (x + y)[|x|..] == y && (x + z)[|x|..] == z;
  }

  // ----- what the two tuples pick

  /** The entry picks a whole axis, however long. */
  ghost predicate PicksWhole(ix: Index) {
    forall n: nat :: Resolve(ix, n) == Resolve(FULL, n)
  }

  /** The two entries pick the same of every axis. */
  ghost predicate PickSame(x: Index, y: Index) {
    x == y || (PicksWhole(x) && PicksWhole(y))
  }

  lemma {:induction false} SamePicks(xs: seq<Index>, ys: seq<Index>, s: seq<nat>)
    requires |xs| == |ys| == |s| && forall i :: 0 <= i < |xs| ==> PickSame(xs[i], ys[i])
    ensures ResolveAll(xs, s) == ResolveAll(ys, s)
    decreases |xs|
  {
    if xs != [] {
      var n := |xs| - 1;
      SamePicks(xs[..n], ys[..n], s[..n]);
      assert PickSame(xs[n], ys[n]);
    }
  }

  lemma {:induction false} SameItem(x: Tensor, xs: seq<Index>, ys: seq<Index>)
    requires |xs| <= |x.shape| && |ys| <= |x.shape|
    requires var n := |x.shape|;
             forall i :: 0 <= i < n ==> PickSame(PadIndices(xs, n)[i], PadIndices(ys, n)[i])
    ensures GetItem(x, xs) == GetItem(x, ys)
  {
    SamePicks(PadIndices(xs, |x.shape|), PadIndices(ys, |x.shape|), x.shape);
  }

  /** With room for it, an inner ellipsis picks the same from every tensor if whatever follows it picks whole axes. */
  lemma {:induction false} WholeTail(x: Tensor, pre: seq<Index>, post: seq<Index>)
    requires post != [] && |x.shape| >= 2 * (|pre| + |post|) && forall i :: 0 <= i < |post| ==> PicksWhole(post[i])
    ensures GetItem(x, FactoredTuple(OneEllipsis(pre, post))) == GetItem(x, DenseTuple(pre, post, |x.shape|))
  {
    var k, n := |pre| + |post|, |x.shape|;
    var es := OneEllipsis(pre, post);
    assert es[|es| - 1] == Plain(post[|post| - 1]);
    ExpandOne(pre, post, k);
    var code, dense := PadIndices(FactoredTuple(es), n), DenseTuple(pre, post, n);
    forall i | 0 <= i < n ensures PickSame(code[i], PadIndices(dense, n)[i]) {
      if i >= |pre| {
        TailPicksWhole(pre, post, n, i);
      }
    }
    SameItem(x, FactoredTuple(es), dense);
  }

  lemma {:induction false} TailPicksWhole(pre: seq<Index>, post: seq<Index>, n: nat, i: nat)
    requires |pre| <= i < n && n >= 2 * (|pre| + |post|) && forall j :: 0 <= j < |post| ==> PicksWhole(post[j])
    ensures PicksWhole(PadIndices(pre + Fill(|pre| + |post|) + post, n)[i]) && PicksWhole(DenseTuple(pre, post, n)[i])
  {
    var code, dense := pre + Fill(|pre| + |post|) + post, DenseTuple(pre, post, n);
    var k := |pre| + |pre| + |post|;
    assert PicksWhole(FULL);
    if k <= i < |code| {
      assert code[i] == post[i - k];
    }
    if i >= n - |post| {
      assert dense[i] == post[i - (n - |post|)];
    }
  }

  // ----- where they part ways

  const FIRST_ONE: Index := Slice(Some(0), Some(1), None)

  /** `x[..., 0:1]` is the first column of each matrix; the code takes it for the first row. */
  lemma {:induction false} FirstColumnOrRow(x: Tensor)
    requires |x.shape| == 3 && x.shape[1] > 0 && x.shape[2] > 0
    ensures var code, dense := GetItem(x, FactoredTuple(OneEllipsis([], [FIRST_ONE]))), GetItem(x, DenseTuple([], [FIRST_ONE], 3));
            && code.Ok? && code.value.shape == [x.shape[0], 1, x.shape[2]]
            && dense.Ok? && dense.value.shape == [x.shape[0], x.shape[1], 1]
  {
    var es := OneEllipsis([], [FIRST_ONE]);
    assert es[|es| - 1] == Plain(FIRST_ONE);
    ExpandOne([], [FIRST_ONE], 1);
    assert [] + Fill(1) + [FIRST_ONE] == [FULL, FIRST_ONE];
    assert DenseTuple([], [FIRST_ONE], 3) == [FULL, FULL, FIRST_ONE];
    assert PadIndices([FULL, FIRST_ONE], 3) == [FULL, FIRST_ONE, FULL];
    assert PadIndices([FULL, FULL, FIRST_ONE], 3) == [FULL, FULL, FIRST_ONE];
    UnitRange(0, x.shape[0]);
    UnitRange(0, x.shape[1]);
    UnitRange(0, x.shape[2]);
    FirstOne(x.shape[1]);
    FirstOne(x.shape[2]);
    ThreePicked(x, FULL, FIRST_ONE, FULL, Range(0, x.shape[0], 1), [0], Range(0, x.shape[2], 1));
    ThreePicked(x, FULL, FULL, FIRST_ONE, Range(0, x.shape[0], 1), Range(0, x.shape[1], 1), [0]);
  }

  lemma {:induction false} FirstOne(n: nat)
    requires n > 0
    ensures Resolve(FIRST_ONE, n) == Ok(Many([0]))
  {
    assert Range(1, 1, 1) == [] && [0] + Range(1, 1, 1) == [0];
    assert Range(0, 1, 1) == [0];
  }

  lemma {:induction false} ThreePicked(x: Tensor, ix: Index, iy: Index, iz: Index, px: seq<nat>, py: seq<nat>, pz: seq<nat>)
    requires |x.shape| == 3 && Resolve(ix, x.shape[0]) == Ok(Many(px))
    requires Resolve(iy, x.shape[1]) == Ok(Many(py)) && Resolve(iz, x.shape[2]) == Ok(Many(pz))
    ensures ResolveAll([ix, iy, iz], x.shape) == Ok([Many(px), Many(py), Many(pz)])
    ensures PickedShape([Many(px), Many(py), Many(pz)]) == [|px|, |py|, |pz|]
  {
    var s := x.shape;
    ResolveSnoc([], [], ix, s[0]);
    ResolveTwo([ix], [s[0]], iy, s[1], iz, s[2]);
    assert [] + [ix] == [ix] && [] + [s[0]] == [s[0]];
    assert [ix] + [iy] + [iz] == [ix, iy, iz] && [s[0]] + [s[1]] + [s[2]] == s;
    PickedSnoc([], px, []);
    PickedSnoc([Many(px)], py, []);
    PickedSnoc([Many(px), Many(py)], pz, []);
    assert [] + [Many(px)] == [Many(px)] && [Many(px)] + [Many(py)] == [Many(px), Many(py)];
    assert [Many(px), Many(py)] + [Many(pz)] == [Many(px), Many(py), Many(pz)];
  }

  // ----- factored tensors

  /** Where the two tuples are equal, what `TupleExact` says of tuples holds of the ellipsis. */
  lemma {:induction false} EllipsisExact(t: Lora, pre: seq<Index>, post: seq<Index>, u: Lora, m: Tensor)
    requires Aligned(t) && 0 < |pre| + |post| <= |t.a.shape|
    requires post == [] || |t.a.shape| == 2 * (|pre| + |post|) || (|t.a.shape| > 2 * (|pre| + |post|) && AllFull(post))
    requires TupleOfFactors(t, FactoredTuple(OneEllipsis(pre, post))) == Ok(u)
    requires GetItem(Materialize(t), DenseTuple(pre, post, |t.a.shape|)) == Ok(m)
    ensures var code := FactoredTuple(OneEllipsis(pre, post));
            |code| <= |t.a.shape| && ((Aligned(u) && Materialize(u) == m) <==> TupleSupported(t, code))
  {
    var n, code, dense := |t.a.shape|, FactoredTuple(OneEllipsis(pre, post)), DenseTuple(pre, post, |t.a.shape|);
    if post == [] {
      TrailingEllipsis(pre, n);
    } else {
      InnerEllipsis(pre, post, n);
    }
    assert PadIndices(dense, n) == dense;
    PaddedItem(Materialize(t), code);
    TupleExact(t, code, u, m);
  }
}
