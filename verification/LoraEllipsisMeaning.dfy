/** For which tuples an inner `...` picks the same from every tensor, as the code expands it and as the dense tensor does. */
module LoraEllipsisMeaning {
  import opened Results
  import opened Tensors
  import opened LoraTensors
  import opened LoraIndex
  import opened LoraGetItem
  import opened LoraEllipsis

  // ----- what entries accept

  /** A slice that no axis accepts. */
  predicate BadStep(ix: Index) {
    ix.Slice? && ix.step.Some? && ix.step.value <= 0
  }

  predicate AnyBad(ixs: seq<Index>) {
    exists i :: 0 <= i < |ixs| && BadStep(ixs[i])
  }

  lemma {:induction false} BadFails(ixs: seq<Index>, s: seq<nat>)
    requires |ixs| == |s| && AnyBad(ixs)
    ensures ResolveAll(ixs, s).Err?
    decreases |ixs|
  {
    var n := |ixs| - 1;
    if !BadStep(ixs[n]) {
      var i :| 0 <= i < |ixs| && BadStep(ixs[i]);
      assert ixs[..n][i] == ixs[i];
      BadFails(ixs[..n], s[..n]);
    }
  }

  /** Every axis of this length or longer accepts the entries, if none is bad. */
  function Enough(ixs: seq<Index>): (m: nat)
    ensures forall i :: 0 <= i < |ixs| && ixs[i].Select? ==> 0 <= ixs[i].i + m < 2 * m
  {
    if ixs == [] then 1
    else
      var m, ix := Enough(ixs[..|ixs| - 1]), ixs[|ixs| - 1];
      if ix.Slice? || 0 <= ix.i + m < 2 * m then m else if ix.i < 0 then -ix.i else ix.i + 1
  }

  lemma {:induction false} Accepts(ix: Index, n: nat)
    requires !BadStep(ix) && (ix.Select? ==> 0 <= ix.i + n < 2 * n)
    ensures Resolve(ix, n).Ok? && (ix.Slice? <==> Resolve(ix, n).value.Many?)
  {
  }

  lemma {:induction false} AllAccept(ixs: seq<Index>, s: seq<nat>)
    requires |ixs| == |s| && forall d :: 0 <= d < |s| ==> Resolve(ixs[d], s[d]).Ok?
    ensures ResolveAll(ixs, s).Ok?
    decreases |ixs|
  {
    if |ixs| > 0 {
      AllAccept(ixs[..|ixs| - 1], s[..|s| - 1]);
    }
  }

  // ----- slices that pick less than everything

  lemma {:induction false} RangeCount(lo: nat, hi: nat, step: nat)
    requires step > 0 && lo <= hi
    ensures |Range(lo, hi, step)| <= hi - lo
    ensures |Range(lo, hi, step)| == hi - lo ==> Range(lo, hi, step) == Range(lo, hi, 1)
    decreases hi - lo
  {
    if lo < hi {
      if lo + step <= hi {
        RangeCount(lo + step, hi, step);
      } else {
        assert Range(lo + step, hi, step) == [];
        assert Range(lo + 1, hi, 1) == [] || hi - lo > 1;
      }
    }
  }

  /** A slice picks at most everything, and less unless it picks the whole axis. */
  lemma {:induction false} ShortSlice(ix: Index, n: nat)
    requires ix.Slice? && !BadStep(ix)
    ensures Resolve(ix, n).Ok? && Resolve(ix, n).value.Many? && |Resolve(ix, n).value.at| <= n
    ensures |Resolve(ix, n).value.at| == n ==> Resolve(ix, n) == Ok(Whole(n))
  {
    var lo := if ix.start.Some? then Clamp(ix.start.value, n) else 0;
    var hi := if ix.stop.Some? then Clamp(ix.stop.value, n) else n;
    var step := if ix.step.Some? then ix.step.value else 1;
    if lo <= hi {
      RangeCount(lo, hi, step);
    } else {
      assert Range(lo, hi, step) == [];
      assert Range(0, 0, 1) == [];
    }
  }

  // ----- the shape of what is picked

  lemma {:induction false} PickedConcat(ps: seq<Pick>, qs: seq<Pick>)
    ensures PickedShape(ps + qs) == PickedShape(ps) + PickedShape(qs)
    decreases |qs|
  {
    if |qs| == 0 {
      assert ps + qs == ps;
    } else {
      var n := |qs| - 1;
      PickedConcat(ps, qs[..n]);
      assert (ps + qs)[..|ps + qs| - 1] == ps + qs[..n];
    }
  }

  lemma {:induction false} PickedOneMore(p: Pick)
    ensures PickedShape([p]) == if p.Many? then [|p.at|] else []
  {
    assert [p][..0] == [];
    assert PickedShape([p][..0]) == [];
  }

  predicate NoLonger(ps: seq<Pick>, m: nat) {
    forall d :: 0 <= d < |ps| && ps[d].Many? ==> |ps[d].at| <= m
  }

  lemma {:induction false} PickedNoLonger(ps: seq<Pick>, m: nat, k: nat)
    requires NoLonger(ps, m) && k < |PickedShape(ps)|
    ensures PickedShape(ps)[k] <= m
    decreases |ps|
  {
    var n := |ps| - 1;
    if k < |PickedShape(ps[..n])| {
      PickedNoLonger(ps[..n], m, k);
    }
  }

  /** Two lists of picks that first differ at `q`, where one keeps the whole of an axis of length `n` and the other less, or nothing
      while all its other axes are shorter, pick tensors of different shapes. */
  lemma {:induction false} DifferentShapes(ps: seq<Pick>, qs: seq<Pick>, q: nat, n: nat, m: nat)
    requires q < |ps| == |qs| && ps[..q] == qs[..q]
    requires qs[q].Many? && |qs[q].at| == n
    requires if ps[q].Many? then |ps[q].at| < n else NoLonger(ps[q + 1..], m) && m < n
    ensures PickedShape(ps) != PickedShape(qs)
  {
    var a := PickedShape(ps[..q]);
    SplitPicked(ps, q);
    SplitPicked(qs, q);
    if PickedShape(ps) == PickedShape(qs) {
      assert PickedShape(qs)[|a|] == n;
      if ps[q].One? {
        assert PickedShape(ps)[|a|] == PickedShape(ps[q + 1..])[0];
        PickedNoLonger(ps[q + 1..], m, 0);
      }
    }
  }

  lemma {:induction false} SplitPicked(ps: seq<Pick>, q: nat)
    requires q < |ps|
    ensures PickedShape(ps) == PickedShape(ps[..q]) + (if ps[q].Many? then [|ps[q].at|] else []) + PickedShape(ps[q + 1..])
  {
    assert ps == ps[..q] + [ps[q]] + ps[q + 1..];
    PickedConcat(ps[..q] + [ps[q]], ps[q + 1..]);
    PickedConcat(ps[..q], [ps[q]]);
    PickedOneMore(ps[q]);
  }

  // ----- a tensor that tells the two tuples apart

  /** A tensor of the given shape. */
  function OfShape(s: seq<nat>): (x: Tensor)
    ensures x.shape == s
  {
    Build(s, _ => 0.0)
  }

  /** Two index operations both fail, or give the same. */
  predicate SameOutcome(x: Result<Tensor>, y: Result<Tensor>) {
    x == y || (x.Err? && y.Err?)
  }

  /** The tuples give the same for every tensor of `n` axes. */
  ghost predicate SameForAll(code: seq<Index>, dense: seq<Index>, n: nat) {
    forall x: Tensor :: |x.shape| == n ==> SameOutcome(GetItem(x, code), GetItem(x, dense))
  }

  /** Axes of length `m`, but for axis `q` of length `k`. */
  function Lengths(n: nat, m: nat, q: nat, k: nat): (s: seq<nat>)
    ensures |s| == n
  {
    seq(n, d => if d == q then k else m)
  }

  lemma {:induction false} ItemResolves(x: Tensor, full: seq<Index>)
    requires |full| == |x.shape| && ResolveAll(full, x.shape).Ok?
    ensures GetItem(x, full).Ok? && GetItem(x, full).value.shape == PickedShape(ResolveAll(full, x.shape).value)
  {
    assert PadIndices(full, |x.shape|) == full;
  }

  /** The tuples first differ at `q`, where the first one keeps less than the whole axis. */
  predicate DiffersAt(code: seq<Index>, dense: seq<Index>, q: nat, k: nat, m: nat)
    requires q < |code| == |dense|
  {
    && (forall d :: 0 <= d < |code| && d != q ==> Resolve(code[d], m).Ok? && Resolve(dense[d], m).Ok?)
    && (forall d :: 0 <= d < q ==> Resolve(code[d], m) == Resolve(dense[d], m))
    && Resolve(dense[q], k) == Ok(Whole(k)) && Resolve(code[q], k).Ok?
    && (if code[q].Slice? then |Resolve(code[q], k).value.at| < k else m < k)
  }

  lemma {:induction false} ToldApart(code: seq<Index>, dense: seq<Index>, q: nat, k: nat, m: nat)
    requires q < |code| == |dense| && (forall d :: 0 <= d < |code| ==> !BadStep(code[d])) && DiffersAt(code, dense, q, k, m)
    ensures !SameForAll(code, dense, |code|)
  {
    var s := Lengths(|code|, m, q, k);
    var x := OfShape(s);
    AllAccept(code, s);
    AllAccept(dense, s);
    PicksDiffer(code, dense, q, k, m, s);
    ItemResolves(x, code);
    ItemResolves(x, dense);
    assert !SameOutcome(GetItem(x, code), GetItem(x, dense));
  }

  lemma {:induction false} PicksDiffer(code: seq<Index>, dense: seq<Index>, q: nat, k: nat, m: nat, s: seq<nat>)
    requires q < |code| == |dense| && (forall d :: 0 <= d < |code| ==> !BadStep(code[d])) && DiffersAt(code, dense, q, k, m)
    requires s == Lengths(|code|, m, q, k) && ResolveAll(code, s).Ok? && ResolveAll(dense, s).Ok?
    ensures PickedShape(ResolveAll(code, s).value) != PickedShape(ResolveAll(dense, s).value)
  {
    var ps, qs := ResolveAll(code, s).value, ResolveAll(dense, s).value;
    PicksAre(code, s);
    PicksAre(dense, s);
    SameStart(code, dense, q, k, m, s);
    UnitRange(0, k);
    if code[q].Select? {
      RestNoLonger(code, s, q, m);
    }
    DifferentShapes(ps, qs, q, k, m);
  }

  lemma {:induction false} SameStart(code: seq<Index>, dense: seq<Index>, q: nat, k: nat, m: nat, s: seq<nat>)
    requires q < |code| == |dense| && DiffersAt(code, dense, q, k, m)
    requires s == Lengths(|code|, m, q, k) && ResolveAll(code, s).Ok? && ResolveAll(dense, s).Ok?
    ensures ResolveAll(code, s).value[..q] == ResolveAll(dense, s).value[..q]
  {
    PicksAre(code, s);
    PicksAre(dense, s);
  }

  lemma {:induction false} PicksAre(full: seq<Index>, s: seq<nat>)
    requires |full| == |s| && ResolveAll(full, s).Ok?
    ensures |ResolveAll(full, s).value| == |s|
    ensures forall d :: 0 <= d < |s| ==> Resolve(full[d], s[d]) == Ok(ResolveAll(full, s).value[d])
  {
    forall d | 0 <= d < |s| ensures Resolve(full[d], s[d]) == Ok(ResolveAll(full, s).value[d]) {
      ResolvedPick(full, s, d);
    }
  }

  lemma {:induction false} RestNoLonger(full: seq<Index>, s: seq<nat>, q: nat, m: nat)
    requires |full| == |s| && q < |s| && ResolveAll(full, s).Ok? && (forall d :: 0 <= d < |full| ==> !BadStep(full[d]))
    requires forall d :: q < d < |s| ==> s[d] == m
    ensures NoLonger(ResolveAll(full, s).value[q + 1..], m)
  {
    var ps := ResolveAll(full, s).value;
    PicksAre(full, s);
    var rest := ps[q + 1..];
    forall d | 0 <= d < |rest| && rest[d].Many? ensures |rest[d].at| <= m {
      ShortSlice(full[q + 1 + d], s[q + 1 + d]);
    }
  }

  // ----- the ellipsis

  /** The tuples as the code and as the dense tensor expand them, with an entry for every axis. */
  function CodeTuple(pre: seq<Index>, post: seq<Index>, n: nat): (full: seq<Index>)
    requires 2 * (|pre| + |post|) <= n
    ensures |full| == n
  {
    pre + Fill(|pre| + |post|) + post + Fill(n - 2 * (|pre| + |post|))
  }

  lemma {:induction false} CodeIsPadded(pre: seq<Index>, post: seq<Index>, n: nat)
    requires post != []
    ensures FactoredTuple(OneEllipsis(pre, post)) == pre + Fill(|pre| + |post|) + post
    ensures 2 * (|pre| + |post|) <= n ==> PadIndices(FactoredTuple(OneEllipsis(pre, post)), n) == CodeTuple(pre, post, n)
  {
    var es := OneEllipsis(pre, post);
    assert es[|es| - 1] == Plain(post[|post| - 1]);
    ExpandOne(pre, post, |pre| + |post|);
  }


  /** An inner ellipsis gives the same for every tensor of `n` axes exactly when no tensor is accepted, when there are twice as many
      axes as entries, or when there are more and every entry behind the ellipsis picks whole axes. */
  lemma {:induction false} EllipsisAgrees(pre: seq<Index>, post: seq<Index>, n: nat)
    requires post != [] && |pre| + |post| <= n
    ensures SameForAll(FactoredTuple(OneEllipsis(pre, post)), DenseTuple(pre, post, n), n) <==>
            || AnyBad(pre + post)
            || n == 2 * (|pre| + |post|)
            || (n > 2 * (|pre| + |post|) && forall i :: 0 <= i < |post| ==> PicksWhole(post[i]))
  {
    var k := |pre| + |post|;
    var code, dense := FactoredTuple(OneEllipsis(pre, post)), DenseTuple(pre, post, n);
    CodeIsPadded(pre, post, n);
    if AnyBad(pre + post) {
      BothFail(pre, post, n);
    } else if n == 2 * k {
      InnerEllipsis(pre, post, n);
    } else if n < 2 * k {
      OnlyDense(pre, post, n);
    } else if forall i :: 0 <= i < |post| ==> PicksWhole(post[i]) {
      forall x: Tensor | |x.shape| == n ensures SameOutcome(GetItem(x, code), GetItem(x, dense)) {
        WholeTail(x, pre, post);
      }
    } else {
      PartTail(pre, post, n);
    }
  }

  lemma {:induction false} BadInside(pre: seq<Index>, post: seq<Index>, x: seq<Index>, y: seq<Index>)
    requires AnyBad(pre + post)
    ensures AnyBad(pre + x + post + y)
  {
    var i :| 0 <= i < |pre + post| && BadStep((pre + post)[i]);
    var full := pre + x + post + y;
    if i < |pre| {
      assert full[i] == pre[i];
    } else {
      assert full[i + |x|] == post[i - |pre|];
    }
  }

  lemma {:induction false} BothFail(pre: seq<Index>, post: seq<Index>, n: nat)
    requires post != [] && |pre| + |post| <= n && AnyBad(pre + post)
    ensures SameForAll(FactoredTuple(OneEllipsis(pre, post)), DenseTuple(pre, post, n), n)
  {
    var k := |pre| + |post|;
    var code, dense := FactoredTuple(OneEllipsis(pre, post)), DenseTuple(pre, post, n);
    CodeIsPadded(pre, post, n);
    forall x: Tensor | |x.shape| == n ensures SameOutcome(GetItem(x, code), GetItem(x, dense)) {
      BadInside(pre, post, Fill(n - k), []);
      assert PadIndices(dense, n) == pre + Fill(n - k) + post + [];
      BadFails(PadIndices(dense, n), x.shape);
      if 2 * k <= n {
        BadInside(pre, post, Fill(k), Fill(n - 2 * k));
        BadFails(CodeTuple(pre, post, n), x.shape);
      }
    }
  }

  lemma {:induction false} DenseAccepts(pre: seq<Index>, post: seq<Index>, n: nat, m: nat, d: nat)
    requires |pre| + |post| <= n && !AnyBad(pre + post) && m >= Enough(pre + post) && d < n
    ensures Resolve(DenseTuple(pre, post, n)[d], m).Ok? && !BadStep(DenseTuple(pre, post, n)[d])
  {
    EntryAccepts(pre, post, m, DenseTuple(pre, post, n)[d], if d < |pre| then d else d - (n - |pre| - |post|));
  }

  lemma {:induction false} CodeAccepts(pre: seq<Index>, post: seq<Index>, n: nat, m: nat, d: nat)
    requires 2 * (|pre| + |post|) <= n && !AnyBad(pre + post) && m >= Enough(pre + post) && d < n
    ensures Resolve(CodeTuple(pre, post, n)[d], m).Ok? && !BadStep(CodeTuple(pre, post, n)[d])
  {
    EntryAccepts(pre, post, m, CodeTuple(pre, post, n)[d], if d < |pre| then d else d - (|pre| + |post|));
  }

  /** A whole slice, or entry `i`. */
  lemma {:induction false} EntryAccepts(pre: seq<Index>, post: seq<Index>, m: nat, ix: Index, i: int)
    requires !AnyBad(pre + post) && m >= Enough(pre + post)
    requires ix == FULL || (0 <= i < |pre + post| && ix == (pre + post)[i])
    ensures Resolve(ix, m).Ok? && !BadStep(ix)
  {
    Accepts(ix, m);
  }

  lemma {:induction false} OnlyDense(pre: seq<Index>, post: seq<Index>, n: nat)
    requires post != [] && |pre| + |post| <= n < 2 * (|pre| + |post|) && !AnyBad(pre + post)
    ensures !SameForAll(FactoredTuple(OneEllipsis(pre, post)), DenseTuple(pre, post, n), n)
  {
    var m, dense := Enough(pre + post), DenseTuple(pre, post, n);
    var x := OfShape(Lengths(n, m, n, m));
    CodeIsPadded(pre, post, n);
    forall d | 0 <= d < n ensures Resolve(dense[d], x.shape[d]).Ok? {
      DenseAccepts(pre, post, n, m, d);
    }
    AllAccept(dense, x.shape);
    ItemResolves(x, dense);
    assert !SameOutcome(GetItem(x, FactoredTuple(OneEllipsis(pre, post))), GetItem(x, dense));
  }

  /** The first entry that does not pick whole axes. */
  lemma {:induction false} FirstPartial(post: seq<Index>, j: nat) returns (i: nat)
    requires j < |post| && !PicksWhole(post[j])
    ensures i < |post| && !PicksWhole(post[i]) && forall h :: 0 <= h < i ==> PicksWhole(post[h])
    decreases j
  {
    if h :| 0 <= h < j && !PicksWhole(post[h]) {
      i := FirstPartial(post, h);
    } else {
      i := j;
    }
  }

  /** A length on which the entry shows that it does not pick whole axes. */
  lemma {:induction false} Telling(ix: Index, m: nat) returns (k: nat)
    requires !PicksWhole(ix) && !BadStep(ix) && (ix.Select? ==> 0 <= ix.i + m < 2 * m)
    ensures Resolve(ix, k).Ok?
    ensures if ix.Slice? then |Resolve(ix, k).value.at| < k else m < k
  {
    if ix.Slice? {
      k :| Resolve(ix, k) != Resolve(FULL, k);
      ShortSlice(ix, k);
    } else {
      k := m + 1;
    }
  }

  lemma {:induction false} PartTail(pre: seq<Index>, post: seq<Index>, n: nat)
    requires post != [] && n > 2 * (|pre| + |post|) && !AnyBad(pre + post)
    requires exists j :: 0 <= j < |post| && !PicksWhole(post[j])
    ensures !SameForAll(FactoredTuple(OneEllipsis(pre, post)), DenseTuple(pre, post, n), n)
  {
    var j :| 0 <= j < |post| && !PicksWhole(post[j]);
    var i := FirstPartial(post, j);
    PartAt(pre, post, n, i);
    SameWhenPadded(pre, post, n);
  }

  lemma {:induction false} PartAt(pre: seq<Index>, post: seq<Index>, n: nat, i: nat)
    requires n > 2 * (|pre| + |post|) && !AnyBad(pre + post)
    requires i < |post| && !PicksWhole(post[i]) && forall h :: 0 <= h < i ==> PicksWhole(post[h])
    ensures !SameForAll(CodeTuple(pre, post, n), DenseTuple(pre, post, n), n)
  {
    var m := Enough(pre + post);
    assert (pre + post)[|pre| + i] == post[i];
    var k := Telling(post[i], m);
    TuplesDiffer(pre, post, n, i, k, m);
    forall d | 0 <= d < n ensures !BadStep(CodeTuple(pre, post, n)[d]) {
      CodeAccepts(pre, post, n, m, d);
    }
    ToldApart(CodeTuple(pre, post, n), DenseTuple(pre, post, n), |pre| + |pre| + |post| + i, k, m);
  }

  lemma {:induction false} SameWhenPadded(pre: seq<Index>, post: seq<Index>, n: nat)
    requires post != [] && n > 2 * (|pre| + |post|)
    ensures SameForAll(FactoredTuple(OneEllipsis(pre, post)), DenseTuple(pre, post, n), n) ==>
            SameForAll(CodeTuple(pre, post, n), DenseTuple(pre, post, n), n)
  {
    var short, code, dense := FactoredTuple(OneEllipsis(pre, post)), CodeTuple(pre, post, n), DenseTuple(pre, post, n);
    CodeIsPadded(pre, post, n);
    if SameForAll(short, dense, n) {
      forall x: Tensor | |x.shape| == n ensures SameOutcome(GetItem(x, code), GetItem(x, dense)) {
        PaddedItem(x, short);
        assert SameOutcome(GetItem(x, short), GetItem(x, dense));
      }
    }
  }

  lemma {:induction false} TuplesDiffer(pre: seq<Index>, post: seq<Index>, n: nat, i: nat, k: nat, m: nat)
    requires n > 2 * (|pre| + |post|) && !AnyBad(pre + post) && m >= Enough(pre + post)
    requires i < |post| && forall h :: 0 <= h < i ==> PicksWhole(post[h])
    requires Resolve(post[i], k).Ok? && if post[i].Slice? then |Resolve(post[i], k).value.at| < k else m < k
    ensures DiffersAt(CodeTuple(pre, post, n), DenseTuple(pre, post, n), |pre| + |pre| + |post| + i, k, m)
  {
    var code, dense := CodeTuple(pre, post, n), DenseTuple(pre, post, n);
    var q := |pre| + |pre| + |post| + i;
    forall d | 0 <= d < n ensures Resolve(code[d], m).Ok? && Resolve(dense[d], m).Ok? {
      CodeAccepts(pre, post, n, m, d);
      DenseAccepts(pre, post, n, m, d);
    }
    forall d | 0 <= d < q ensures Resolve(code[d], m) == Resolve(dense[d], m) {
      if d >= |pre| {
        WholeBefore(pre, post, n, i, d);
      }
    }
    WholeBefore(pre, post, n, i, q);
    assert Resolve(dense[q], k) == Resolve(FULL, k);
  }

  /** Up to the entry in question both tuples pick whole axes behind `pre`, and the dense one there, too. */
  lemma {:induction false} WholeBefore(pre: seq<Index>, post: seq<Index>, n: nat, i: nat, d: nat)
    requires n > 2 * (|pre| + |post|) && i < |post| && |pre| <= d <= |pre| + |pre| + |post| + i
    requires forall h :: 0 <= h < i ==> PicksWhole(post[h])
    ensures PicksWhole(DenseTuple(pre, post, n)[d])
    ensures d < |pre| + |pre| + |post| + i ==> PicksWhole(CodeTuple(pre, post, n)[d])
    ensures d == |pre| + |pre| + |post| + i ==> CodeTuple(pre, post, n)[d] == post[i]
  {
    var at := |pre| + |pre| + |post|;
    assert PicksWhole(FULL);
    if d >= n - |post| {
      assert DenseTuple(pre, post, n)[d] == post[d - (n - |post|)];
    }
    if d >= at {
      assert CodeTuple(pre, post, n)[d] == post[d - at];
    }
  }

  // ----- factored tensors

  /** What the factors accept, the product accepts. */
  lemma {:induction false} ProductAccepts(t: Lora, ixs: seq<Index>)
    requires TupleOfFactors(t, ixs).Ok? && Aligned(t)
    ensures |ixs| <= |t.a.shape| && GetItem(Materialize(t), ixs).Ok?
  {
    var n := |t.a.shape|;
    var full := PadIndices(ixs, n);
    EntriesResolve(t, full);
    AllAccept(full, Shape(t));
  }

  lemma {:induction false} EntriesResolve(t: Lora, full: seq<Index>)
    requires |full| == |t.a.shape| && FullTupleOfFactors(t, full).Ok?
    ensures forall d :: 0 <= d < |full| ==> Resolve(full[d], Shape(t)[d]).Ok?
  {
    var n := |full|;
    var lead := LeadIndices(full[..n - 2], t.a.shape).value;
    ItemEntriesResolve(t.b, full[..n - 1]);
    ItemEntriesResolve(t.a, lead + [FULL, full[n - 1]]);
    assert (lead + [FULL, full[n - 1]])[n - 1] == full[n - 1];
    forall d | 0 <= d < n ensures Resolve(full[d], Shape(t)[d]).Ok? {
      if d < n - 1 {
        assert full[..n - 1][d] == full[d] && Shape(t)[d] == t.b.shape[d];
      }
    }
  }

  lemma {:induction false} ItemEntriesResolve(x: Tensor, ixs: seq<Index>)
    requires GetItem(x, ixs).Ok?
    ensures |ixs| <= |x.shape| && forall d :: 0 <= d < |ixs| ==> Resolve(ixs[d], x.shape[d]).Ok?
  {
    var full := PadIndices(ixs, |x.shape|);
    PicksAre(full, x.shape);
    forall d | 0 <= d < |ixs| ensures Resolve(ixs[d], x.shape[d]).Ok? {
      assert full[d] == ixs[d];
    }
  }

  /** How many axes a tuple keeps. */
  function Kept(ixs: seq<Index>): nat {
    if |ixs| == 0 then 0 else Kept(ixs[..|ixs| - 1]) + (if ixs[|ixs| - 1].Slice? then 1 else 0)
  }

  lemma {:induction false} KeptConcat(x: seq<Index>, y: seq<Index>)
    ensures Kept(x + y) == Kept(x) + Kept(y)
    decreases |y|
  {
    if |y| == 0 {
      assert x + y == x;
    } else {
      KeptConcat(x, y[..|y| - 1]);
      assert (x + y)[..|x + y| - 1] == x + y[..|y| - 1];
    }
  }

  lemma {:induction false} KeptFill(n: nat)
    ensures Kept(Fill(n)) == n
  {
    if n > 0 {
      KeptFill(n - 1);
      assert Fill(n)[..n - 1] == Fill(n - 1);
    }
  }

  lemma {:induction false} KeptAxes(full: seq<Index>, s: seq<nat>)
    requires |full| == |s| && ResolveAll(full, s).Ok?
    ensures |PickedShape(ResolveAll(full, s).value)| == Kept(full)
    decreases |full|
  {
    if |full| > 0 {
      var n := |full| - 1;
      KeptAxes(full[..n], s[..n]);
      KeptSnoc(full, s, n);
    }
  }

  lemma {:induction false} KeptSnoc(full: seq<Index>, s: seq<nat>, n: nat)
    requires |full| == |s| == n + 1 && ResolveAll(full, s).Ok?
    ensures ResolveAll(full[..n], s[..n]).Ok?
    ensures |PickedShape(ResolveAll(full, s).value)| ==
            |PickedShape(ResolveAll(full[..n], s[..n]).value)| + if full[n].Slice? then 1 else 0
  {
    var ps := ResolveAll(full[..n], s[..n]).value;
    PickedConcat(ps, [Resolve(full[n], s[n]).value]);
    PickedOneMore(Resolve(full[n], s[n]).value);
  }

  lemma {:induction false} KeptAround(x: seq<Index>, k: nat, y: seq<Index>)
    ensures Kept(x + Fill(k) + y) == Kept(x) + k + Kept(y)
  {
    KeptConcat(x + Fill(k), y);
    KeptConcat(x, Fill(k));
    KeptFill(k);
  }

  lemma {:induction false} KeptSame(pre: seq<Index>, post: seq<Index>, n: nat)
    requires 2 * (|pre| + |post|) <= n
    ensures Kept(CodeTuple(pre, post, n)) == Kept(DenseTuple(pre, post, n))
  {
    var k := |pre| + |post|;
    KeptAround(pre, k, post);
    KeptAround(pre + Fill(k) + post, n - 2 * k, []);
    assert pre + Fill(k) + post + Fill(n - 2 * k) + [] == CodeTuple(pre, post, n);
    KeptAround(pre, n - |pre| - |post|, post);
  }

  lemma {:induction false} RankIsKept(x: Tensor, full: seq<Index>)
    requires |full| == |x.shape| && GetItem(x, full).Ok?
    ensures |GetItem(x, full).value.shape| == Kept(full)
  {
    assert PadIndices(full, |x.shape|) == full;
    KeptAxes(full, x.shape);
  }

  /** Both tuples keep as many axes. */
  lemma {:induction false} SameRank(x: Tensor, pre: seq<Index>, post: seq<Index>)
    requires post != [] && 2 * (|pre| + |post|) <= |x.shape|
    requires GetItem(x, FactoredTuple(OneEllipsis(pre, post))).Ok? && GetItem(x, DenseTuple(pre, post, |x.shape|)).Ok?
    ensures |GetItem(x, FactoredTuple(OneEllipsis(pre, post))).value.shape| == |GetItem(x, DenseTuple(pre, post, |x.shape|)).value.shape|
  {
    var n := |x.shape|;
    CodeIsPadded(pre, post, n);
    PaddedItem(x, FactoredTuple(OneEllipsis(pre, post)));
    RankIsKept(x, CodeTuple(pre, post, n));
    RankIsKept(x, DenseTuple(pre, post, n));
    KeptSame(pre, post, n);
  }

  /** An inner ellipsis on the factors is right exactly when the tuple that the code makes of it is supported and picks from the
      product what the ellipsis does. */
  lemma {:induction false} EllipsisRight(t: Lora, pre: seq<Index>, post: seq<Index>, u: Lora, m: Tensor)
    requires Aligned(t) && post != [] && |pre| + |post| <= |t.a.shape|
    requires TupleOfFactors(t, FactoredTuple(OneEllipsis(pre, post))) == Ok(u)
    requires GetItem(Materialize(t), DenseTuple(pre, post, |t.a.shape|)) == Ok(m)
    ensures var code := FactoredTuple(OneEllipsis(pre, post));
            && |code| <= |t.a.shape|
            && ((Aligned(u) && Materialize(u) == m) <==> TupleSupported(t, code) && GetItem(Materialize(t), code) == Ok(m))
  {
    var code := FactoredTuple(OneEllipsis(pre, post));
    ProductAccepts(t, code);
    CodeIsPadded(pre, post, |t.a.shape|);
    SameRank(Materialize(t), pre, post);
    var m' := GetItem(Materialize(t), code).value;
    TupleExact(t, code, u, m');
    if Aligned(u) && Materialize(u) == m {
      AlignedIsSupported(t, code, u, m');
    }
  }

  /** A result that can be multiplied and has as many axes as the right one comes from a supported tuple. */
  lemma {:induction false} AlignedIsSupported(t: Lora, ixs: seq<Index>, u: Lora, m: Tensor)
    requires Aligned(t) && |ixs| <= |t.a.shape| && TupleOfFactors(t, ixs) == Ok(u) && GetItem(Materialize(t), ixs) == Ok(m)
    requires Aligned(u) && |Shape(u)| == |m.shape|
    ensures TupleSupported(t, ixs)
  {
    var full := PadIndices(ixs, |t.a.shape|);
    PaddedItem(Materialize(t), ixs);
    GetItemResolves(Materialize(t), ixs);
    var pa, ps, px, py := TupleParts(t, full);
    TupleShapes(t, u, m, pa, ps, px, py);
    TupleOfSlices(t, u, m, pa, ps, px, py);
    SupportedMeansWhole(t, ixs, ps);
  }
}
