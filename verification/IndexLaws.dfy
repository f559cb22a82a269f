/** What indexing, stacking and concatenating mean, element by element. */
module IndexLaws {
  import opened Results
  import opened Shapes
  import opened Tensors
  import opened TensorLaws

  // ----- one entry

  /** A position, counted from the start, or from the end if negative; all others are refused. */
  lemma {:induction false} SelectMeans(i: int, n: nat, p: nat)
    ensures Resolve(Select(i), n) == Ok(One(p)) <==> MeansAxis(i, n, p)
  {
  }

  lemma {:induction false} SelectRefuses(i: int, n: nat)
    ensures Resolve(Select(i), n).Err? <==> i + n < 0 || i >= n
    ensures Resolve(Select(i), n).Ok? ==> Resolve(Select(i), n).value.One?
  {
  }

  /** `p` is the bound `i` of a slice of an axis of length `n`: itself, or counted from the end, and moved inside if it is outside. */
  predicate MeansBound(i: int, n: nat, p: nat) {
    (p == i && i <= n) || (p == n && i > n) || (p == i + n && i < 0) || (p == 0 && i + n < 0)
  }

  predicate MeansStart(start: Option<int>, n: nat, p: nat) {
    if start.None? then p == 0 else MeansBound(start.value, n, p)
  }

  predicate MeansStop(stop: Option<int>, n: nat, p: nat) {
    if stop.None? then p == n else MeansBound(stop.value, n, p)
  }

  /** The positions lo, lo + step, lo + 2 step and so on, as long as they are below hi. */
  predicate Counts(at: seq<nat>, lo: nat, hi: nat, step: nat) {
    && (forall k :: 0 <= k < |at| ==> at[k] == lo + k * step && at[k] < hi)
    && lo + |at| * step >= hi
  }

  lemma {:induction false} RangeCounts(lo: nat, hi: nat, step: nat)
    requires step > 0
    ensures Counts(Range(lo, hi, step), lo, hi, step)
    decreases hi - lo
  {
    if lo < hi {
      RangeCounts(lo + step, hi, step);
      var at, rest := Range(lo, hi, step), Range(lo + step, hi, step);
      forall k | 0 <= k < |at| ensures at[k] == lo + k * step && at[k] < hi {
        if k > 0 {
          assert at[k] == rest[k - 1];
          OneMore(k - 1, step);
        }
      }
      OneMore(|rest|, step);
    }
  }

  lemma {:induction false} OneMore(k: int, step: int)
    ensures (k + 1) * step == k * step + step
  {
  }

  /** A slice picks every `step`-th position between its bounds; steps below one are refused. */
  lemma {:induction false} SliceMeans(start: Option<int>, stop: Option<int>, step: Option<int>, n: nat) returns (lo: nat, hi: nat)
    requires step.Some? ==> step.value > 0
    ensures MeansStart(start, n, lo) && MeansStop(stop, n, hi)
    ensures var r := Resolve(Slice(start, stop, step), n);
            r.Ok? && r.value.Many? && Counts(r.value.at, lo, hi, if step.Some? then step.value else 1)
  {
    lo := if start.Some? then Clamp(start.value, n) else 0;
    hi := if stop.Some? then Clamp(stop.value, n) else n;
    RangeCounts(lo, hi, if step.Some? then step.value else 1);
  }

  lemma {:induction false} SliceRefuses(start: Option<int>, stop: Option<int>, step: int, n: nat)
    requires step <= 0
    ensures Resolve(Slice(start, stop, Some(step)), n).Err?
  {
  }

  /** A bound means one position. */
  lemma {:induction false} OneBound(i: int, n: nat, p: nat, q: nat)
    requires MeansBound(i, n, p) && MeansBound(i, n, q)
    ensures p == q <= n
  {
  }

  // ----- tuples

  /** How many of the first `d` entries keep their axis. */
  function KeptBefore(ps: seq<Pick>, d: nat): (k: nat)
    requires d <= |ps|
    ensures k <= d
  {
    if d == 0 then 0 else KeptBefore(ps, d - 1) + (if ps[d - 1].Many? then 1 else 0)
  }

  /** The positions that element `c` of the result comes from: the selected ones, and the ones that its coordinates pick. */
  predicate ComesFrom(ps: seq<Pick>, c: seq<nat>, e: seq<nat>) {
    && |e| == |ps|
    && forall d :: 0 <= d < |ps| ==> if ps[d].One? then e[d] == ps[d].i else Picked(ps, c, e, d)
  }

  predicate Picked(ps: seq<Pick>, c: seq<nat>, e: seq<nat>, d: nat)
    requires d < |ps| == |e| && ps[d].Many?
  {
    KeptBefore(ps, d) < |c| && c[KeptBefore(ps, d)] < |ps[d].at| && e[d] == ps[d].at[c[KeptBefore(ps, d)]]
  }

  lemma {:induction false} KeptInPrefix(ps: seq<Pick>, qs: seq<Pick>, d: nat)
    requires d <= |ps| && ps <= qs
    ensures KeptBefore(ps, d) == KeptBefore(qs, d)
    decreases d
  {
    if d > 0 {
      KeptInPrefix(ps, qs, d - 1);
    }
  }

  lemma {:induction false} ShapeIsKept(ps: seq<Pick>, d: nat)
    requires d < |ps| && ps[d].Many?
    ensures |PickedShape(ps)| == KeptBefore(ps, |ps|) > KeptBefore(ps, d)
    ensures PickedShape(ps)[KeptBefore(ps, d)] == |ps[d].at|
    decreases |ps|
  {
    var n := |ps| - 1;
    KeptLength(ps);
    KeptLength(ps[..n]);
    KeptInPrefix(ps[..n], ps, d);
    KeptInPrefix(ps[..n], ps, n);
    if d < n {
      ShapeIsKept(ps[..n], d);
    }
  }

  lemma {:induction false} KeptLength(ps: seq<Pick>)
    ensures |PickedShape(ps)| == KeptBefore(ps, |ps|)
    decreases |ps|
  {
    if |ps| > 0 {
      var n := |ps| - 1;
      KeptLength(ps[..n]);
      KeptInPrefix(ps[..n], ps, n);
    }
  }

  lemma {:induction false} CoordsComeFrom(ps: seq<Pick>, c: seq<nat>)
    requires InBounds(PickedShape(ps), c)
    ensures ComesFrom(ps, c, PickedCoords(ps, c))
    decreases |ps|
  {
    if |ps| > 0 {
      var n := |ps| - 1;
      var c' := if ps[n].One? then c else c[..|c| - 1];
      CoordsComeFrom(ps[..n], c');
      LastComesFrom(ps, c, c', n);
    }
  }

  lemma {:induction false} LastComesFrom(ps: seq<Pick>, c: seq<nat>, c': seq<nat>, n: nat)
    requires n == |ps| - 1 && InBounds(PickedShape(ps), c) && c' == (if ps[n].One? then c else c[..|c| - 1])
    requires InBounds(PickedShape(ps[..n]), c') && ComesFrom(ps[..n], c', PickedCoords(ps[..n], c'))
    ensures ComesFrom(ps, c, PickedCoords(ps, c))
  {
    var e, e' := PickedCoords(ps, c), PickedCoords(ps[..n], c');
    assert e[..n] == e';
    KeptLength(ps);
    KeptInPrefix(ps[..n], ps, n);
    KeptLength(ps[..n]);
    forall d | 0 <= d < |ps| ensures if ps[d].One? then e[d] == ps[d].i else Picked(ps, c, e, d) {
      KeptInPrefix(ps[..n], ps, if d < n then d else n);
      if d < n {
        assert ps[..n][d] == ps[d] && e[d] == e'[d];
        if ps[d].Many? {
          assert Picked(ps[..n], c', e', d);
        }
      }
    }
  }

  /** An index tuple: missing entries keep their axes whole, each entry is resolved on its axis, and the elements are those picked. */
  lemma {:induction false} GetItemMeans(x: Tensor, ixs: seq<Index>, y: Tensor) returns (ps: seq<Pick>)
    requires GetItem(x, ixs) == Ok(y)
    ensures |ixs| <= |x.shape| == |ps|
    ensures forall d :: 0 <= d < |ps| ==> Resolve(if d < |ixs| then ixs[d] else FULL, x.shape[d]) == Ok(ps[d])
    ensures |y.shape| == KeptBefore(ps, |ps|)
    ensures forall d :: 0 <= d < |ps| && ps[d].Many? ==> KeptBefore(ps, d) < |y.shape| && y.shape[KeptBefore(ps, d)] == |ps[d].at|
    ensures forall c, e :: InBounds(y.shape, c) && ComesFrom(ps, c, e) ==> InBounds(x.shape, e) && At(y, c) == At(x, e)
  {
    var full := PadIndices(ixs, |x.shape|);
    ps := ResolveAll(full, x.shape).value;
    EachResolved(full, x.shape);
    KeptLength(ps);
    forall d | 0 <= d < |ps| && ps[d].Many? ensures KeptBefore(ps, d) < |y.shape| && y.shape[KeptBefore(ps, d)] == |ps[d].at| {
      ShapeIsKept(ps, d);
    }
    forall c, e | InBounds(y.shape, c) && ComesFrom(ps, c, e) ensures InBounds(x.shape, e) && At(y, c) == At(x, e) {
      CoordsComeFrom(ps, c);
      OneOrigin(ps, c, e, PickedCoords(ps, c));
      PickAt(x, ps, c);
    }
  }

  lemma {:induction false} OneOrigin(ps: seq<Pick>, c: seq<nat>, e: seq<nat>, f: seq<nat>)
    requires ComesFrom(ps, c, e) && ComesFrom(ps, c, f)
    ensures e == f
  {
    forall d | 0 <= d < |ps| ensures e[d] == f[d] {
      if ps[d].Many? {
        assert Picked(ps, c, e, d) && Picked(ps, c, f, d);
      }
    }
  }

  lemma {:induction false} EachResolved(full: seq<Index>, s: seq<nat>)
    requires |full| == |s| && ResolveAll(full, s).Ok?
    ensures |ResolveAll(full, s).value| == |s|
    ensures forall d :: 0 <= d < |s| ==> Resolve(full[d], s[d]) == Ok(ResolveAll(full, s).value[d])
    decreases |s|
  {
    if |s| > 0 {
      EachResolved(full[..|s| - 1], s[..|s| - 1]);
    }
  }

  lemma {:induction false} AllResolved(full: seq<Index>, s: seq<nat>)
    requires |full| == |s| && forall d :: 0 <= d < |s| ==> Resolve(full[d], s[d]).Ok?
    ensures ResolveAll(full, s).Ok?
    decreases |s|
  {
    if |s| > 0 {
      AllResolved(full[..|s| - 1], s[..|s| - 1]);
    }
  }

  /** A tuple is accepted if it has no more entries than there are axes and each is accepted by its axis. */
  lemma {:induction false} GetItemAccepts(x: Tensor, ixs: seq<Index>)
    requires |ixs| <= |x.shape| && forall d :: 0 <= d < |ixs| ==> Resolve(ixs[d], x.shape[d]).Ok?
    ensures GetItem(x, ixs).Ok?
  {
    AllResolved(PadIndices(ixs, |x.shape|), x.shape);
  }

  // ----- stack and cat

  /** A stack has a new first axis for its tensors, which must have one shape. */
  lemma {:induction false} StackMeans(xs: seq<Tensor>)
    ensures Stack(xs).Ok? <==> |xs| > 0 && forall i :: 0 <= i < |xs| ==> xs[i].shape == xs[0].shape
    ensures Stack(xs).Ok? ==>
              && Stack(xs).value.shape == [|xs|] + xs[0].shape
              && forall i: nat, c: seq<nat> :: i < |xs| && InBounds(xs[i].shape, c) ==> StackElement(xs, Stack(xs).value, i, c)
  {
    if Stack(xs).Ok? {
      var y := Stack(xs).value;
      forall i: nat, c: seq<nat> | i < |xs| && InBounds(xs[i].shape, c) ensures StackElement(xs, y, i, c) {
        assert InBounds([|xs|] + xs[0].shape, [i] + c) && ([i] + c)[1..] == c;
        StackAt(xs, [i] + c);
      }
    }
  }

  predicate StackElement(xs: seq<Tensor>, y: Tensor, i: nat, c: seq<nat>)
    requires i < |xs|
  {
    InBounds(y.shape, [i] + c) && InBounds(xs[i].shape, c) && At(y, [i] + c) == At(xs[i], c)
  }

  /** The lengths of the first axes of the first `i` tensors, together. */
  function FirstLengths(xs: seq<Tensor>, i: nat): nat
    requires i <= |xs| && forall j :: 0 <= j < |xs| ==> |xs[j].shape| > 0
  {
    if i == 0 then 0 else FirstLengths(xs, i - 1) + xs[i - 1].shape[0]
  }

  predicate CatElement(xs: seq<Tensor>, y: Tensor, i: nat, r: nat, c: seq<nat>, at: nat)
    requires i < |xs|
  {
    InBounds(y.shape, [at + r] + c) && InBounds(xs[i].shape, [r] + c) && At(y, [at + r] + c) == At(xs[i], [r] + c)
  }

  lemma {:induction false} LengthsOfRest(xs: seq<Tensor>, i: nat)
    requires 0 < i <= |xs| && forall j :: 0 <= j < |xs| ==> |xs[j].shape| > 0
    ensures FirstLengths(xs, i) == xs[0].shape[0] + FirstLengths(xs[1..], i - 1)
    decreases i
  {
    if i > 1 {
      LengthsOfRest(xs, i - 1);
    }
  }

  lemma {:induction false} CatHasAxes(xs: seq<Tensor>)
    requires Cat(xs).Ok?
    ensures |xs| > 0 && |Cat(xs).value.shape| > 0
    ensures forall i :: 0 <= i < |xs| ==> |xs[i].shape| == |Cat(xs).value.shape| && xs[i].shape[1..] == Cat(xs).value.shape[1..]
    decreases |xs|
  {
    if |xs| > 1 {
      CatHasAxes(xs[1..]);
      forall i | 0 <= i < |xs| ensures |xs[i].shape| == |Cat(xs).value.shape| && xs[i].shape[1..] == Cat(xs).value.shape[1..] {
        if i > 0 { assert xs[i] == xs[1..][i - 1]; }
      }
    }
  }

  /** The first axis holds the tensors one after the other. */
  lemma {:induction false} CatMeans(xs: seq<Tensor>, y: Tensor)
    requires Cat(xs) == Ok(y)
    ensures |xs| > 0 && forall j :: 0 <= j < |xs| ==> |xs[j].shape| > 0
    ensures |y.shape| > 0 && y.shape[0] == FirstLengths(xs, |xs|)
    decreases |xs|
  {
    CatHasAxes(xs);
    if |xs| > 1 {
      CatMeans(xs[1..], Cat(xs[1..]).value);
      LengthsOfRest(xs, |xs|);
    }
  }

  /** Row `r` of tensor `i` comes after the rows of those before it. */
  lemma {:induction false} CatRow(xs: seq<Tensor>, y: Tensor, i: nat, r: nat, c: seq<nat>)
    requires Cat(xs) == Ok(y) && i < |xs| && InBounds(xs[i].shape, [r] + c)
    ensures forall j :: 0 <= j < |xs| ==> |xs[j].shape| > 0
    ensures CatElement(xs, y, i, r, c, FirstLengths(xs, i))
    decreases |xs|
  {
    CatHasAxes(xs);
    if |xs| == 1 {
      assert 0 + r == r && FirstLengths(xs, 0) == 0;
    } else if i == 0 {
      CatUpper(xs[0], Cat(xs[1..]).value, r, c);
    } else {
      CatRow(xs[1..], Cat(xs[1..]).value, i - 1, r, c);
      LowerRow(xs, y, Cat(xs[1..]).value, i, r, c);
    }
  }

  lemma {:induction false} LowerRow(xs: seq<Tensor>, y: Tensor, rest: Tensor, i: nat, r: nat, c: seq<nat>)
    requires 0 < i < |xs| && (forall j :: 0 <= j < |xs| ==> |xs[j].shape| > 0) && Joinable(xs[0], rest) && y == JoinTwo(xs[0], rest)
    requires CatElement(xs[1..], rest, i - 1, r, c, FirstLengths(xs[1..], i - 1))
    ensures CatElement(xs, y, i, r, c, FirstLengths(xs, i))
  {
    var at := FirstLengths(xs[1..], i - 1);
    LengthsOfRest(xs, i);
    CatLower(xs[0], rest, at + r, c);
    assert FirstLengths(xs, i) + r == xs[0].shape[0] + (at + r);
  }

  lemma {:induction false} CatUpper(x: Tensor, rest: Tensor, r: nat, c: seq<nat>)
    requires Joinable(x, rest) && InBounds(x.shape, [r] + c)
    ensures InBounds(JoinTwo(x, rest).shape, [r] + c) && At(JoinTwo(x, rest), [r] + c) == At(x, [r] + c)
  {
    JoinedBounds(x, rest, r, r, c, x);
    JoinAt(x, rest, [r] + c);
  }

  lemma {:induction false} CatLower(x: Tensor, rest: Tensor, r: nat, c: seq<nat>)
    requires Joinable(x, rest) && InBounds(rest.shape, [r] + c)
    ensures InBounds(JoinTwo(x, rest).shape, [x.shape[0] + r] + c)
    ensures At(JoinTwo(x, rest), [x.shape[0] + r] + c) == At(rest, [r] + c)
  {
    JoinedBounds(x, rest, x.shape[0] + r, r, c, rest);
    JoinAt(x, rest, [x.shape[0] + r] + c);
    assert ([x.shape[0] + r] + c)[0 := r] == [r] + c;
  }

  lemma {:induction false} JoinedBounds(x: Tensor, rest: Tensor, q: nat, r: nat, c: seq<nat>, part: Tensor)
    requires Joinable(x, rest) && (part == x || part == rest) && InBounds(part.shape, [r] + c) && q < x.shape[0] + rest.shape[0]
    ensures InBounds([x.shape[0] + rest.shape[0]] + x.shape[1..], [q] + c)
  {
    forall d | 1 <= d < |x.shape| ensures ([q] + c)[d] < ([x.shape[0] + rest.shape[0]] + x.shape[1..])[d] {
      assert ([r] + c)[d] < part.shape[d] && part.shape[1..][d - 1] == x.shape[1..][d - 1];
    }
  }
}
