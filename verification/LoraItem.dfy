/** When `t[i]` and `t[i:j:k]` on the factors are the same on the product. */
module LoraItem {
  import opened Results
  import opened Shapes
  import opened Tensors
  import opened LoraTensors
  import opened LoraIndex
  import opened LoraGetItem

  function Wholes(s: seq<nat>): (ps: seq<Pick>)
    ensures |ps| == |s|
  {
    seq(|s|, d requires 0 <= d < |s| => Whole(s[d]))
  }

  function Fulls(n: nat): (ixs: seq<Index>)
    ensures |ixs| == n
  {
    seq(n, _ => FULL)
  }

  lemma {:induction false} WholeCoords(s: seq<nat>, c: seq<nat>)
    requires InBounds(s, c)
    ensures Fits(Wholes(s), s) && PickedShape(Wholes(s)) == s && PickedCoords(Wholes(s), c) == c
    decreases |s|
  {
    WholesFit(s);
    if |s| > 0 {
      var n := |s| - 1;
      WholeCoords(s[..n], c[..n]);
      WholeCoordsSnoc(s, c, n);
    }
  }

  lemma {:induction false} WholeCoordsSnoc(s: seq<nat>, c: seq<nat>, n: nat)
    requires n == |s| - 1 && InBounds(s, c)
    requires PickedShape(Wholes(s[..n])) == s[..n] && PickedShape(Wholes(s)) == s && PickedCoords(Wholes(s[..n]), c[..n]) == c[..n]
    ensures PickedCoords(Wholes(s), c) == c
  {
    WholeOffset(s[n], c[n]);
    assert Wholes(s) == Wholes(s[..n]) + [Whole(s[n])] && s == s[..n] + [s[n]] && c == c[..n] + [c[n]];
    PickedSnoc(Wholes(s[..n]), Whole(s[n]).at, c);
  }

  lemma {:induction false} WholesFit(s: seq<nat>)
    ensures Fits(Wholes(s), s) && PickedShape(Wholes(s)) == s
    decreases |s|
  {
    if |s| > 0 {
      var n := |s| - 1;
      WholesFit(s[..n]);
      UnitRange(0, s[n]);
      assert Wholes(s)[..n] == Wholes(s[..n]);
    }
  }

  /** Selecting everything changes nothing. */
  lemma {:induction false} PickEverything(x: Tensor)
    ensures Fits(Wholes(x.shape), x.shape) && PickElements(x, Wholes(x.shape)) == x
  {
    WholesFit(x.shape);
    forall c | InBounds(x.shape, c) ensures At(PickElements(x, Wholes(x.shape)), c) == At(x, c) {
      WholeCoords(x.shape, c);
      PickAt(x, Wholes(x.shape), c);
    }
    Extensional(PickElements(x, Wholes(x.shape)), x);
  }

  lemma {:induction false} ResolveOne(ix: Index, n: nat)
    ensures ResolveAll([ix], [n]) == if Resolve(ix, n).Ok? then Ok([Resolve(ix, n).value]) else Err(Resolve(ix, n).error)
  {
    ResolveSnoc([], [], ix, n);
    assert [] + [ix] == [ix] && [] + [n] == [n];
    if Resolve(ix, n).Ok? {
      assert [] + [Resolve(ix, n).value] == [Resolve(ix, n).value];
    }
  }

  /** The picks of one entry on the first axis, and of whole axes after it. */
  function ItemResolved(ix: Index, s: seq<nat>): Result<seq<Pick>>
    requires |s| > 0
  {
    var p :- Resolve(ix, s[0]);
    Ok([p] + Wholes(s[1..]))
  }

  lemma {:induction false} ResolveItem(ix: Index, s: seq<nat>)
    requires |s| > 0
    ensures ResolveAll([ix] + Fulls(|s| - 1), s) == ItemResolved(ix, s)
    decreases |s|
  {
    var n := |s| - 1;
    if n == 0 {
      assert [ix] + Fulls(n) == [ix] && s == [s[0]];
      ResolveOne(ix, s[0]);
      if Resolve(ix, s[0]).Ok? {
        assert [Resolve(ix, s[0]).value] + Wholes(s[1..]) == [Resolve(ix, s[0]).value];
      }
    } else {
      ResolveItem(ix, s[..n]);
      ResolveItemSnoc(ix, s, n);
      WholesSnoc(ix, s, n);
    }
  }

  lemma {:induction false} WholesSnoc(ix: Index, s: seq<nat>, n: nat)
    requires 0 < n == |s| - 1
    ensures var init := ItemResolved(ix, s[..n]);
            ItemResolved(ix, s) == if init.Ok? then Ok(init.value + [Whole(s[n])]) else init
  {
    if Resolve(ix, s[0]).Ok? {
      var p := Resolve(ix, s[0]).value;
      assert [p] + Wholes(s[1..]) == ([p] + Wholes(s[..n][1..])) + [Whole(s[n])];
    }
  }

  lemma {:induction false} ResolveItemSnoc(ix: Index, s: seq<nat>, n: nat)
    requires 0 < n == |s| - 1
    ensures var init := ResolveAll([ix] + Fulls(n - 1), s[..n]);
            ResolveAll([ix] + Fulls(n), s) == if init.Ok? then Ok(init.value + [Whole(s[n])]) else init
  {
    assert [ix] + Fulls(n) == ([ix] + Fulls(n - 1)) + [FULL] && s == s[..n] + [s[n]];
    ResolveSnoc([ix] + Fulls(n - 1), s[..n], FULL, s[n]);
    ResolveFull(s[n]);
  }

  lemma {:induction false} FirstAxis(at: seq<nat>, ps: seq<Pick>)
    ensures PickedShape([Many(at)] + ps) == [|at|] + PickedShape(ps)
  {
    if ps == [] {
      assert [Many(at)] + ps == [] + [Many(at)];
      PickedSnoc([], at, []);
    } else {
      var n := |ps| - 1;
      FirstAxis(at, ps[..n]);
      assert ([Many(at)] + ps)[..n + 1] == [Many(at)] + ps[..n];
    }
  }

  /** `x[ix]` as picks. */
  lemma {:induction false} ItemPicks(x: Tensor, ix: Index)
    requires |x.shape| > 0
    ensures GetItem(x, [ix]).Ok? <==> Resolve(ix, x.shape[0]).Ok?
    ensures Resolve(ix, x.shape[0]).Ok? ==>
              var q := [Resolve(ix, x.shape[0]).value] + Wholes(x.shape[1..]);
              Fits(q, x.shape) && GetItem(x, [ix]) == Ok(PickElements(x, q))
  {
    ResolveItem(ix, x.shape);
    assert PadIndices([ix], |x.shape|) == [ix] + Fulls(|x.shape| - 1);
  }

  /** What a caller can check before `t[ix]`. */
  predicate ItemSupported(t: Lora, ix: Index) {
    || |t.a.shape| == 2
    || ix.Select?
    || t.a.shape[0] == t.b.shape[0]
    || SliceLength(ix, 1) == 1
    || SliceLength(ix, t.b.shape[0]) == 0
  }

  /** Slicing the rows of a matrix. */
  lemma {:induction false} MatrixItem(t: Lora, ix: Index, u: Lora, m: Tensor)
    requires Aligned(t) && |t.a.shape| == 2
    requires ItemOfFactors(t, ix) == Ok(u) && GetItem(Materialize(t), [ix]) == Ok(m)
    ensures Aligned(u) && Materialize(u) == m
  {
    ItemPicks(t.b, ix);
    ItemPicks(Materialize(t), ix);
    PickEverything(t.a);
    var p := Resolve(ix, t.b.shape[0]).value;
    MatrixPicks(Whole(Rank(t)), t.a.shape);
    MatrixPicks(p, t.b.shape);
    MatrixPicks(p, Shape(t));
    PickSound(t, u, [], [], p.at, Whole(Cols(t)).at);
  }

  lemma {:induction false} MatrixPicks(p: Pick, s: seq<nat>)
    requires |s| == 2
    ensures [p] + Wholes(s[1..]) == [] + [p] + [Whole(s[1])]
    ensures p == Whole(s[0]) ==> Wholes(s) == [] + [p] + [Whole(s[1])]
  {
  }

  lemma {:induction false} SplitWholes(p: Pick, s: seq<nat>)
    requires |s| >= 3
    ensures [p] + Wholes(s[1..]) == ([p] + Wholes(Lead(s)[1..])) + [Whole(s[|s| - 2])] + [Whole(s[|s| - 1])]
  {
  }

  /** The leading axes of a batch: the first is indexed, the others are whole. */
  lemma {:induction false} FirstCompatible(ix: Index, sa: seq<nat>, sb: seq<nat>)
    requires Broadcasts(sa, sb) && |sa| > 0 && Resolve(ix, sa[0]).Ok? && Resolve(ix, sb[0]).Ok?
    requires ix.Select? || sa[0] == sb[0] || SliceLength(ix, 1) == 1 || SliceLength(ix, sb[0]) == 0
    ensures Compatible([Resolve(ix, sa[0]).value] + Wholes(sa[1..]), [Resolve(ix, sb[0]).value] + Wholes(sb[1..]), sa, sb)
  {
    var pa := [Resolve(ix, sa[0]).value] + Wholes(sa[1..]);
    var ps := [Resolve(ix, sb[0]).value] + Wholes(sb[1..]);
    forall d | 0 <= d < |sa| ensures PickCompatible(pa[d], ps[d], sa[d], sb[d]) {
      if d > 0 {
        WholeCompatible(sa[d], sb[d]);
      } else if ix.Slice? && sa[0] != sb[0] {
        SliceOfOne(ix);
      }
    }
  }

  lemma {:induction false} WholeCompatible(na: nat, nb: nat)
    requires na == 1 || na == nb
    ensures PickCompatible(Whole(na), Whole(nb), na, nb)
  {
    UnitRange(0, na);
    UnitRange(0, nb);
    if na == 1 {
      assert Whole(na).at == [0];
    }
  }

  /** A slice of an axis of length one selects nothing or its only position. */
  lemma {:induction false} SliceOfOne(ix: Index)
    requires ix.Slice? && Resolve(ix, 1).Ok?
    ensures Resolve(ix, 1).value.at == [] || Resolve(ix, 1).value.at == [0]
  {
    var at := Resolve(ix, 1).value.at;
    RangeIncreases(if ix.start.Some? then Clamp(ix.start.value, 1) else 0,
                   if ix.stop.Some? then Clamp(ix.stop.value, 1) else 1,
                   if ix.step.Some? then ix.step.value else 1);
    if |at| > 0 {
      IncreasingCeiling(at, 1, 0);
    }
  }

  lemma {:induction false} BatchParts(t: Lora, ix: Index, u: Lora, m: Tensor) returns (pa: seq<Pick>, ps: seq<Pick>)
    requires Aligned(t) && |t.a.shape| > 2
    requires ItemOfFactors(t, ix) == Ok(u) && GetItem(Materialize(t), [ix]) == Ok(m)
    ensures Resolve(ix, t.a.shape[0]).Ok? && Resolve(ix, t.b.shape[0]).Ok?
    ensures pa == [Resolve(ix, t.a.shape[0]).value] + Wholes(Lead(t.a.shape)[1..])
    ensures ps == [Resolve(ix, t.b.shape[0]).value] + Wholes(Lead(t.b.shape)[1..])
    ensures var q := pa + [Whole(Rank(t))] + [Whole(Cols(t))];
            Fits(q, t.a.shape) && u.a == PickElements(t.a, q)
    ensures var q := ps + [Whole(Rows(t))] + [Whole(Rank(t))];
            Fits(q, t.b.shape) && u.b == PickElements(t.b, q)
    ensures var q := ps + [Whole(Rows(t))] + [Whole(Cols(t))];
            Fits(q, Shape(t)) && m == PickElements(Materialize(t), q)
  {
    SplitShapes(t);
    ItemPicks(t.a, ix);
    ItemPicks(t.b, ix);
    ItemPicks(Materialize(t), ix);
    var p := Resolve(ix, t.a.shape[0]).value;
    var q := Resolve(ix, t.b.shape[0]).value;
    SplitWholes(p, t.a.shape);
    SplitWholes(q, t.b.shape);
    SplitWholes(q, Shape(t));
    SameLead(t);
    pa := [p] + Wholes(Lead(t.a.shape)[1..]);
    ps := [q] + Wholes(Lead(t.b.shape)[1..]);
  }

  lemma {:induction false} SameLead(t: Lora)
    ensures Lead(Shape(t)) == Lead(t.b.shape)
  {
  }

  /** Indexing with one entry is right exactly when it is supported. */
  lemma {:induction false} ItemExact(t: Lora, ix: Index, u: Lora, m: Tensor)
    requires Aligned(t) && ItemOfFactors(t, ix) == Ok(u) && GetItem(Materialize(t), [ix]) == Ok(m)
    ensures (Aligned(u) && Materialize(u) == m) <==> ItemSupported(t, ix)
  {
    if |t.a.shape| == 2 {
      MatrixItem(t, ix, u, m);
    } else {
      var pa, ps := BatchParts(t, ix, u, m);
      if ItemSupported(t, ix) {
        FirstCompatible(ix, Lead(t.a.shape), Lead(t.b.shape));
        PickSound(t, u, pa, ps, Whole(Rows(t)).at, Whole(Cols(t)).at);
      } else if Aligned(u) {
        BatchUnsupported(t, ix, u, m, pa, ps);
        assert false;
      }
    }
  }

  lemma {:induction false} BatchUnsupported(t: Lora, ix: Index, u: Lora, m: Tensor, pa: seq<Pick>, ps: seq<Pick>)
    requires Aligned(t) && |t.a.shape| > 2 && ix.Slice?
    requires Resolve(ix, t.a.shape[0]).Ok? && Resolve(ix, t.b.shape[0]).Ok?
    requires pa == [Resolve(ix, t.a.shape[0]).value] + Wholes(Lead(t.a.shape)[1..])
    requires ps == [Resolve(ix, t.b.shape[0]).value] + Wholes(Lead(t.b.shape)[1..])
    requires u.a.shape == PickedShape(pa + [Whole(Rank(t))] + [Whole(Cols(t))])
    requires u.b.shape == PickedShape(ps + [Whole(Rows(t))] + [Whole(Rank(t))])
    requires Aligned(u)
    ensures ItemSupported(t, ix)
  {
    ShapeOfTwo(pa, Whole(Rank(t)), Whole(Cols(t)));
    ShapeOfTwo(ps, Whole(Rows(t)), Whole(Rank(t)));
    var ata := Resolve(ix, t.a.shape[0]).value.at;
    var at := Resolve(ix, t.b.shape[0]).value.at;
    FirstAxis(ata, Wholes(Lead(t.a.shape)[1..]));
    FirstAxis(at, Wholes(Lead(t.b.shape)[1..]));
    assert Lead(u.a.shape)[0] == |ata| && Lead(u.b.shape)[0] == |at|;
    assert Lead(t.a.shape)[0] == 1 || Lead(t.a.shape)[0] == Lead(t.b.shape)[0];
    if t.a.shape[0] != t.b.shape[0] {
      SliceOfOne(ix);
    }
  }
}
