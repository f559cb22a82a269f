/** Indexing the factors indexes the product. */
module LoraIndex {
  import opened Results
  import opened Sequences
  import opened Shapes
  import opened Tensors
  import opened LoraTensors

  // ----- whole-axis slices

  function Whole(n: nat): Pick {
    Many(Range(0, n, 1))
  }

  lemma {:induction false} UnitRange(lo: nat, n: nat)
    requires lo <= n
    ensures |Range(lo, n, 1)| == n - lo
    ensures forall k :: 0 <= k < n - lo ==> Range(lo, n, 1)[k] == lo + k
    decreases n - lo
  {
    if lo < n {
      UnitRange(lo + 1, n);
    }
  }

  predicate Increasing(at: seq<nat>) {
    forall k :: 0 < k < |at| ==> at[k - 1] < at[k]
  }

  lemma {:induction false} RangeIncreases(lo: nat, hi: nat, step: nat)
    requires step > 0
    ensures Increasing(Range(lo, hi, step))
    decreases hi - lo
  {
    if lo < hi {
      RangeIncreases(lo + step, hi, step);
      var r := Range(lo + step, hi, step);
      assert Range(lo, hi, step) == [lo] + r;
    }
  }

  lemma {:induction false} IncreasingFloor(at: seq<nat>, k: nat)
    requires Increasing(at) && k < |at|
    ensures at[k] >= k
  {
    if k > 0 {
      IncreasingFloor(at, k - 1);
      assert at[k - 1] < at[k];
    }
  }

  lemma {:induction false} IncreasingCeiling(at: seq<nat>, n: nat, k: nat)
    requires Increasing(at) && k < |at| && forall i :: 0 <= i < |at| ==> at[i] < n
    ensures at[k] + |at| <= n + k
    decreases |at| - k
  {
    if k + 1 < |at| {
      IncreasingCeiling(at, n, k + 1);
      assert at[k] < at[k + 1];
    }
  }

  /** A slice as long as its axis selects the whole axis. */
  lemma {:induction false} FullLengthIsWhole(at: seq<nat>, n: nat)
    requires Increasing(at) && |at| == n && forall i :: 0 <= i < |at| ==> at[i] < n
    ensures Many(at) == Whole(n)
  {
    UnitRange(0, n);
    forall k | 0 <= k < n ensures at[k] == Range(0, n, 1)[k] {
      IncreasingFloor(at, k);
      IncreasingCeiling(at, n, k);
    }
  }

  // ----- appending an axis

  lemma {:induction false} PickedSnoc(ps: seq<Pick>, at: seq<nat>, c: seq<nat>)
    ensures PickedShape(ps + [Many(at)]) == PickedShape(ps) + [|at|]
    ensures InBounds(PickedShape(ps) + [|at|], c) ==>
              && InBounds(PickedShape(ps), c[..|c| - 1])
              && PickedCoords(ps + [Many(at)], c) == PickedCoords(ps, c[..|c| - 1]) + [at[c[|c| - 1]]]
  {
    assert (ps + [Many(at)])[..|ps|] == ps;
    if InBounds(PickedShape(ps) + [|at|], c) {
      forall d | 0 <= d < |c| - 1 ensures c[d] < PickedShape(ps)[d] {
        assert c[d] < (PickedShape(ps) + [|at|])[d];
      }
    }
  }

  lemma {:induction false} ResolveSnoc(ixs: seq<Index>, s: seq<nat>, ix: Index, n: nat)
    requires |ixs| == |s|
    ensures ResolveAll(ixs + [ix], s + [n]) ==
            match (ResolveAll(ixs, s), Resolve(ix, n))
            case (Ok(ps), Ok(p)) => Ok(ps + [p])
            case (Err(e), _) => Err(e)
            case (_, Err(e)) => Err(e)
  {
    assert (ixs + [ix])[..|ixs|] == ixs && (s + [n])[..|s|] == s;
  }

  // ----- broadcast leading axes

  /** The picks `pa` on the leading axes `sa` of A go with the picks `ps` on the leading axes `sb` of B. */
  predicate PickCompatible(pa: Pick, p: Pick, na: nat, nb: nat) {
    && PickFits(p, nb)
    && match p
    case One(i) => pa == One(if na == 1 then 0 else i)
    case Many(at) =>
      && pa.Many?
      && (|| (na == 1 && pa.at == [0])
          || (na == nb && pa == p)
          || (at == [] && |pa.at| <= 1))
  }

  predicate Compatible(pa: seq<Pick>, ps: seq<Pick>, sa: seq<nat>, sb: seq<nat>) {
    |pa| == |ps| == |sa| == |sb| && forall d :: 0 <= d < |sa| ==> PickCompatible(pa[d], ps[d], sa[d], sb[d])
  }

  lemma {:induction false} BroadcastSnoc(x: seq<nat>, m: nat, y: seq<nat>, n: nat)
    ensures Broadcasts(x + [m], y + [n]) <==> Broadcasts(x, y) && (m == 1 || m == n)
  {
    if Broadcasts(x + [m], y + [n]) {
      forall d | 0 <= d < |x| ensures x[d] == 1 || x[d] == y[d] {
        assert (x + [m])[d] == x[d] && (y + [n])[d] == y[d];
      }
      assert (x + [m])[|x|] == m && (y + [n])[|y|] == n;
    }
  }

  lemma {:induction false} CompatibleShapes(pa: seq<Pick>, ps: seq<Pick>, sa: seq<nat>, sb: seq<nat>)
    requires Broadcasts(sa, sb) && Compatible(pa, ps, sa, sb)
    ensures Broadcasts(PickedShape(pa), PickedShape(ps))
  {
    if sa != [] {
      var n := |sa| - 1;
      assert PickCompatible(pa[n], ps[n], sa[n], sb[n]);
      CompatibleShapes(pa[..n], ps[..n], sa[..n], sb[..n]);
      if ps[n].Many? {
        BroadcastSnoc(PickedShape(pa[..n]), |pa[n].at|, PickedShape(ps[..n]), |ps[n].at|);
      }
    }
  }

  lemma {:induction false} BroadcastInBounds(sa: seq<nat>, sb: seq<nat>, c: seq<nat>)
    requires Broadcasts(sa, sb) && InBounds(sb, c)
    ensures InBounds(sa, BroadcastCoords(sa, c))
  {
  }

  /** Picking and broadcasting commute. */
  lemma {:induction false} CompatibleCoords(pa: seq<Pick>, ps: seq<Pick>, sa: seq<nat>, sb: seq<nat>, c: seq<nat>)
    requires Broadcasts(sa, sb) && Compatible(pa, ps, sa, sb)
    requires Broadcasts(PickedShape(pa), PickedShape(ps)) && InBounds(PickedShape(ps), c)
    ensures InBounds(PickedShape(pa), BroadcastCoords(PickedShape(pa), c))
    ensures PickedCoords(pa, BroadcastCoords(PickedShape(pa), c)) == BroadcastCoords(sa, PickedCoords(ps, c))
  {
    BroadcastInBounds(PickedShape(pa), PickedShape(ps), c);
    if sa != [] {
      var n := |sa| - 1;
      assert PickCompatible(pa[n], ps[n], sa[n], sb[n]);
      CompatibleShapes(pa[..n], ps[..n], sa[..n], sb[..n]);
      if ps[n].One? {
        CompatibleCoords(pa[..n], ps[..n], sa[..n], sb[..n], c);
      } else {
        PickedSnoc(ps[..n], ps[n].at, c);
        SplitLast(ps);
        SplitLast(pa);
        CompatibleCoords(pa[..n], ps[..n], sa[..n], sb[..n], c[..|c| - 1]);
        ManyCoords(pa[..n], pa[n].at, ps[..n], ps[n].at, sa, sb[n], c);
      }
    }
  }

  lemma {:induction false} BroadcastCoordsSnoc(s: seq<nat>, m: nat, c: seq<nat>, v: nat)
    requires |c| == |s|
    ensures BroadcastCoords(s + [m], c + [v]) == BroadcastCoords(s, c) + [if m == 1 then 0 else v]
  {
  }

  lemma {:induction false} ManyCoords(pa: seq<Pick>, ata: seq<nat>, ps: seq<Pick>, at: seq<nat>, sa: seq<nat>, nb: nat, c: seq<nat>)
    requires |sa| == |pa| + 1 == |ps| + 1
    requires PickCompatible(Many(ata), Many(at), sa[|pa|], nb)
    requires |PickedShape(pa)| == |PickedShape(ps)| && (|ata| == 1 || |ata| == |at|)
    requires InBounds(PickedShape(ps) + [|at|], c)
    requires InBounds(PickedShape(ps), c[..|c| - 1])
    requires InBounds(PickedShape(pa), BroadcastCoords(PickedShape(pa), c[..|c| - 1]))
    requires PickedCoords(pa, BroadcastCoords(PickedShape(pa), c[..|c| - 1])) ==
             BroadcastCoords(sa[..|pa|], PickedCoords(ps, c[..|c| - 1]))
    ensures PickedShape(pa + [Many(ata)]) == PickedShape(pa) + [|ata|]
    ensures PickedShape(ps + [Many(at)]) == PickedShape(ps) + [|at|]
    ensures InBounds(PickedShape(pa + [Many(ata)]), BroadcastCoords(PickedShape(pa + [Many(ata)]), c))
    ensures PickedCoords(pa + [Many(ata)], BroadcastCoords(PickedShape(pa + [Many(ata)]), c)) ==
            BroadcastCoords(sa, PickedCoords(ps + [Many(at)], c))
  {
    var j := c[|c| - 1];
    var e := c[..|c| - 1];
    SplitLast(c);
    assert j < |at|;
    var x := BroadcastCoords(PickedShape(pa), e);
    var b := x + [if |ata| == 1 then 0 else j];
    BroadcastCoordsSnoc(PickedShape(pa), |ata|, e, j);
    PickedAppend(pa, ata, x, if |ata| == 1 then 0 else j);
    PickedAppend(ps, at, e, j);
    LastCoord(ata, at, sa[|pa|], nb, j);
    BroadcastCoordsSnoc(sa[..|pa|], sa[|pa|], PickedCoords(ps, e), at[j]);
    SplitLast(sa);
  }

  lemma {:induction false} PickedAppend(ps: seq<Pick>, at: seq<nat>, c: seq<nat>, j: nat)
    requires InBounds(PickedShape(ps), c) && j < |at|
    ensures PickedShape(ps + [Many(at)]) == PickedShape(ps) + [|at|]
    ensures InBounds(PickedShape(ps) + [|at|], c + [j])
    ensures PickedCoords(ps + [Many(at)], c + [j]) == PickedCoords(ps, c) + [at[j]]
  {
    PickedSnoc(ps, at, c + [j]);
    assert (c + [j])[..|c|] == c;
  }

  lemma {:induction false} LastCoord(ata: seq<nat>, at: seq<nat>, na: nat, nb: nat, j: nat)
    requires PickCompatible(Many(ata), Many(at), na, nb) && j < |at|
    requires |ata| == 1 || |ata| == |at|
    ensures ata[if |ata| == 1 then 0 else j] == if na == 1 then 0 else at[j]
  {
    assert at[j] < nb;
  }

  // ----- picking from both factors picks from the product

  lemma {:induction false} WholeOffset(n: nat, k: nat)
    requires k < n
    ensures |Whole(n).at| == n && Whole(n).at[k] == k
  {
    UnitRange(0, n);
  }

  ghost predicate PickedFactors(t: Lora, u: Lora, pa: seq<Pick>, ps: seq<Pick>, pi: seq<nat>, pj: seq<nat>)
  {
    && Aligned(t)
    && Compatible(pa, ps, Lead(t.a.shape), Lead(t.b.shape))
    && Fits(pa + [Whole(Rank(t))] + [Many(pj)], t.a.shape)
    && Fits(ps + [Many(pi)] + [Whole(Rank(t))], t.b.shape)
    && Fits(ps + [Many(pi)] + [Many(pj)], Shape(t))
    && u.a == PickElements(t.a, pa + [Whole(Rank(t))] + [Many(pj)])
    && u.b == PickElements(t.b, ps + [Many(pi)] + [Whole(Rank(t))])
  }

  lemma {:induction false} PickedLeadShapes(t: Lora, u: Lora, pa: seq<Pick>, ps: seq<Pick>, pi: seq<nat>, pj: seq<nat>)
    requires PickedFactors(t, u, pa, ps, pi, pj)
    ensures u.a.shape == PickedShape(pa) + [Rank(t)] + [|pj|]
    ensures u.b.shape == PickedShape(ps) + [|pi|] + [Rank(t)]
    ensures PickedShape(ps + [Many(pi)]) == PickedShape(ps) + [|pi|]
    ensures PickedShape(ps + [Many(pi)]) + [|pj|] == PickedShape(ps + [Many(pi)] + [Many(pj)])
    ensures PickedShape(pa + [Whole(Rank(t))]) == PickedShape(pa) + [Rank(t)]
  {
    UnitRange(0, Rank(t));
    PickedSnoc(pa, Whole(Rank(t)).at, []);
    PickedSnoc(pa + [Whole(Rank(t))], pj, []);
    PickedSnoc(ps, pi, []);
    PickedSnoc(ps + [Many(pi)], Whole(Rank(t)).at, []);
    PickedSnoc(ps + [Many(pi)], pj, []);
  }

  lemma {:induction false} PickedFactorShapes(t: Lora, u: Lora, pa: seq<Pick>, ps: seq<Pick>, pi: seq<nat>, pj: seq<nat>)
    requires PickedFactors(t, u, pa, ps, pi, pj)
    ensures u.a.shape == PickedShape(pa) + [Rank(t)] + [|pj|]
    ensures u.b.shape == PickedShape(ps) + [|pi|] + [Rank(t)]
    ensures Lead(u.a.shape) == PickedShape(pa) && Lead(u.b.shape) == PickedShape(ps)
    ensures Rank(u) == Rank(t) && Aligned(u)
    ensures Shape(u) == PickedShape(ps + [Many(pi)]) + [|pj|] == PickedShape(ps + [Many(pi)] + [Many(pj)])
    ensures PickedShape(ps + [Many(pi)]) == PickedShape(ps) + [|pi|]
    ensures PickedShape(pa + [Whole(Rank(t))]) == PickedShape(pa) + [Rank(t)]
  {
    PickedLeadShapes(t, u, pa, ps, pi, pj);
    CompatibleShapes(pa, ps, Lead(t.a.shape), Lead(t.b.shape));
  }

  lemma {:induction false} PickedRow(t: Lora, u: Lora, pa: seq<Pick>, ps: seq<Pick>, pi: seq<nat>, pj: seq<nat>, c: seq<nat>, k: nat)
    requires PickedFactors(t, u, pa, ps, pi, pj)
    requires Aligned(u) && InBounds(Shape(u), c) && k < Rank(t) == Rank(u)
    requires InBounds(PickedShape(ps + [Many(pi)]), c[..|c| - 1])
    requires u.b.shape == PickedShape(ps + [Many(pi)]) + [Rank(t)]
    ensures InBounds(t.b.shape, PickedCoords(ps + [Many(pi)], c[..|c| - 1]) + [k])
    ensures Row(u, c)[k] == At(t.b, PickedCoords(ps + [Many(pi)], c[..|c| - 1]) + [k])
  {
    FactorBounds(u, c, k);
    WholeOffset(Rank(t), k);
    PickAt(t.b, ps + [Many(pi)] + [Whole(Rank(t))], RowCoords(c, k));
    PickedAppend(ps + [Many(pi)], Whole(Rank(t)).at, c[..|c| - 1], k);
  }

  lemma {:induction false} PickedCol(t: Lora, u: Lora, pa: seq<Pick>, ps: seq<Pick>, pi: seq<nat>, pj: seq<nat>, c: seq<nat>, k: nat)
    requires PickedFactors(t, u, pa, ps, pi, pj)
    requires Aligned(u) && InBounds(Shape(u), c) && k < Rank(t) == Rank(u)
    requires Lead(u.a.shape) == PickedShape(pa) && Lead(u.b.shape) == PickedShape(ps)
    requires u.a.shape == PickedShape(pa) + [Rank(t)] + [|pj|]
    requires InBounds(PickedShape(pa), BroadcastCoords(PickedShape(pa), c)) && c[|c| - 1] < |pj|
    ensures InBounds(t.a.shape,
                     PickedCoords(pa, BroadcastCoords(PickedShape(pa), c)) + [k] + [pj[c[|c| - 1]]])
    ensures Col(u, c)[k] ==
            At(t.a, PickedCoords(pa, BroadcastCoords(PickedShape(pa), c)) + [k] + [pj[c[|c| - 1]]])
  {
    var x := BroadcastCoords(PickedShape(pa), c);
    var j := c[|c| - 1];
    FactorBounds(u, c, k);
    WholeOffset(Rank(t), k);
    PickedAppend(pa, Whole(Rank(t)).at, x, k);
    PickedAppend(pa + [Whole(Rank(t))], pj, x + [k], j);
    SameColCoords(u.a.shape, c, k);
    PickAt(t.a, pa + [Whole(Rank(t))] + [Many(pj)], ColCoords(u.a.shape, c, k));
  }

  lemma {:induction false} PrefixBroadcast(s: seq<nat>, c: seq<nat>, d: seq<nat>)
    requires |s| == |c| <= |d| && d[..|c|] == c
    ensures BroadcastCoords(s, d) == BroadcastCoords(s, c)
  {
    forall i | 0 <= i < |s| ensures d[i] == c[i] {
      assert d[..|c|][i] == d[i];
    }
  }

  /** The column of A that the picked column comes from. */
  lemma {:induction false} PickedLead(t: Lora, ps: seq<Pick>, pa: seq<Pick>, pi: seq<nat>, pj: seq<nat>, c: seq<nat>)
    requires Aligned(t) && Compatible(pa, ps, Lead(t.a.shape), Lead(t.b.shape))
    requires InBounds(PickedShape(ps) + [|pi|] + [|pj|], c)
    requires InBounds(PickedShape(ps + [Many(pi)] + [Many(pj)]), c)
    ensures |PickedShape(pa)| <= |c|
    ensures InBounds(PickedShape(pa), BroadcastCoords(PickedShape(pa), c))
    ensures PickedCoords(pa, BroadcastCoords(PickedShape(pa), c)) ==
            BroadcastCoords(Lead(t.a.shape), PickedCoords(ps + [Many(pi)] + [Many(pj)], c))
  {
    var e := c[..|c| - 1];
    var f := e[..|e| - 1];
    PickedSnoc(ps, pi, e);
    PickedSnoc(ps + [Many(pi)], pj, c);
    CompatibleShapes(pa, ps, Lead(t.a.shape), Lead(t.b.shape));
    CompatibleCoords(pa, ps, Lead(t.a.shape), Lead(t.b.shape), f);
    PrefixBroadcast(PickedShape(pa), f, c);
    PrefixBroadcast(Lead(t.a.shape), PickedCoords(ps, f), PickedCoords(ps + [Many(pi)] + [Many(pj)], c));
  }

  lemma {:induction false} PickSound(t: Lora, u: Lora, pa: seq<Pick>, ps: seq<Pick>, pi: seq<nat>, pj: seq<nat>)
    requires PickedFactors(t, u, pa, ps, pi, pj)
    ensures Aligned(u) && Materialize(u) == PickElements(Materialize(t), ps + [Many(pi)] + [Many(pj)])
  {
    PickedFactorShapes(t, u, pa, ps, pi, pj);
    var m := PickElements(Materialize(t), ps + [Many(pi)] + [Many(pj)]);
    forall c | InBounds(Shape(u), c) ensures At(Materialize(u), c) == At(m, c) {
      PickedElement(t, u, pa, ps, pi, pj, c);
    }
    Extensional(Materialize(u), m);
  }

  lemma {:induction false} PickedElement(t: Lora, u: Lora, pa: seq<Pick>, ps: seq<Pick>, pi: seq<nat>, pj: seq<nat>, c: seq<nat>)
    requires PickedFactors(t, u, pa, ps, pi, pj) && Aligned(u) && InBounds(Shape(u), c)
    requires InBounds(PickedShape(ps + [Many(pi)] + [Many(pj)]), c)
    ensures At(Materialize(u), c) == At(PickElements(Materialize(t), ps + [Many(pi)] + [Many(pj)]), c)
  {
    PickedFactorShapes(t, u, pa, ps, pi, pj);
    var q := ps + [Many(pi)] + [Many(pj)];
    PickAt(Materialize(t), q, c);
    var d := PickedCoords(q, c);
    MaterializeAt(u, c);
    MaterializeAt(t, d);
    PickedRows(t, u, pa, ps, pi, pj, c, d);
    PickedCols(t, u, pa, ps, pi, pj, c, d);
  }

  lemma {:induction false} PickedRows(t: Lora, u: Lora, pa: seq<Pick>, ps: seq<Pick>, pi: seq<nat>, pj: seq<nat>, c: seq<nat>, d: seq<nat>)
    requires PickedFactors(t, u, pa, ps, pi, pj) && Aligned(u) && InBounds(Shape(u), c)
    requires InBounds(PickedShape(ps + [Many(pi)] + [Many(pj)]), c) && InBounds(Shape(t), d)
    requires d == PickedCoords(ps + [Many(pi)] + [Many(pj)], c)
    ensures Row(u, c) == Row(t, d)
  {
    PickedFactorShapes(t, u, pa, ps, pi, pj);
    PickedSnoc(ps + [Many(pi)], pj, c);
    forall k | 0 <= k < Rank(t) ensures Row(u, c)[k] == Row(t, d)[k] {
      PickedRow(t, u, pa, ps, pi, pj, c, k);
      SameRowCoords(PickedCoords(ps + [Many(pi)], c[..|c| - 1]), d[|d| - 1], k);
    }
  }

  lemma {:induction false} PickedCols(t: Lora, u: Lora, pa: seq<Pick>, ps: seq<Pick>, pi: seq<nat>, pj: seq<nat>, c: seq<nat>, d: seq<nat>)
    requires PickedFactors(t, u, pa, ps, pi, pj) && Aligned(u) && InBounds(Shape(u), c)
    requires InBounds(PickedShape(ps + [Many(pi)] + [Many(pj)]), c) && InBounds(Shape(t), d)
    requires d == PickedCoords(ps + [Many(pi)] + [Many(pj)], c)
    ensures Col(u, c) == Col(t, d)
  {
    PickedFactorShapes(t, u, pa, ps, pi, pj);
    PickedSnoc(ps + [Many(pi)], pj, c);
    PickedLead(t, ps, pa, pi, pj, c);
    forall k | 0 <= k < Rank(t) ensures Col(u, c)[k] == Col(t, d)[k] {
      PickedCol(t, u, pa, ps, pi, pj, c, k);
      SameColCoords(t.a.shape, d, k);
    }
  }

  lemma {:induction false} SameRowCoords(x: seq<nat>, y: nat, k: nat)
    ensures RowCoords(x + [y], k) == x + [k]
  {
  }

  lemma {:induction false} SameColCoords(sa: seq<nat>, d: seq<nat>, k: nat)
    requires |d| == |sa| >= 2
    ensures ColCoords(sa, d, k) == BroadcastCoords(Lead(sa), d) + [k] + [d[|d| - 1]]
  {
  }
}
