/** When `t[...]` on the factors is `t[...]` on the product. */
module LoraGetItem {
  import opened Results
  import opened Sequences
  import opened Tensors
  import opened LoraTensors
  import opened LoraIndex

  // ----- the leading axes

  /** What the code picks on a leading axis of A, given what it picks on that axis of B. */
  predicate LeadPick(pa: Pick, p: Pick, na: nat) {
    match p
    case One(i) => pa == One(if na == 1 then 0 else i)
    case Many(at) => pa == Whole(na) && Increasing(at)
  }

  predicate LeadPicks(pa: seq<Pick>, ps: seq<Pick>, sa: seq<nat>) {
    |pa| == |ps| == |sa| && forall d :: 0 <= d < |sa| ==> LeadPick(pa[d], ps[d], sa[d])
  }

  lemma {:induction false} ResolvedLead(ix: Index, na: nat, nb: nat)
    requires (na == 1 || na == nb) && Resolve(ix, nb).Ok?
    ensures ix.Select? ==>
              && na > 0
              && Resolve(Select(ix.i % na), na).Ok?
              && LeadPick(Resolve(Select(ix.i % na), na).value, Resolve(ix, nb).value, na)
    ensures ix.Slice? ==>
              && Resolve(FULL, na).Ok?
              && LeadPick(Resolve(FULL, na).value, Resolve(ix, nb).value, na)
  {
    if ix.Select? {
      SelectedLead(ix.i, na, nb);
    } else {
      SlicedLead(ix, na, nb);
    }
  }

  lemma {:induction false} SelectedLead(i: int, na: nat, nb: nat)
    requires (na == 1 || na == nb) && Resolve(Select(i), nb).Ok?
    ensures na > 0 && Resolve(Select(i % na), na).Ok?
    ensures LeadPick(Resolve(Select(i % na), na).value, Resolve(Select(i), nb).value, na)
  {
  }

  lemma {:induction false} SlicedLead(ix: Index, na: nat, nb: nat)
    requires ix.Slice? && Resolve(ix, nb).Ok?
    ensures Resolve(FULL, na).Ok? && LeadPick(Resolve(FULL, na).value, Resolve(ix, nb).value, na)
  {
    RangeIncreases(if ix.start.Some? then Clamp(ix.start.value, nb) else 0,
                   if ix.stop.Some? then Clamp(ix.stop.value, nb) else nb,
                   if ix.step.Some? then ix.step.value else 1);
  }

  lemma {:induction false} ResolvedLeads(ixs: seq<Index>, sa: seq<nat>, sb: seq<nat>)
    requires |ixs| <= |sa| && Broadcasts(sa[..|ixs|], sb) && ResolveAll(ixs, sb).Ok?
    ensures LeadIndices(ixs, sa).Ok? && ResolveAll(LeadIndices(ixs, sa).value, sa[..|ixs|]).Ok?
    ensures LeadPicks(ResolveAll(LeadIndices(ixs, sa).value, sa[..|ixs|]).value,
                      ResolveAll(ixs, sb).value, sa[..|ixs|])
  {
    if ixs != [] {
      var d := |ixs| - 1;
      assert sa[..|ixs|][..d] == sa[..d];
      ResolvedLeads(ixs[..d], sa, sb[..d]);
      ResolvedLead(ixs[d], sa[d], sb[d]);
      ResolvedLeadsSnoc(ixs, sa, sb, d);
    }
  }

  lemma {:induction false} ResolvedLeadsSnoc(ixs: seq<Index>, sa: seq<nat>, sb: seq<nat>, d: nat)
    requires |ixs| == |sb| == d + 1 <= |sa| && ResolveAll(ixs, sb).Ok?
    requires LeadIndices(ixs[..d], sa).Ok? && ResolveAll(LeadIndices(ixs[..d], sa).value, sa[..d]).Ok?
    requires LeadPicks(ResolveAll(LeadIndices(ixs[..d], sa).value, sa[..d]).value, ResolveAll(ixs[..d], sb[..d]).value, sa[..d])
    requires ixs[d].Select? ==>
               && sa[d] > 0
               && Resolve(Select(ixs[d].i % sa[d]), sa[d]).Ok?
               && LeadPick(Resolve(Select(ixs[d].i % sa[d]), sa[d]).value, Resolve(ixs[d], sb[d]).value, sa[d])
    requires ixs[d].Slice? ==>
               && Resolve(FULL, sa[d]).Ok?
               && LeadPick(Resolve(FULL, sa[d]).value, Resolve(ixs[d], sb[d]).value, sa[d])
    ensures LeadIndices(ixs, sa).Ok? && ResolveAll(LeadIndices(ixs, sa).value, sa[..d + 1]).Ok?
    ensures LeadPicks(ResolveAll(LeadIndices(ixs, sa).value, sa[..d + 1]).value, ResolveAll(ixs, sb).value, sa[..d + 1])
  {
    var ix := if ixs[d].Select? then Select(ixs[d].i % sa[d]) else FULL;
    var li := LeadIndices(ixs[..d], sa).value;
    LeadIndicesSnoc(ixs, sa, d, li, ix);
    ResolveSnoc(li, sa[..d], ix, sa[d]);
    SplitLast(sa[..d + 1]);
    assert sa[..d + 1][..d] == sa[..d];
    LeadPicksSnoc(ResolveAll(li, sa[..d]).value, ResolveAll(ixs[..d], sb[..d]).value, sa[..d],
                  Resolve(ix, sa[d]).value, Resolve(ixs[d], sb[d]).value, sa[d]);
  }

  lemma {:induction false} LeadIndicesSnoc(ixs: seq<Index>, sa: seq<nat>, d: nat, li: seq<Index>, ix: Index)
    requires |ixs| == d + 1 <= |sa| && LeadIndices(ixs[..d], sa) == Ok(li)
    requires ixs[d].Select? ==> sa[d] > 0
    requires ix == if ixs[d].Select? then Select(ixs[d].i % sa[d]) else FULL
    ensures LeadIndices(ixs, sa) == Ok(li + [ix])
  {
  }

  lemma {:induction false} LeadPicksSnoc(pa: seq<Pick>, ps: seq<Pick>, sa: seq<nat>, x: Pick, y: Pick, n: nat)
    requires LeadPicks(pa, ps, sa) && LeadPick(x, y, n)
    ensures LeadPicks(pa + [x], ps + [y], sa + [n])
  {
  }

  /** Slices of leading axes that A does not broadcast select the whole axis. */
  predicate WholeSlices(ps: seq<Pick>, sa: seq<nat>, sb: seq<nat>) {
    |ps| == |sa| == |sb| && forall d :: 0 <= d < |ps| ==> ps[d].Many? ==> sa[d] == 1 || |ps[d].at| == sb[d]
  }

  lemma {:induction false} LeadsCompatible(pa: seq<Pick>, ps: seq<Pick>, sa: seq<nat>, sb: seq<nat>)
    requires Broadcasts(sa, sb) && Fits(ps, sb) && LeadPicks(pa, ps, sa) && WholeSlices(ps, sa, sb)
    ensures Compatible(pa, ps, sa, sb)
  {
    forall d | 0 <= d < |sa| ensures PickCompatible(pa[d], ps[d], sa[d], sb[d]) {
      assert PickFits(ps[d], sb[d]) && LeadPick(pa[d], ps[d], sa[d]);
      if ps[d].Many? {
        UnitRange(0, sa[d]);
        if sa[d] == 1 {
          assert pa[d].at == [0];
        } else {
          FullLengthIsWhole(ps[d].at, sb[d]);
        }
      }
    }
  }

  lemma {:induction false} BroadcastForcesWhole(pa: seq<Pick>, ps: seq<Pick>, sa: seq<nat>, sb: seq<nat>)
    requires Broadcasts(sa, sb) && LeadPicks(pa, ps, sa)
    requires Broadcasts(PickedShape(pa), PickedShape(ps))
    ensures WholeSlices(ps, sa, sb)
  {
    if sa != [] {
      var n := |sa| - 1;
      assert LeadPick(pa[n], ps[n], sa[n]);
      if ps[n].Many? {
        UnitRange(0, sa[n]);
        SameLength(pa[..n], ps[..n], sa[..n]);
        BroadcastSnoc(PickedShape(pa[..n]), |pa[n].at|, PickedShape(ps[..n]), |ps[n].at|);
      }
      BroadcastForcesWhole(pa[..n], ps[..n], sa[..n], sb[..n]);
    }
  }

  lemma {:induction false} SameLength(pa: seq<Pick>, ps: seq<Pick>, sa: seq<nat>)
    requires LeadPicks(pa, ps, sa)
    ensures |PickedShape(pa)| == |PickedShape(ps)|
  {
    if sa != [] {
      var n := |sa| - 1;
      assert LeadPick(pa[n], ps[n], sa[n]);
      SameLength(pa[..n], ps[..n], sa[..n]);
    }
  }

  // ----- taking a tuple index apart

  lemma {:induction false} ResolveTwo(ixs: seq<Index>, s: seq<nat>, x: Index, m: nat, y: Index, n: nat)
    requires |ixs| == |s|
    ensures ResolveAll(ixs + [x] + [y], s + [m] + [n]).Ok? <==>
            ResolveAll(ixs, s).Ok? && Resolve(x, m).Ok? && Resolve(y, n).Ok?
    ensures ResolveAll(ixs + [x] + [y], s + [m] + [n]).Ok? ==>
            ResolveAll(ixs + [x] + [y], s + [m] + [n]).value ==
            ResolveAll(ixs, s).value + [Resolve(x, m).value] + [Resolve(y, n).value]
  {
    ResolveSnoc(ixs, s, x, m);
    ResolveSnoc(ixs + [x], s + [m], y, n);
  }

  lemma {:induction false} ResolveFull(n: nat)
    ensures Resolve(FULL, n) == Ok(Whole(n))
  {
  }

  /** Number of rows of one matrix of the batch. */
  function Rows(t: Lora): nat {
    t.b.shape[|t.b.shape| - 2]
  }

  lemma {:induction false} SplitShapes(t: Lora)
    ensures Shape(t) == Lead(t.b.shape) + [Rows(t)] + [Cols(t)]
    ensures t.b.shape == Lead(t.b.shape) + [Rows(t)] + [Rank(t)]
    ensures t.a.shape == Lead(t.a.shape) + [Rank(t)] + [Cols(t)]
  {
  }

  lemma {:induction false} SplitTuple(full: seq<Index>)
    requires |full| >= 2
    ensures full == full[..|full| - 2] + [full[|full| - 2]] + [full[|full| - 1]]
    ensures full[..|full| - 1] == full[..|full| - 2] + [full[|full| - 2]]
    ensures PadIndices(full[..|full| - 1], |full|) == full[..|full| - 2] + [full[|full| - 2]] + [FULL]
  {
  }

  /** The tuple of picks on the leading axes of B. */
  function LeadOfB(t: Lora, full: seq<Index>): Result<seq<Pick>>
    requires |full| == |t.a.shape|
  {
    ResolveAll(full[..|full| - 2], Lead(t.b.shape))
  }

  function LeadOfA(t: Lora, full: seq<Index>): Result<seq<Pick>>
    requires |full| == |t.a.shape|
  {
    var lead :- LeadIndices(full[..|full| - 2], t.a.shape);
    ResolveAll(lead, Lead(t.a.shape))
  }

  /** The picks behind a dense tuple index. */
  lemma {:induction false} TupleOnProduct(t: Lora, full: seq<Index>)
    requires Aligned(t) && |full| == |t.a.shape| && ResolveAll(full, Shape(t)).Ok?
    ensures LeadOfB(t, full).Ok? && Resolve(full[|full| - 2], Rows(t)).Ok? && Resolve(full[|full| - 1], Cols(t)).Ok?
    ensures ResolveAll(full, Shape(t)).value ==
            LeadOfB(t, full).value + [Resolve(full[|full| - 2], Rows(t)).value] + [Resolve(full[|full| - 1], Cols(t)).value]
  {
    var n := |full|;
    SplitTuple(full);
    SplitShapes(t);
    ResolveTwo(full[..n - 2], Lead(t.b.shape), full[n - 2], Rows(t), full[n - 1], Cols(t));
  }

  /** The picks behind the tuple index on B. */
  lemma {:induction false} TupleOfB(t: Lora, full: seq<Index>, ps: seq<Pick>, px: Pick)
    requires |full| == |t.b.shape| && LeadOfB(t, full) == Ok(ps) && Resolve(full[|full| - 2], Rows(t)) == Ok(px)
    ensures Fits(ps + [px] + [Whole(Rank(t))], t.b.shape)
    ensures GetItem(t.b, full[..|full| - 1]) == Ok(PickElements(t.b, ps + [px] + [Whole(Rank(t))]))
  {
    var n := |full|;
    SplitTuple(full);
    SplitShapes(t);
    ResolveFull(Rank(t));
    ResolveTwo(full[..n - 2], Lead(t.b.shape), full[n - 2], Rows(t), FULL, Rank(t));
  }

  /** The picks behind the tuple index on A. */
  lemma {:induction false} TupleOfA(t: Lora, full: seq<Index>, ps: seq<Pick>, py: Pick)
    requires Aligned(t) && |full| == |t.a.shape| && LeadOfB(t, full) == Ok(ps) && Resolve(full[|full| - 1], Cols(t)) == Ok(py)
    ensures LeadOfA(t, full).Ok? && LeadPicks(LeadOfA(t, full).value, ps, Lead(t.a.shape))
    ensures Fits(LeadOfA(t, full).value + [Whole(Rank(t))] + [py], t.a.shape)
    ensures GetItem(t.a, LeadIndices(full[..|full| - 2], t.a.shape).value + [FULL, full[|full| - 1]]) ==
            Ok(PickElements(t.a, LeadOfA(t, full).value + [Whole(Rank(t))] + [py]))
  {
    var n := |full|;
    ResolvedLeads(full[..n - 2], t.a.shape, Lead(t.b.shape));
    var lead := LeadIndices(full[..n - 2], t.a.shape).value;
    SplitShapes(t);
    ResolveFull(Rank(t));
    ResolveTwo(lead, Lead(t.a.shape), FULL, Rank(t), full[n - 1], Cols(t));
    assert lead + [FULL, full[n - 1]] == lead + [FULL] + [full[n - 1]];
  }

  // ----- the indexing theorems

  /** Number of positions a slice selects on an axis of length `n`. */
  function SliceLength(ix: Index, n: nat): nat {
    match Resolve(ix, n)
    case Ok(Many(at)) => |at|
    case _ => 0
  }

  /** What a caller can check: one of the last two entries is a slice, and no leading axis
      that A carries in full is cut short. */
  predicate TupleSupported(t: Lora, ixs: seq<Index>)
    requires |ixs| <= |t.a.shape|
  {
    var n := |t.a.shape|;
    var full := PadIndices(ixs, n);
    && (full[n - 2].Slice? || full[n - 1].Slice?)
    && forall d :: 0 <= d < n - 2 && full[d].Slice? ==>
         t.a.shape[d] == 1 || SliceLength(full[d], t.b.shape[d]) == t.b.shape[d]
  }

  lemma {:induction false} ResolvedPick(ixs: seq<Index>, s: seq<nat>, d: nat)
    requires |ixs| == |s| && ResolveAll(ixs, s).Ok? && d < |ixs|
    ensures Resolve(ixs[d], s[d]) == Ok(ResolveAll(ixs, s).value[d])
  {
    var n := |ixs| - 1;
    if d < n {
      ResolvedPick(ixs[..n], s[..n], d);
    }
  }

  lemma {:induction false} SupportedMeansWhole(t: Lora, ixs: seq<Index>, ps: seq<Pick>)
    requires |ixs| <= |t.a.shape| && LeadOfB(t, PadIndices(ixs, |t.a.shape|)) == Ok(ps)
    requires PadIndices(ixs, |t.a.shape|)[|t.a.shape| - 2].Slice?
    ensures TupleSupported(t, ixs) <==> WholeSlices(ps, Lead(t.a.shape), Lead(t.b.shape))
  {
    var n := |t.a.shape|;
    var full := PadIndices(ixs, n);
    forall d | 0 <= d < n - 2
      ensures full[d].Slice? <==> ps[d].Many?
      ensures full[d].Slice? ==> SliceLength(full[d], t.b.shape[d]) == |ps[d].at|
    {
      ResolvedPick(full[..n - 2], Lead(t.b.shape), d);
    }
    if TupleSupported(t, ixs) {
      forall d | 0 <= d < n - 2 && ps[d].Many?
        ensures Lead(t.a.shape)[d] == 1 || |ps[d].at| == Lead(t.b.shape)[d]
      {
        assert full[d].Slice?;
      }
    }
    if WholeSlices(ps, Lead(t.a.shape), Lead(t.b.shape)) {
      forall d | 0 <= d < n - 2 && full[d].Slice?
        ensures t.a.shape[d] == 1 || SliceLength(full[d], t.b.shape[d]) == t.b.shape[d]
      {
        assert ps[d].Many?;
      }
    }
  }

  ghost predicate TuplePicks(t: Lora, pa: seq<Pick>, ps: seq<Pick>, px: Pick, py: Pick) {
    && Aligned(t)
    && LeadPicks(pa, ps, Lead(t.a.shape))
    && Fits(ps, Lead(t.b.shape))
    && Fits(pa + [Whole(Rank(t))] + [py], t.a.shape)
    && Fits(ps + [px] + [Whole(Rank(t))], t.b.shape)
    && Fits(ps + [px] + [py], Shape(t))
  }

  ghost predicate TupleResult(t: Lora, u: Lora, m: Tensor, pa: seq<Pick>, ps: seq<Pick>, px: Pick, py: Pick) {
    && TuplePicks(t, pa, ps, px, py)
    && u.a == PickElements(t.a, pa + [Whole(Rank(t))] + [py])
    && u.b == PickElements(t.b, ps + [px] + [Whole(Rank(t))])
    && m == PickElements(Materialize(t), ps + [px] + [py])
  }

  /** The picks behind a tuple index that the dense tensor accepts. */
  lemma {:induction false} TupleParts(t: Lora, full: seq<Index>) returns (pa: seq<Pick>, ps: seq<Pick>, px: Pick, py: Pick)
    requires Aligned(t) && |full| == |t.a.shape| && ResolveAll(full, Shape(t)).Ok?
    ensures LeadOfB(t, full) == Ok(ps) && TuplePicks(t, pa, ps, px, py)
    ensures (px.Many? <==> full[|full| - 2].Slice?) && (py.Many? <==> full[|full| - 1].Slice?)
    ensures FullTupleOfFactors(t, full) == Create(PickElements(t.a, pa + [Whole(Rank(t))] + [py]),
                                                  PickElements(t.b, ps + [px] + [Whole(Rank(t))]))
    ensures GetItem(Materialize(t), full) == Ok(PickElements(Materialize(t), ps + [px] + [py]))
  {
    TupleOnProduct(t, full);
    ps := LeadOfB(t, full).value;
    px := Resolve(full[|full| - 2], Rows(t)).value;
    py := Resolve(full[|full| - 1], Cols(t)).value;
    pa := FactorsPicked(t, full, ps, px, py);
    LeadFits(full[..|full| - 2], Lead(t.b.shape), ps);
    DensePicked(t, full, ps + [px] + [py]);
  }

  lemma {:induction false} DensePicked(t: Lora, full: seq<Index>, q: seq<Pick>)
    requires Aligned(t) && |full| == |t.a.shape| && ResolveAll(full, Shape(t)) == Ok(q)
    ensures Fits(q, Shape(t)) && GetItem(Materialize(t), full) == Ok(PickElements(Materialize(t), q))
  {
    assert PadIndices(full, |full|) == full;
  }

  lemma {:induction false} FactorsPicked(t: Lora, full: seq<Index>, ps: seq<Pick>, px: Pick, py: Pick) returns (pa: seq<Pick>)
    requires Aligned(t) && |full| == |t.a.shape| && LeadOfB(t, full) == Ok(ps)
    requires Resolve(full[|full| - 2], Rows(t)) == Ok(px) && Resolve(full[|full| - 1], Cols(t)) == Ok(py)
    ensures LeadPicks(pa, ps, Lead(t.a.shape))
    ensures Fits(pa + [Whole(Rank(t))] + [py], t.a.shape) && Fits(ps + [px] + [Whole(Rank(t))], t.b.shape)
    ensures FullTupleOfFactors(t, full) == Create(PickElements(t.a, pa + [Whole(Rank(t))] + [py]),
                                                  PickElements(t.b, ps + [px] + [Whole(Rank(t))]))
  {
    TupleOfB(t, full, ps, px);
    TupleOfA(t, full, ps, py);
    pa := LeadOfA(t, full).value;
    TupleByParts(t, full, PickElements(t.a, pa + [Whole(Rank(t))] + [py]), PickElements(t.b, ps + [px] + [Whole(Rank(t))]));
  }

  lemma {:induction false} TupleByParts(t: Lora, full: seq<Index>, a: Tensor, b: Tensor)
    requires |full| == |t.a.shape| && LeadIndices(full[..|full| - 2], t.a.shape).Ok?
    requires GetItem(t.a, LeadIndices(full[..|full| - 2], t.a.shape).value + [FULL, full[|full| - 1]]) == Ok(a)
    requires GetItem(t.b, full[..|full| - 1]) == Ok(b)
    ensures FullTupleOfFactors(t, full) == Create(a, b)
  {
  }

  lemma {:induction false} LeadFits(ixs: seq<Index>, s: seq<nat>, ps: seq<Pick>)
    requires |ixs| == |s| && ResolveAll(ixs, s) == Ok(ps)
    ensures Fits(ps, s)
  {
  }

  /** Indexing with a tuple is right exactly when the tuple is supported. */
  lemma {:induction false} TupleExact(t: Lora, ixs: seq<Index>, u: Lora, m: Tensor)
    requires Aligned(t) && TupleOfFactors(t, ixs) == Ok(u) && GetItem(Materialize(t), ixs) == Ok(m)
    ensures |ixs| <= |t.a.shape|
    ensures (Aligned(u) && Materialize(u) == m) <==> TupleSupported(t, ixs)
  {
    var full := PadIndices(ixs, |t.a.shape|);
    PaddedItem(Materialize(t), ixs);
    var pa, ps, px, py := TupleParts(t, full);
    TupleResults(t, u, m, pa, ps, px, py);
    if px.Many? {
      SupportedMeansWhole(t, ixs, ps);
    }
  }

  /** The result of a tuple by its picks: right exactly when both last entries keep their axes and no leading axis is cut short. */
  lemma {:induction false} TupleResults(t: Lora, u: Lora, m: Tensor, pa: seq<Pick>, ps: seq<Pick>, px: Pick, py: Pick)
    requires TupleResult(t, u, m, pa, ps, px, py)
    ensures px.Many? <==> py.Many?
    ensures (Aligned(u) && Materialize(u) == m) <==> (px.Many? && WholeSlices(ps, Lead(t.a.shape), Lead(t.b.shape)))
  {
    TupleShapes(t, u, m, pa, ps, px, py);
    if px.Many? {
      TupleOfSlices(t, u, m, pa, ps, px, py);
    }
  }

  lemma {:induction false} PaddedItem(x: Tensor, ixs: seq<Index>)
    requires |ixs| <= |x.shape|
    ensures GetItem(x, PadIndices(ixs, |x.shape|)) == GetItem(x, ixs)
  {
    assert PadIndices(PadIndices(ixs, |x.shape|), |x.shape|) == PadIndices(ixs, |x.shape|);
  }

  lemma {:induction false} TupleOfSlices(t: Lora, u: Lora, m: Tensor, pa: seq<Pick>, ps: seq<Pick>, px: Pick, py: Pick)
    requires TupleResult(t, u, m, pa, ps, px, py) && px.Many? && py.Many?
    requires Lead(u.a.shape) == PickedShape(pa) && Lead(u.b.shape) == PickedShape(ps)
    ensures Aligned(u) <==> WholeSlices(ps, Lead(t.a.shape), Lead(t.b.shape))
    ensures Aligned(u) ==> Materialize(u) == m
  {
    if Aligned(u) {
      BroadcastForcesWhole(pa, ps, Lead(t.a.shape), Lead(t.b.shape));
    }
    if WholeSlices(ps, Lead(t.a.shape), Lead(t.b.shape)) {
      LeadsCompatible(pa, ps, Lead(t.a.shape), Lead(t.b.shape));
      PickSound(t, u, pa, ps, px.at, py.at);
    }
  }

  /** Dropping one of the last two axes fails, dropping both loses count of the axes. */
  lemma {:induction false} TupleShapes(t: Lora, u: Lora, m: Tensor, pa: seq<Pick>, ps: seq<Pick>, px: Pick, py: Pick)
    requires TupleResult(t, u, m, pa, ps, px, py)
    ensures px.Many? <==> py.Many?
    ensures px.One? && py.One? ==> |m.shape| != |Shape(u)|
    ensures px.Many? && py.Many? ==> Lead(u.a.shape) == PickedShape(pa) && Lead(u.b.shape) == PickedShape(ps)
  {
    TupleAxes(t, pa, ps, px, py);
    ShapeOfTwo(ps, px, py);
    var lead, wx, wy := PickedShape(ps), if px.Many? then [|px.at|] else [], if py.Many? then [|py.at|] else [];
    SameSlices(u.a.shape, u.b.shape, m.shape, PickedShape(pa), lead, wx, wy, Rank(t));
  }

  /** Both factors have as many axes only if the last two entries keep as many. */
  lemma {:induction false} SameSlices(sa: seq<nat>, sb: seq<nat>, s: seq<nat>, la: seq<nat>, lb: seq<nat>, wx: seq<nat>, wy: seq<nat>, r: nat)
    requires sa == la + [r] + wy && sb == lb + wx + [r] && s == lb + wx + wy
    requires |sa| == |sb| && |la| == |lb| && |wx| <= 1 && |wy| <= 1
    ensures |wx| == |wy| && (|wx| == 0 ==> |s| != |sa|)
    ensures |wx| == 1 ==> Lead(sa) == la && Lead(sb) == lb
  {
  }

  lemma {:induction false} TupleAxes(t: Lora, pa: seq<Pick>, ps: seq<Pick>, px: Pick, py: Pick)
    requires TuplePicks(t, pa, ps, px, py)
    ensures |PickedShape(pa)| == |PickedShape(ps)|
    ensures PickedShape(pa + [Whole(Rank(t))] + [py]) == PickedShape(pa) + [Rank(t)] + (if py.Many? then [|py.at|] else [])
    ensures PickedShape(ps + [px] + [Whole(Rank(t))]) == PickedShape(ps) + (if px.Many? then [|px.at|] else []) + [Rank(t)]
  {
    SameLength(pa, ps, Lead(t.a.shape));
    UnitRange(0, Rank(t));
    ShapeOfTwo(pa, Whole(Rank(t)), py);
    ShapeOfTwo(ps, px, Whole(Rank(t)));
  }

  lemma {:induction false} ShapeOfTwo(ps: seq<Pick>, x: Pick, y: Pick)
    ensures PickedShape(ps + [x] + [y]) ==
            PickedShape(ps) + (if x.Many? then [|x.at|] else []) + (if y.Many? then [|y.at|] else [])
  {
    assert (ps + [x] + [y])[..|ps| + 1] == ps + [x] && (ps + [x])[..|ps|] == ps;
  }

  /** A tuple whose last two entries are slices is always accepted. */
  lemma {:induction false} TupleAccepted(t: Lora, ixs: seq<Index>)
    requires Aligned(t) && 0 < |ixs| <= |t.a.shape| && GetItem(Materialize(t), ixs).Ok?
    requires PadIndices(ixs, |t.a.shape|)[|t.a.shape| - 2].Slice?
    requires PadIndices(ixs, |t.a.shape|)[|t.a.shape| - 1].Slice?
    ensures TupleOfFactors(t, ixs).Ok?
  {
    GetItemResolves(Materialize(t), ixs);
    FullTupleAccepted(t, PadIndices(ixs, |t.a.shape|));
  }

  lemma {:induction false} GetItemResolves(x: Tensor, ixs: seq<Index>)
    requires |ixs| <= |x.shape| && GetItem(x, ixs).Ok?
    ensures ResolveAll(PadIndices(ixs, |x.shape|), x.shape).Ok?
  {
  }

  lemma {:induction false} FullTupleAccepted(t: Lora, full: seq<Index>)
    requires Aligned(t) && |full| == |t.a.shape| && ResolveAll(full, Shape(t)).Ok?
    requires full[|full| - 2].Slice? && full[|full| - 1].Slice?
    ensures FullTupleOfFactors(t, full).Ok?
  {
    var pa, ps, px, py := TupleParts(t, full);
    SlicesCreate(t, pa, ps, px, py);
  }

  lemma {:induction false} SlicesCreate(t: Lora, pa: seq<Pick>, ps: seq<Pick>, px: Pick, py: Pick)
    requires TuplePicks(t, pa, ps, px, py) && px.Many? && py.Many?
    ensures Create(PickElements(t.a, pa + [Whole(Rank(t))] + [py]),
                   PickElements(t.b, ps + [px] + [Whole(Rank(t))])).Ok?
  {
    TupleAxes(t, pa, ps, px, py);
    var sa := PickedShape(pa) + [Rank(t)] + [|py.at|];
    var sb := PickedShape(ps) + [|px.at|] + [Rank(t)];
    assert |sa| == |sb| >= 2 && sa[|sa| - 2] == sb[|sb| - 1];
  }
}
