/** Inputs on which the factored operations and the dense ones part ways. */
module LoraLimits {
  import opened Results
  import opened Shapes
  import opened Tensors
  import opened LoraTensors
  import opened LoraIndex
  import opened LoraGetItem
  import opened LoraItem
  import opened LoraEllipsis

  /** A 2 x 1 product of rank zero. */
  function Nothing(): (t: Lora)
    ensures t.a.shape == [0, 1] && t.b.shape == [2, 0] && Aligned(t)
  {
    SizeOfTwo(0, 1);
    SizeOfTwo(2, 0);
    RawLora.Lora(RawTensor.Tensor([0, 1], []), RawTensor.Tensor([2, 0], []))
  }

  lemma {:induction false} Exact(x: Tensor, dims: seq<int>, s: seq<nat>)
    requires |dims| == |s| && forall d :: 0 <= d < |s| ==> dims[d] == s[d]
    ensures ReshapeExact(x, dims).Ok? <==> Size(s) == |x.data|
    ensures ReshapeExact(x, dims).Ok? ==> ReshapeExact(x, dims).value.shape == s
  {
    assert AsShape(dims) == s;
  }

  /** With rank zero the factors accept a reshape that changes the number of elements. */
  lemma {:induction false} RankZeroReshape()
    ensures Rank(Nothing()) == 0
    ensures ReshapeFactors(Nothing(), [3, 1]).Ok? && Reshape(Materialize(Nothing()), [3, 1]).Err?
  {
    NothingReshaped();
    SizeOfTwo(3, 1);
    SizeOfTwo(2, 1);
    assert Shape(Nothing()) == [2, 1];
    Exact(Materialize(Nothing()), [3, 1], [3, 1]);
  }

  lemma {:induction false} NothingReshaped()
    ensures ReshapeFactors(Nothing(), [3, 1]).Ok?
  {
    SizeOfTwo(3, 0);
    SizeOfTwo(2, 0);
    MatrixReshaped(Nothing(), 3, 0, 1);
  }

  /** A factored matrix takes any number of rows with which B keeps its size. */
  lemma {:induction false} MatrixReshaped(t: Lora, rows: nat, rank: nat, cols: nat)
    requires t.a.shape == [rank, cols] && Rank(t) == rank && Size([rows, rank]) == Size(t.b.shape)
    ensures ReshapeFactors(t, [rows, cols]).Ok?
  {
    Exact(t.a, Ones(0) + [rank, cols], [rank, cols]);
    Exact(t.b, [rows, cols][..1] + [rank], [rows, rank]);
  }

  /** A 1 x 1 product of rank one. */
  function Single(): (t: Lora)
    ensures t.a.shape == [1, 1] && t.b.shape == [1, 1] && Aligned(t)
  {
    SizeOfTwo(1, 1);
    RawLora.Lora(RawTensor.Tensor([1, 1], [1.0]), RawTensor.Tensor([1, 1], [1.0]))
  }

  /** With one element the factors accept two inferred dimensions. */
  lemma {:induction false} TwoInferred()
    ensures ReshapeFactors(Single(), [-1, -1, 1]).Ok? && Reshape(Materialize(Single()), [-1, -1, 1]).Err?
  {
    var t, dims := Single(), [-1, -1, 1];
    SizeOfTwo(1, 1);
    SizeOfThree(1, 1, 1);
    OneKnown(dims);
    assert dims[0] == -1 && dims[1] == -1;
    assert Shape(t) == [1, 1];
    BothFilled(dims);
    Exact(t.a, Ones(1) + [Rank(t), Cols(t)], [1, 1, 1]);
    Exact(t.b, [1, 1, 1][..2] + [Rank(t)], [1, 1, 1]);
  }

  lemma {:induction false} BothFilled(dims: seq<int>)
    requires dims == [-1, -1, 1]
    ensures FillInferred(dims, 1) == [1, 1, 1]
  {
  }

  lemma {:induction false} OneKnown(dims: seq<int>)
    requires dims == [-1, -1, 1]
    ensures KnownProduct(dims) == 1
  {
    assert dims[..2] == [-1, -1] && dims[..2][..1] == [-1] && dims[..2][..1][..0] == [];
    assert KnownProduct(dims[..2][..1]) == 1;
    assert KnownProduct(dims[..2]) == 1;
  }

  /** A batch of two 1 x 1 matrices whose A is broadcast. */
  function Pair(): (t: Lora)
    ensures t.a.shape == [1, 1, 1] && t.b.shape == [2, 1, 1] && Aligned(t)
  {
    SizeOfThree(1, 1, 1);
    SizeOfThree(2, 1, 1);
    RawLora.Lora(RawTensor.Tensor([1, 1, 1], [1.0]), RawTensor.Tensor([2, 1, 1], [1.0, 2.0]))
  }

  const DROP_BOTH: seq<Index> := [FULL, Select(0), Select(0)]

  lemma {:induction false} PairResolves()
    ensures ResolveAll(DROP_BOTH, Shape(Pair())).Ok?
  {
    var t := Pair();
    SplitTuple(DROP_BOTH);
    SplitShapes(t);
    ResolveFull(2);
    assert DROP_BOTH[..1] == [] + [FULL] && Lead(t.b.shape) == [] + [2];
    ResolveSnoc([], [], FULL, 2);
    ResolveTwo(DROP_BOTH[..1], Lead(t.b.shape), Select(0), 1, Select(0), 1);
  }

  /** `t[:, 0, 0]` is accepted and keeps an axis too many. */
  lemma {:induction false} BothAxesDropped()
    ensures TupleOfFactors(Pair(), DROP_BOTH).Ok? && GetItem(Materialize(Pair()), DROP_BOTH).Ok?
    ensures |Shape(TupleOfFactors(Pair(), DROP_BOTH).value)| == 2
    ensures |GetItem(Materialize(Pair()), DROP_BOTH).value.shape| == 1
  {
    PairResolves();
    NothingToPad(DROP_BOTH);
    var pa, ps, px, py := TupleParts(Pair(), DROP_BOTH);
    PairShapes(pa, ps, px, py);
    DroppedFactors(Pair(), DROP_BOTH, pa + [Whole(1)] + [py], ps + [px] + [Whole(1)]);
  }

  lemma {:induction false} NothingToPad(ixs: seq<Index>)
    ensures PadIndices(ixs, |ixs|) == ixs
  {
  }

  lemma {:induction false} DroppedFactors(t: Lora, full: seq<Index>, p: seq<Pick>, q: seq<Pick>)
    requires |full| == |t.a.shape| > 0 && PadIndices(full, |full|) == full && Fits(p, t.a.shape) && Fits(q, t.b.shape)
    requires FullTupleOfFactors(t, full) == Create(PickElements(t.a, p), PickElements(t.b, q))
    requires PickedShape(p) == [1, 1] && |PickedShape(q)| == 2 && PickedShape(q)[1] == 1
    ensures TupleOfFactors(t, full).Ok? && |Shape(TupleOfFactors(t, full).value)| == 2
  {
  }

  lemma {:induction false} PairShapes(pa: seq<Pick>, ps: seq<Pick>, px: Pick, py: Pick)
    requires TuplePicks(Pair(), pa, ps, px, py) && px.One? && py.One?
    requires LeadOfB(Pair(), DROP_BOTH) == Ok(ps)
    ensures PickedShape(pa + [Whole(1)] + [py]) == [1, 1]
    ensures |PickedShape(ps + [px] + [Whole(1)])| == 2 && PickedShape(ps + [px] + [Whole(1)])[1] == 1
    ensures |PickedShape(ps + [px] + [py])| == 1
  {
    var t := Pair();
    UnitRange(0, 1);
    ResolvedPick(DROP_BOTH[..1], Lead(t.b.shape), 0);
    assert Lead(t.a.shape) == [1];
    LeadOne(pa, ps);
    OneWhole(ps);
    ShapeOfTwo(pa, Whole(1), py);
    ShapeOfTwo(ps, px, Whole(1));
    ShapeOfTwo(ps, px, py);
  }

  lemma {:induction false} OneWhole(ps: seq<Pick>)
    requires |ps| == 1 && ps[0].Many?
    ensures PickedShape(ps) == [|ps[0].at|]
  {
    assert ps[..0] == [];
  }

  lemma {:induction false} LeadOne(pa: seq<Pick>, ps: seq<Pick>)
    requires LeadPicks(pa, ps, [1]) && ps[0].Many?
    ensures PickedShape(pa) == [1]
  {
    assert LeadPick(pa[0], ps[0], 1);
    UnitRange(0, 1);
    OneWhole(pa);
  }

  /** `torch.cat([t, t])` is accepted and no longer has a meaning: A has two batches, B has four. */
  lemma {:induction false} BroadcastCat()
    ensures CatFactors([Pair(), Pair()]).Ok?
    ensures !Aligned(CatFactors([Pair(), Pair()]).value)
  {
    var t := Pair();
    var ts := [t, t];
    assert FactorsA(ts) == [t.a, t.a] && FactorsB(ts) == [t.b, t.b];
    CatPair(t.a);
    CatPair(t.b);
    var u := CatFactors(ts).value;
    assert Lead(u.a.shape)[0] == 2 && Lead(u.b.shape)[0] == 4;
  }

  lemma {:induction false} CatPair(x: Tensor)
    requires x.shape != []
    ensures Cat([x, x]) == Ok(JoinTwo(x, x))
  {
    assert [x, x][1..] == [x];
    assert Cat([x]) == Ok(x);
  }

  /** Two 1 x 1 matrices, neither factor broadcast. */
  function Batch(): (t: Lora)
    ensures t.a.shape == [2, 1, 1] && t.b.shape == [2, 1, 1] && Aligned(t)
  {
    SizeOfThree(2, 1, 1);
    RawLora.Lora(RawTensor.Tensor([2, 1, 1], [1.0, 2.0]), RawTensor.Tensor([2, 1, 1], [1.0, 2.0]))
  }

  const FIRST_BATCH: seq<Index> := [FIRST_ONE, FULL, FULL]

  lemma {:induction false} FirstOfTwo()
    ensures Resolve(FIRST_ONE, 2) == Ok(Many(Range(0, 1, 1))) && SliceLength(FIRST_ONE, 2) == 1
  {
    UnitRange(0, 1);
  }

  lemma {:induction false} BatchResolves()
    ensures ResolveAll(FIRST_BATCH, Shape(Batch())).Ok?
  {
    FirstOfTwo();
    ResolveFull(1);
    ResolveSnoc([], [], FIRST_ONE, 2);
    assert FIRST_BATCH == ([] + [FIRST_ONE]) + [FULL] + [FULL] && Shape(Batch()) == ([] + [2]) + [1] + [1];
    ResolveTwo([] + [FIRST_ONE], [] + [2], FULL, 1, FULL, 1);
  }

  /** `t[0:1, :, :]` is accepted and cuts B but not A. */
  lemma {:induction false} FullAxisCut()
    ensures TupleOfFactors(Batch(), FIRST_BATCH).Ok? && GetItem(Materialize(Batch()), FIRST_BATCH).Ok?
    ensures var u, m := TupleOfFactors(Batch(), FIRST_BATCH).value, GetItem(Materialize(Batch()), FIRST_BATCH).value;
            !(Aligned(u) && Materialize(u) == m)
  {
    var t := Batch();
    NothingToPad(FIRST_BATCH);
    BatchResolves();
    TupleAccepted(t, FIRST_BATCH);
    FirstOfTwo();
    assert FIRST_BATCH[0].Slice? && t.a.shape[0] == 2;
    TupleExact(t, FIRST_BATCH, TupleOfFactors(t, FIRST_BATCH).value, GetItem(Materialize(t), FIRST_BATCH).value);
  }

  const SECOND_ONE: Index := Slice(Some(1), Some(2), None)

  /** `t[1:2]` is accepted and takes nothing of a broadcast A. */
  lemma {:induction false} BroadcastSliced()
    ensures ItemOfFactors(Pair(), SECOND_ONE).Ok? && GetItem(Materialize(Pair()), [SECOND_ONE]).Ok?
    ensures var u, m := ItemOfFactors(Pair(), SECOND_ONE).value, GetItem(Materialize(Pair()), [SECOND_ONE]).value;
            !(Aligned(u) && Materialize(u) == m)
  {
    SecondSlices();
    NotSupported(Pair(), SECOND_ONE);
  }

  lemma {:induction false} NotSupported(t: Lora, ix: Index)
    requires Aligned(t) && |t.a.shape| == 3 && ix.Slice? && !ItemSupported(t, ix)
    requires Resolve(ix, t.a.shape[0]).Ok? && Resolve(ix, t.b.shape[0]).Ok?
    ensures ItemOfFactors(t, ix).Ok? && GetItem(Materialize(t), [ix]).Ok?
    ensures var u, m := ItemOfFactors(t, ix).value, GetItem(Materialize(t), [ix]).value; !(Aligned(u) && Materialize(u) == m)
  {
    SlicedShapes(t.a, t.b, ix);
    ItemPicks(Materialize(t), ix);
    ItemExact(t, ix, ItemOfFactors(t, ix).value, GetItem(Materialize(t), [ix]).value);
  }

  lemma {:induction false} SecondSlices()
    ensures Resolve(SECOND_ONE, 1) == Ok(Many([])) && Resolve(SECOND_ONE, 2) == Ok(Many(Range(1, 2, 1)))
    ensures SliceLength(SECOND_ONE, 1) == 0 && SliceLength(SECOND_ONE, 2) == 1
  {
    UnitRange(1, 2);
  }

  /** A slice of the first axis leaves the ranks alone. */
  lemma {:induction false} SlicedShapes(a: Tensor, b: Tensor, ix: Index)
    requires |a.shape| == |b.shape| == 3 && a.shape[1] == b.shape[2] && ix.Slice?
    requires Resolve(ix, a.shape[0]).Ok? && Resolve(ix, b.shape[0]).Ok?
    ensures GetItem(a, [ix]).Ok? && GetItem(b, [ix]).Ok? && Create(GetItem(a, [ix]).value, GetItem(b, [ix]).value).Ok?
  {
    SlicedShape(a, ix);
    SlicedShape(b, ix);
  }

  lemma {:induction false} SlicedShape(x: Tensor, ix: Index)
    requires |x.shape| == 3 && ix.Slice? && Resolve(ix, x.shape[0]).Ok?
    ensures GetItem(x, [ix]).Ok? && |GetItem(x, [ix]).value.shape| == 3 && GetItem(x, [ix]).value.shape[1..] == x.shape[1..]
  {
    ItemPicks(x, ix);
    FirstAxis(Resolve(ix, x.shape[0]).value.at, Wholes(x.shape[1..]));
    WholesFit(x.shape[1..]);
  }
}
