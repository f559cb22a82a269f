/** The factored tensor that stands for the product B @ A and is never multiplied out. */
module LoraTensors {
  import opened Results
  import opened Shapes
  import opened Tensors

  // ----- data model

  /** Factors `a` of shape (..., rank, cols) and `b` of shape (..., rows, rank). */
  datatype RawLora = Lora(a: Tensor, b: Tensor) {
    /** What the constructor asserts. */
    predicate Valid() {
      |a.shape| == |b.shape| >= 2 && a.shape[|a.shape| - 2] == b.shape[|b.shape| - 1]
    }
  }

  type Lora = t: RawLora | t.Valid()
    witness RawLora.Lora(RawTensor.Tensor([0, 0], []), RawTensor.Tensor([0, 0], []))

  function Create(a: Tensor, b: Tensor): (r: Result<Lora>)
    ensures r.Ok? ==> r.value.a == a && r.value.b == b
  {
    if RawLora.Lora(a, b).Valid() then Ok(RawLora.Lora(a, b)) else Err("assertion failed")
  }

  function Rank(t: Lora): nat {
    t.b.shape[|t.b.shape| - 1]
  }

  function Cols(t: Lora): nat {
    t.a.shape[|t.a.shape| - 1]
  }

  function Shape(t: Lora): (s: seq<nat>)
    ensures |s| == |t.a.shape|
  {
    t.b.shape[..|t.b.shape| - 1] + [Cols(t)]
  }

  /** Leading axes of a factor: all but the last two. */
  function Lead(s: seq<nat>): seq<nat>
    requires |s| >= 2
  {
    s[..|s| - 2]
  }

  predicate AllOnes(s: seq<nat>) {
    forall d :: 0 <= d < |s| ==> s[d] == 1
  }

  predicate UnitLead(t: Lora) {
    AllOnes(Lead(t.a.shape))
  }

  /** Each leading axis of A is broadcast or as long as that of B. */
  predicate Broadcasts(sa: seq<nat>, sb: seq<nat>) {
    |sa| == |sb| && forall d :: 0 <= d < |sa| ==> sa[d] == 1 || sa[d] == sb[d]
  }

  predicate Aligned(t: Lora) {
    Broadcasts(Lead(t.a.shape), Lead(t.b.shape))
  }

  // ----- meaning

  function Dot(x: seq<real>, y: seq<real>): real
    requires |x| == |y|
  {
    if |x| == 0 then 0.0 else Dot(x[..|x| - 1], y[..|y| - 1]) + x[|x| - 1] * y[|y| - 1]
  }

  lemma {:induction false} DotCommutes(x: seq<real>, y: seq<real>)
    requires |x| == |y|
    ensures Dot(x, y) == Dot(y, x)
  {
    if x != [] {
      DotCommutes(x[..|x| - 1], y[..|y| - 1]);
    }
  }

  /** Leading coordinates as the broadcast factor reads them. */
  function BroadcastCoords(sa: seq<nat>, c: seq<nat>): (r: seq<nat>)
    requires |sa| <= |c|
    ensures |r| == |sa|
  {
    seq(|sa|, d requires 0 <= d < |sa| => if sa[d] == 1 then 0 else c[d])
  }

  function RowCoords(c: seq<nat>, k: nat): seq<nat>
    requires |c| > 0
  {
    c[..|c| - 1] + [k]
  }

  function ColCoords(sa: seq<nat>, c: seq<nat>, k: nat): (r: seq<nat>)
    requires |c| == |sa| >= 2
    ensures |r| == |sa|
  {
    BroadcastCoords(Lead(sa), c) + [k, c[|c| - 1]]
  }

  lemma {:induction false} FactorBounds(t: Lora, c: seq<nat>, k: nat)
    requires Aligned(t) && InBounds(Shape(t), c) && k < Rank(t)
    ensures InBounds(t.b.shape, RowCoords(c, k))
    ensures InBounds(t.a.shape, ColCoords(t.a.shape, c, k))
  {
    var n := |t.a.shape|;
    var s := Shape(t);
    forall d | 0 <= d < n ensures RowCoords(c, k)[d] < t.b.shape[d] {
      if d < n - 1 { assert s[d] == t.b.shape[d]; }
    }
    forall d | 0 <= d < n ensures ColCoords(t.a.shape, c, k)[d] < t.a.shape[d] {
      if d < n - 2 {
        assert Lead(t.a.shape)[d] == t.a.shape[d] && Lead(t.b.shape)[d] == t.b.shape[d];
        assert s[d] == t.b.shape[d];
      }
    }
  }

  /** Row of B and column of A that meet in the element at `c`. */
  function Row(t: Lora, c: seq<nat>): (r: seq<real>)
    requires Aligned(t) && InBounds(Shape(t), c)
    ensures |r| == Rank(t)
  {
    seq(Rank(t), k requires 0 <= k < Rank(t) => FactorBounds(t, c, k); At(t.b, RowCoords(c, k)))
  }

  function Col(t: Lora, c: seq<nat>): (r: seq<real>)
    requires Aligned(t) && InBounds(Shape(t), c)
    ensures |r| == Rank(t)
  {
    seq(Rank(t), k requires 0 <= k < Rank(t) => FactorBounds(t, c, k); At(t.a, ColCoords(t.a.shape, c, k)))
  }

  /** The tensor a factored tensor stands for: the batched matrix product `b @ a`. */
  function Materialize(t: Lora): (m: Tensor)
    requires Aligned(t)
    ensures m.shape == Shape(t)
  {
    Build(Shape(t), c requires InBounds(Shape(t), c) => Dot(Row(t, c), Col(t, c)))
  }

  lemma {:induction false} MaterializeAt(t: Lora, c: seq<nat>)
    requires Aligned(t) && InBounds(Shape(t), c)
    ensures At(Materialize(t), c) == Dot(Row(t, c), Col(t, c))
  {
    BuildAt(Shape(t), c requires InBounds(Shape(t), c) => Dot(Row(t, c), Col(t, c)), c);
  }

  /** Elements with the same row and column are the same. */
  lemma {:induction false} SameDot(t: Lora, c: seq<nat>, u: Lora, d: seq<nat>)
    requires Aligned(t) && Aligned(u) && InBounds(Shape(t), c) && InBounds(Shape(u), d)
    requires Row(t, c) == Row(u, d) && Col(t, c) == Col(u, d)
    ensures At(Materialize(t), c) == At(Materialize(u), d)
  {
    MaterializeAt(t, c);
    MaterializeAt(u, d);
  }

  // ----- reshape

  function ReshapeFactors(t: Lora, dims: seq<int>): Result<Lora> {
    if |dims| < 2 then Err("can't become a vector")
    else
      var full :- ExpandDims(dims, Size(Shape(t)));
      if full[|full| - 1] != Cols(t) then Err("can't reshape the row size trivially")
      else
        var a :- ReshapeExact(t.a, Ones(|full| - 2) + [Rank(t), Cols(t)]);
        var b :- ReshapeExact(t.b, full[..|full| - 1] + [Rank(t)]);
        Create(a, b)
  }

  /** Every `-1` is replaced by the quotient, however many there are. */
  function ExpandDims(dims: seq<int>, total: nat): (r: Result<seq<int>>)
    ensures r.Ok? ==> |r.value| == |dims|
  {
    if -1 !in dims then Ok(dims)
    else if KnownProduct(dims) == 0 then Err("integer modulo by zero")
    else if total % KnownProduct(dims) != 0 then Err("assertion failed")
    else Ok(FillInferred(dims, total / KnownProduct(dims)))
  }

  // ----- permute

  function FromEnd(dims: seq<int>, n: nat): (r: seq<int>)
    ensures |r| == |dims|
  {
    seq(|dims|, d requires 0 <= d < |dims| => if dims[d] >= 0 then dims[d] - n else dims[d])
  }

  function PermuteFactors(t: Lora, dims: seq<int>): Result<Lora> {
    var n := |t.a.shape|;
    var p := FromEnd(dims, n);
    if |p| == 0 then Err("tuple index out of range")
    else if p[|p| - 1] == -1 then
      if !UnitLead(t) then Err("assertion failed")
      else
        var b :- Permute(t.b, p);
        Create(t.a, b)
    else if n == 2 && p[|p| - 1] == -2 then
      if |p| < 2 then Err("tuple index out of range")
      else if p[|p| - 2] != -1 then Err("not implemented")
      else
        var a :- Permute(t.b, p);
        var b :- Permute(t.a, p);
        Create(a, b)
    else Err("not implemented")
  }

  function SwapFactorAxes(t: Lora, dim0: int, dim1: int): Result<Lora> {
    var p :- SwappedAxes(|t.a.shape|, dim0, dim1);
    PermuteFactors(t, p)
  }

  // ----- indexing

  /** `t[i]` and `t[i:j:k]`. */
  function ItemOfFactors(t: Lora, ix: Index): Result<Lora> {
    if |t.a.shape| > 2 then
      var a :- GetItem(t.a, [ix]);
      var b :- GetItem(t.b, [ix]);
      Create(a, b)
    else if ix.Select? then Err("can't return a vector")
    else
      var b :- GetItem(t.b, [ix]);
      Create(t.a, b)
  }

  /** Index tuple for the leading axes of A: positions wrap modulo its length, slices are dropped. */
  function LeadIndices(ixs: seq<Index>, sa: seq<nat>): (r: Result<seq<Index>>)
    requires |ixs| <= |sa|
    ensures r.Ok? ==> |r.value| == |ixs|
  {
    if |ixs| == 0 then Ok([])
    else
      var d := |ixs| - 1;
      var init :- LeadIndices(ixs[..d], sa);
      match ixs[d]
      case Slice(_, _, _) => Ok(init + [FULL])
      case Select(j) => if sa[d] == 0 then Err("integer modulo by zero") else Ok(init + [Select(j % sa[d])])
  }

  /** `t[ixs]` for a tuple without Ellipsis. */
  function TupleOfFactors(t: Lora, ixs: seq<Index>): Result<Lora> {
    if ixs == [] then Err("assertion failed")
    else if |ixs| > |t.a.shape| then Err("too many indices")
    else FullTupleOfFactors(t, PadIndices(ixs, |t.a.shape|))
  }

  /** `t[full]` for a tuple with an entry for every axis. */
  function FullTupleOfFactors(t: Lora, full: seq<Index>): Result<Lora>
    requires |full| == |t.a.shape|
  {
    var n := |full|;
    var lead :- LeadIndices(full[..n - 2], t.a.shape);
    var a :- GetItem(t.a, lead + [FULL, full[n - 1]]);
    var b :- GetItem(t.b, full[..n - 1]);
    Create(a, b)
  }

  // ----- stack and cat

  function FactorsA(ts: seq<Lora>): (r: seq<Tensor>)
    ensures |r| == |ts|
  {
    seq(|ts|, i requires 0 <= i < |ts| => ts[i].a)
  }

  function FactorsB(ts: seq<Lora>): (r: seq<Tensor>)
    ensures |r| == |ts|
  {
    seq(|ts|, i requires 0 <= i < |ts| => ts[i].b)
  }

  /** `torch.stack(ts, dim=0)`. */
  function StackFactors(ts: seq<Lora>): Result<Lora> {
    var a :- Stack(FactorsA(ts));
    var b :- Stack(FactorsB(ts));
    Create(a, b)
  }

  predicate SharedA(ts: seq<Lora>)
    requires ts != []
  {
    forall i :: 0 <= i < |ts| ==> ts[i].a == ts[0].a
  }

  /** `torch.cat(ts, dim=0)`. */
  function CatFactors(ts: seq<Lora>): Result<Lora> {
    if ts == [] then Err("list index out of range")
    else if |ts[0].a.shape| > 2 then
      var a :- Cat(FactorsA(ts));
      var b :- Cat(FactorsB(ts));
      Create(a, b)
    else if SharedA(ts) then
      var b :- Cat(FactorsB(ts));
      Create(ts[0].a, b)
    else Err("not implemented")
  }
}
