/** Dense tensors with row-major data, and the torch operations that the converters apply to them. */
module Tensors {
  import opened Results
  import opened Shapes

  datatype RawTensor = Tensor(shape: seq<nat>, data: seq<real>)

  type Tensor = t: RawTensor | |t.data| == Size(t.shape) witness RawTensor.Tensor([0], [])

  function At(t: Tensor, c: seq<nat>): real
    requires InBounds(t.shape, c)
  {
    t.data[Offset(t.shape, c)]
  }

  /** The tensor whose element at each `c` is `f(c)`. */
  function Build(shape: seq<nat>, f: seq<nat> --> real): (t: Tensor)
    requires forall c :: InBounds(shape, c) ==> f.requires(c)
    ensures t.shape == shape
  {
    RawTensor.Tensor(shape, seq(Size(shape), k requires 0 <= k < Size(shape) => f(CoordsOf(shape, k))))
  }

  lemma {:induction false} BuildAt(shape: seq<nat>, f: seq<nat> --> real, c: seq<nat>)
    requires forall c :: InBounds(shape, c) ==> f.requires(c)
    requires InBounds(shape, c)
    ensures At(Build(shape, f), c) == f(c)
  {
    CoordsOfOffset(shape, c);
  }

  /** Two tensors of one shape with the same elements are the same tensor. */
  lemma {:induction false} Extensional(x: Tensor, y: Tensor)
    requires x.shape == y.shape
    requires forall c :: InBounds(x.shape, c) ==> At(x, c) == At(y, c)
    ensures x == y
  {
    forall k | 0 <= k < |x.data| ensures x.data[k] == y.data[k] {
      OffsetOfCoords(x.shape, k);
      assert At(x, CoordsOf(x.shape, k)) == At(y, CoordsOf(x.shape, k));
    }
  }

  // ----- reshape

  /** Product of requested dimensions, each `-1` counting as one. */
  function KnownProduct(dims: seq<int>): int {
    if |dims| == 0 then 1
    else KnownProduct(dims[..|dims| - 1]) * (if dims[|dims| - 1] == -1 then 1 else dims[|dims| - 1])
  }

  function FillInferred(dims: seq<int>, q: int): (r: seq<int>)
    ensures |r| == |dims|
  {
    seq(|dims|, d requires 0 <= d < |dims| => if dims[d] == -1 then q else dims[d])
  }

  predicate IsShape(dims: seq<int>) {
    forall d :: 0 <= d < |dims| ==> dims[d] >= 0
  }

  function AsShape(dims: seq<int>): (s: seq<nat>)
    requires IsShape(dims)
    ensures |s| == |dims| && forall d :: 0 <= d < |s| ==> s[d] == dims[d]
  {
    seq(|dims|, d requires 0 <= d < |dims| => dims[d] as nat)
  }

  /** `torch.reshape` to explicit dimensions: the data stays, the sizes must agree. */
  function ReshapeExact(x: Tensor, dims: seq<int>): Result<Tensor> {
    if !IsShape(dims) then Err("invalid shape dimension")
    else if Size(AsShape(dims)) != Size(x.shape) then Err("shape is invalid for input")
    else Ok(RawTensor.Tensor(AsShape(dims), x.data))
  }

  predicate AtMostOneInferred(dims: seq<int>) {
    forall d, e :: 0 <= d < e < |dims| ==> dims[d] != -1 || dims[e] != -1
  }

  /** `torch.reshape`: at most one dimension may be `-1`, standing for what remains. */
  function Reshape(x: Tensor, dims: seq<int>): Result<Tensor> {
    if -1 !in dims then ReshapeExact(x, dims)
    else if !AtMostOneInferred(dims) then Err("only one dimension can be inferred")
    else if exists d :: 0 <= d < |dims| && dims[d] < -1 then Err("invalid shape dimension")
    else if KnownProduct(dims) == 0 then Err("cannot reshape: unspecified dimension is ambiguous")
    else if Size(x.shape) % KnownProduct(dims) != 0 then Err("shape is invalid for input")
    else ReshapeExact(x, FillInferred(dims, Size(x.shape) / KnownProduct(dims)))
  }

  // ----- permute

  predicate Distinct(p: seq<int>) {
    forall d, e :: 0 <= d < e < |p| ==> p[d] != p[e]
  }

  /** A reordering of the axes 0 .. n-1. */
  predicate IsPermutation(p: seq<int>) {
    (forall d :: 0 <= d < |p| ==> 0 <= p[d] < |p|) && Distinct(p)
  }

  /** Every axis is hit (pigeonhole). */
  lemma {:induction false} PermutationOnto(p: seq<int>, a: int)
    requires IsPermutation(p) && 0 <= a < |p|
    ensures a in p
  {
    var hit := set d | 0 <= d < |p| :: p[d];
    DistinctCount(p, |p|);
    if a !in p {
      Fewer(hit, Below(|p|) - {a});
    }
  }

  lemma {:induction false} Fewer(x: set<int>, y: set<int>)
    requires x <= y
    ensures |x| <= |y|
  {
    assert y == x + (y - x);
  }

  /** The axes 0 .. n-1. */
  function Below(n: nat): (s: set<int>)
    ensures |s| == n && forall i :: i in s <==> 0 <= i < n
  {
    if n == 0 then {} else Below(n - 1) + {n - 1}
  }

  lemma {:induction false} DistinctCount(p: seq<int>, n: nat)
    requires Distinct(p) && n <= |p|
    ensures |set d | 0 <= d < n :: p[d]| == n
  {
    if n > 0 {
      DistinctCount(p, n - 1);
      assert (set d | 0 <= d < n :: p[d]) == (set d | 0 <= d < n - 1 :: p[d]) + {p[n - 1]};
    }
  }

  /** The place of axis `a` in `p`. */
  function Place(p: seq<int>, a: int): (d: nat)
    requires IsPermutation(p) && 0 <= a < |p|
    ensures d < |p| && p[d] == a
  {
    PermutationOnto(p, a);
    Find(p, a)
  }

  function Find(p: seq<int>, a: int): (d: nat)
    requires a in p
    ensures d < |p| && p[d] == a
  {
    if p[|p| - 1] == a then |p| - 1 else Find(p[..|p| - 1], a)
  }

  function PermutedShape(s: seq<nat>, p: seq<int>): (r: seq<nat>)
    requires IsPermutation(p) && |p| == |s|
    ensures |r| == |s|
  {
    seq(|s|, d requires 0 <= d < |s| => s[p[d]])
  }

  /** Where in the input the element at output coordinates `c` comes from. */
  function SourceCoords(p: seq<int>, c: seq<nat>): (r: seq<nat>)
    requires IsPermutation(p) && |p| == |c|
    ensures |r| == |c| && forall d :: 0 <= d < |p| ==> r[p[d]] == c[d]
  {
    var r := seq(|c|, a requires 0 <= a < |c| => c[Place(p, a)]);
    assert forall d :: 0 <= d < |p| ==> Place(p, p[d]) == d;
    r
  }

  lemma {:induction false} SourceInBounds(s: seq<nat>, p: seq<int>, c: seq<nat>)
    requires IsPermutation(p) && |p| == |s| && InBounds(PermutedShape(s, p), c)
    ensures InBounds(s, SourceCoords(p, c))
  {
    forall a | 0 <= a < |s| ensures SourceCoords(p, c)[a] < s[a] {
      assert p[Place(p, a)] == a;
    }
  }

  /** Axes as `torch.permute` reads them: negative ones count from the end. */
  function WrapAxes(dims: seq<int>, n: nat): (p: seq<int>)
    ensures |p| == |dims|
  {
    seq(|dims|, d requires 0 <= d < |dims| => if dims[d] < 0 then dims[d] + n else dims[d])
  }

  function PermuteAxes(x: Tensor, p: seq<int>): (y: Tensor)
    requires IsPermutation(p) && |p| == |x.shape|
    ensures y.shape == PermutedShape(x.shape, p)
  {
    Build(PermutedShape(x.shape, p),
          c requires InBounds(PermutedShape(x.shape, p), c) =>
            SourceInBounds(x.shape, p, c); At(x, SourceCoords(p, c)))
  }

  lemma {:induction false} PermuteAt(x: Tensor, p: seq<int>, c: seq<nat>)
    requires IsPermutation(p) && |p| == |x.shape| && InBounds(PermutedShape(x.shape, p), c)
    ensures InBounds(x.shape, SourceCoords(p, c))
    ensures At(PermuteAxes(x, p), c) == At(x, SourceCoords(p, c))
  {
    SourceInBounds(x.shape, p, c);
    BuildAt(PermutedShape(x.shape, p),
            c requires InBounds(PermutedShape(x.shape, p), c) =>
              SourceInBounds(x.shape, p, c); At(x, SourceCoords(p, c)),
            c);
  }

  function Permute(x: Tensor, dims: seq<int>): Result<Tensor> {
    var p := WrapAxes(dims, |x.shape|);
    if |dims| != |x.shape| || !IsPermutation(p) then Err("permute: bad dimensions")
    else Ok(PermuteAxes(x, p))
  }

  /** The axis list of `transpose`: the identity with two entries exchanged; Python lists accept negative places. */
  function SwappedAxes(n: nat, dim0: int, dim1: int): Result<seq<int>> {
    var d0 := if dim0 < 0 then dim0 + n else dim0;
    var d1 := if dim1 < 0 then dim1 + n else dim1;
    if 0 <= d0 < n && 0 <= d1 < n then
      Ok(seq(n, d => d)[d0 := d1][d1 := d0])
    else Err("list index out of range")
  }

  /** `torch.swapaxes`, the same function as `torch.transpose`. */
  function SwapAxes(x: Tensor, dim0: int, dim1: int): Result<Tensor> {
    var p :- SwappedAxes(|x.shape|, dim0, dim1);
    Permute(x, p)
  }

  // ----- indexing

  /** One entry of an index tuple. */
  datatype Index =
    | Select(i: int)
    | Slice(start: Option<int>, stop: Option<int>, step: Option<int>)

  const FULL: Index := Slice(None, None, None)

  /** A resolved entry: one position, which drops the axis, or a list of positions, which keeps it. */
  datatype Pick = One(i: nat) | Many(at: seq<nat>)

  function Clamp(i: int, n: nat): (r: nat)
    ensures r <= n
  {
    var j := if i < 0 then i + n else i;
    if j < 0 then 0 else if j > n then n else j
  }

  /** lo, lo + step, ... below hi. */
  function Range(lo: nat, hi: nat, step: nat): (r: seq<nat>)
    requires step > 0
    ensures forall k :: 0 <= k < |r| ==> lo <= r[k] < hi
    decreases hi - lo
  {
    if lo >= hi then [] else [lo] + Range(lo + step, hi, step)
  }

  function Resolve(ix: Index, n: nat): Result<Pick> {
    match ix
    case Select(i) =>
      if 0 <= i + n < 2 * n then Ok(One(if i < 0 then i + n else i)) else Err("index out of range")
    case Slice(start, stop, step) =>
      var st := if step.Some? then step.value else 1;
      if st <= 0 then Err("slice step must be positive")
      else
        Ok(Many(Range(if start.Some? then Clamp(start.value, n) else 0,
                      if stop.Some? then Clamp(stop.value, n) else n, st)))
  }

  function ResolveAll(ixs: seq<Index>, s: seq<nat>): (r: Result<seq<Pick>>)
    requires |ixs| == |s|
    ensures r.Ok? ==> Fits(r.value, s)
  {
    if |ixs| == 0 then Ok([])
    else
      var init :- ResolveAll(ixs[..|ixs| - 1], s[..|s| - 1]);
      var last :- Resolve(ixs[|ixs| - 1], s[|s| - 1]);
      Ok(init + [last])
  }

  predicate PickFits(p: Pick, n: nat) {
    match p
    case One(i) => i < n
    case Many(at) => forall k :: 0 <= k < |at| ==> at[k] < n
  }

  predicate Fits(ps: seq<Pick>, s: seq<nat>) {
    |ps| == |s| && forall d :: 0 <= d < |s| ==> PickFits(ps[d], s[d])
  }

  function PickedShape(ps: seq<Pick>): seq<nat> {
    if |ps| == 0 then []
    else
      var init := PickedShape(ps[..|ps| - 1]);
      match ps[|ps| - 1]
      case One(_) => init
      case Many(at) => init + [|at|]
  }

  /** Where in the input the element at output coordinates `c` comes from. */
  function PickedCoords(ps: seq<Pick>, c: seq<nat>): (r: seq<nat>)
    requires InBounds(PickedShape(ps), c)
    ensures |r| == |ps|
  {
    if |ps| == 0 then []
    else
      match ps[|ps| - 1]
      case One(i) => PickedCoords(ps[..|ps| - 1], c) + [i]
      case Many(at) => PickedCoords(ps[..|ps| - 1], c[..|c| - 1]) + [at[c[|c| - 1]]]
  }

  lemma {:induction false} PickedInBounds(ps: seq<Pick>, s: seq<nat>, c: seq<nat>)
    requires Fits(ps, s) && InBounds(PickedShape(ps), c)
    ensures InBounds(s, PickedCoords(ps, c))
  {
    if ps != [] {
      var n := |ps| - 1;
      PickedInBounds(ps[..n], s[..n], if ps[n].One? then c else c[..|c| - 1]);
      assert PickFits(ps[n], s[n]);
    }
  }

  function PickElements(x: Tensor, ps: seq<Pick>): (y: Tensor)
    requires Fits(ps, x.shape)
    ensures y.shape == PickedShape(ps)
  {
    Build(PickedShape(ps),
          c requires InBounds(PickedShape(ps), c) =>
            PickedInBounds(ps, x.shape, c); At(x, PickedCoords(ps, c)))
  }

  lemma {:induction false} PickAt(x: Tensor, ps: seq<Pick>, c: seq<nat>)
    requires Fits(ps, x.shape) && InBounds(PickedShape(ps), c)
    ensures InBounds(x.shape, PickedCoords(ps, c))
    ensures At(PickElements(x, ps), c) == At(x, PickedCoords(ps, c))
  {
    PickedInBounds(ps, x.shape, c);
    BuildAt(PickedShape(ps),
            c requires InBounds(PickedShape(ps), c) =>
              PickedInBounds(ps, x.shape, c); At(x, PickedCoords(ps, c)),
            c);
  }

  /** Missing trailing entries select whole axes. */
  function PadIndices(ixs: seq<Index>, n: nat): (r: seq<Index>)
    ensures |ixs| <= n ==> |r| == n
    ensures |r| >= |ixs| && r[..|ixs|] == ixs
  {
    if |ixs| >= n then ixs else ixs + seq(n - |ixs|, _ => FULL)
  }

  /** `x[ixs]`. */
  function GetItem(x: Tensor, ixs: seq<Index>): Result<Tensor> {
    if |ixs| > |x.shape| then Err("too many indices")
    else
      var ps :- ResolveAll(PadIndices(ixs, |x.shape|), x.shape);
      Ok(PickElements(x, ps))
  }

  // ----- stack and cat along axis 0

  /** `torch.stack(xs, dim=0)`. */
  function Stack(xs: seq<Tensor>): Result<Tensor> {
    if xs == [] then Err("stack expects a non-empty list")
    else if exists i :: 0 <= i < |xs| && xs[i].shape != xs[0].shape then Err("stack expects equal sizes")
    else Ok(StackSame(xs))
  }

  function StackSame(xs: seq<Tensor>): (y: Tensor)
    requires |xs| > 0 && forall i :: 0 <= i < |xs| ==> xs[i].shape == xs[0].shape
    ensures y.shape == [|xs|] + xs[0].shape
  {
    var shape := [|xs|] + xs[0].shape;
    Build(shape, c requires InBounds(shape, c) => TailInBounds(shape, c); At(xs[c[0]], c[1..]))
  }

  lemma {:induction false} TailInBounds(s: seq<nat>, c: seq<nat>)
    requires |s| > 0 && InBounds(s, c)
    ensures c[0] < s[0] && InBounds(s[1..], c[1..])
  {
  }

  lemma {:induction false} StackAt(xs: seq<Tensor>, c: seq<nat>)
    requires |xs| > 0 && forall i :: 0 <= i < |xs| ==> xs[i].shape == xs[0].shape
    requires InBounds([|xs|] + xs[0].shape, c)
    ensures c[0] < |xs| && InBounds(xs[c[0]].shape, c[1..])
    ensures At(StackSame(xs), c) == At(xs[c[0]], c[1..])
  {
    var shape := [|xs|] + xs[0].shape;
    TailInBounds(shape, c);
    assert shape[1..] == xs[0].shape;
    BuildAt(shape, c requires InBounds(shape, c) => TailInBounds(shape, c); At(xs[c[0]], c[1..]), c);
  }

  predicate Joinable(x: Tensor, y: Tensor) {
    |x.shape| > 0 && |x.shape| == |y.shape| && x.shape[1..] == y.shape[1..]
  }

  lemma {:induction false} LowerInBounds(s: seq<nat>, t: seq<nat>, c: seq<nat>)
    requires |s| > 0 && |s| == |t| && s[1..] == t[1..]
    requires InBounds([s[0] + t[0]] + s[1..], c) && c[0] >= s[0]
    ensures InBounds(t, c[0 := c[0] - s[0]])
  {
    forall d | 1 <= d < |t| ensures c[d] < t[d] {
      assert s[1..][d - 1] == t[1..][d - 1];
    }
  }

  /** The element of the joined tensor at `c`. */
  function JoinedElement(x: Tensor, y: Tensor, c: seq<nat>): real
    requires Joinable(x, y) && InBounds([x.shape[0] + y.shape[0]] + x.shape[1..], c)
  {
    if c[0] < x.shape[0] then At(x, c)
    else
      LowerInBounds(x.shape, y.shape, c);
      At(y, c[0 := c[0] - x.shape[0]])
  }

  function JoinTwo(x: Tensor, y: Tensor): (z: Tensor)
    requires Joinable(x, y)
    ensures z.shape == [x.shape[0] + y.shape[0]] + x.shape[1..]
  {
    var shape := [x.shape[0] + y.shape[0]] + x.shape[1..];
    Build(shape, c requires InBounds(shape, c) => JoinedElement(x, y, c))
  }

  lemma {:induction false} JoinAt(x: Tensor, y: Tensor, c: seq<nat>)
    requires Joinable(x, y)
    requires InBounds([x.shape[0] + y.shape[0]] + x.shape[1..], c)
    ensures At(JoinTwo(x, y), c) == JoinedElement(x, y, c)
    ensures c[0] >= x.shape[0] ==> InBounds(y.shape, c[0 := c[0] - x.shape[0]])
  {
    var shape := [x.shape[0] + y.shape[0]] + x.shape[1..];
    if c[0] >= x.shape[0] {
      LowerInBounds(x.shape, y.shape, c);
    }
    BuildAt(shape, c requires InBounds(shape, c) => JoinedElement(x, y, c), c);
  }

  /** `torch.cat(xs, dim=0)`. */
  function Cat(xs: seq<Tensor>): Result<Tensor> {
    if xs == [] then Err("cat expects a non-empty list")
    else if xs[0].shape == [] then Err("zero-dimensional tensor cannot be concatenated")
    else if |xs| == 1 then Ok(xs[0])
    else
      var rest :- Cat(xs[1..]);
      if Joinable(xs[0], rest) then Ok(JoinTwo(xs[0], rest)) else Err("sizes of tensors must match")
  }
}
