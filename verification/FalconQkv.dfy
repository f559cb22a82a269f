/** Falcon's query, key and value weights, regrouped from one run of rows for each key-value group to one run for each kind. */
module FalconQkv {
  import opened Results
  import opened Shapes
  import opened Tensors
  import opened LoraIndex
  import opened LoraGetItem

  // ----- the regrouping

  /** The number of key-value groups: one if it is not given. */
  function Groups(nHeadKv: Option<nat>): (n: nat)
    ensures n > 0
  {
    if nHeadKv.None? || nHeadKv.value == 0 then 1 else nHeadKv.value
  }

  const ALL_BUT_TWO := Slice(None, Some(-2), None)
  const LAST_BUT_ONE := Slice(Some(-2), Some(-1), None)
  const LAST := Slice(Some(-1), None, None)

  /** Some entries of the second axis, as rows. */
  function Part(qkv: Tensor, ix: Index, rows: nat, cols: nat): Result<Tensor> {
    var part :- GetItem(qkv, [FULL, ix]);
    Reshape(part, [rows, cols])
  }

  /** Three parts, one after the other, in the given shape. */
  function Assembled(q: Result<Tensor>, k: Result<Tensor>, v: Result<Tensor>, shape: seq<nat>): Result<Tensor> {
    var q' :- q;
    var k' :- k;
    var v' :- v;
    var all :- Cat([q', k', v']);
    Reshape(all, shape)
  }

  /** The joint tensor seen as `n` groups of entries of `d` rows, for `h` query heads. */
  function RegroupedAs(qkv: Tensor, n: nat, h: nat, d: nat, shape: seq<nat>): Result<Tensor> {
    Assembled(Part(qkv, ALL_BUT_TWO, h * d, d * h), Part(qkv, LAST_BUT_ONE, n * d, d * h), Part(qkv, LAST, n * d, d * h), shape)
  }

  // Quotient and remainder have names so that the statements about rows hold no division by a variable.

  function Over(x: nat, y: nat): nat
    requires y > 0
  {
    x / y
  }

  function Rest(x: nat, y: nat): nat
    requires y > 0
  {
    x % y
  }

  /** `modify_tensors` on the joint tensor. A list with one index keeps its axis, as the slice of length one does. */
  function Regrouped(x: Tensor, nHead: nat, nHeadKv: Option<nat>, hidden: nat): Result<Tensor> {
    if nHead == 0 then Err("ZeroDivisionError")
    else
      var n, d := Groups(nHeadKv), Over(hidden, nHead);
      var qkv :- Reshape(x, [n, Over(nHead, n) + 2, d, d * nHead]);
      RegroupedAs(qkv, n, nHead, d, x.shape)
  }

  // ----- cells

  /** Where element `c` of row `r` is, for rows of length `e`. */
  function Cell(r: nat, e: nat, c: nat): nat {
    r * e + c
  }

  /** Row `k` of entry `j` of group `i`, for groups of `b` entries of `d` rows. */
  function Row(b: nat, d: nat, i: nat, j: nat, k: nat): nat {
    (i * b + j) * d + k
  }

  /** Row `r` of `y` has in column `c` what row `s` of `x` has. */
  predicate SameCell(y: Tensor, r: nat, x: Tensor, s: nat, e: nat, c: nat) {
    && Cell(r, e, c) < |y.data| && Cell(s, e, c) < |x.data|
    && y.data[Cell(r, e, c)] == x.data[Cell(s, e, c)]
  }

  lemma {:induction false} OffsetOfOne(n: nat, r: nat)
    requires r < n
    ensures InBounds([n], [r]) && Offset([n], [r]) == r
  {
    OffsetSnoc([], [], n, r);
    assert [] + [n] == [n] && [] + [r] == [r];
  }

  lemma {:induction false} OffsetOfCell(rows: nat, e: nat, r: nat, c: nat)
    requires r < rows && c < e
    ensures InBounds([rows, e], [r, c]) && Offset([rows, e], [r, c]) == Cell(r, e, c)
  {
    OffsetOfOne(rows, r);
    OffsetSnoc([rows], [r], e, c);
    assert [rows] + [e] == [rows, e] && [r] + [c] == [r, c];
  }

  lemma {:induction false} OffsetOfRow(a: nat, b: nat, d: nat, e: nat, i: nat, j: nat, k: nat, c: nat)
    requires i < a && j < b && k < d && c < e
    ensures InBounds([a, b, d, e], [i, j, k, c])
    ensures Offset([a, b, d, e], [i, j, k, c]) == Cell(Row(b, d, i, j, k), e, c)
  {
    OffsetOfCell(a, b, i, j);
    OffsetSnoc([a, b], [i, j], d, k);
    assert [a, b] + [d] == [a, b, d] && [i, j] + [k] == [i, j, k];
    OffsetSnoc([a, b, d], [i, j, k], e, c);
    assert [a, b, d] + [e] == [a, b, d, e] && [i, j, k] + [c] == [i, j, k, c];
  }

  lemma {:induction false} SizeOfFour(a: nat, b: nat, d: nat, e: nat)
    ensures Size([a, b, d, e]) == a * b * d * e
  {
    SizeOfThree(a, b, d);
    SizeSnoc([a, b, d], e);
    assert [a, b, d] + [e] == [a, b, d, e];
  }

  // ----- slices of the second axis

  lemma {:induction false} PickedOne(ps: seq<Pick>, at: seq<nat>, c: seq<nat>, j: nat)
    requires InBounds(PickedShape(ps), c) && j < |at|
    ensures PickedShape(ps + [Many(at)]) == PickedShape(ps) + [|at|]
    ensures InBounds(PickedShape(ps + [Many(at)]), c + [j])
    ensures PickedCoords(ps + [Many(at)], c + [j]) == PickedCoords(ps, c) + [at[j]]
  {
    PickedSnoc(ps, at, c + [j]);
    assert (c + [j])[..|c|] == c;
  }

  lemma {:induction false} ShapeOfTwo(w: seq<nat>, x: seq<nat>)
    ensures PickedShape([Many(w), Many(x)]) == [|w|, |x|]
  {
    PickedSnoc([], w, []);
    PickedSnoc([Many(w)], x, []);
    assert [] + [Many(w)] == [Many(w)] && [Many(w)] + [Many(x)] == [Many(w), Many(x)];
    assert [] + [|w|] == [|w|] && [|w|] + [|x|] == [|w|, |x|];
  }

  lemma {:induction false} ShapeTail(ps: seq<Pick>, y: seq<nat>, z: seq<nat>)
    ensures PickedShape(ps + [Many(y), Many(z)]) == PickedShape(ps) + [|y|, |z|]
  {
    PickedSnoc(ps, y, []);
    PickedSnoc(ps + [Many(y)], z, []);
    assert ps + [Many(y)] + [Many(z)] == ps + [Many(y), Many(z)];
    assert PickedShape(ps) + [|y|] + [|z|] == PickedShape(ps) + [|y|, |z|];
  }

  lemma {:induction false} CoordsOfOne(w: seq<nat>, i: nat)
    requires i < |w|
    ensures PickedShape([Many(w)]) == [|w|] && InBounds(PickedShape([Many(w)]), [i])
    ensures PickedCoords([Many(w)], [i]) == [w[i]]
  {
    assert [Many(w)][..0] == [] && [i][..0] == [];
    assert PickedShape([]) + [|w|] == [|w|];
    assert PickedCoords([], []) + [w[i]] == [w[i]];
  }

  lemma {:induction false} CoordsOfTwo(w: seq<nat>, x: seq<nat>, i: nat, j: nat)
    requires i < |w| && j < |x|
    ensures InBounds(PickedShape([Many(w), Many(x)]), [i, j])
    ensures PickedCoords([Many(w), Many(x)], [i, j]) == [w[i], x[j]]
  {
    CoordsOfOne(w, i);
    PickedOne([Many(w)], x, [i], j);
    assert [Many(w)] + [Many(x)] == [Many(w), Many(x)] && [i] + [j] == [i, j] && [w[i]] + [x[j]] == [w[i], x[j]];
  }

  lemma {:induction false} CoordsTail(ps: seq<Pick>, y: seq<nat>, z: seq<nat>, c: seq<nat>, j: nat, k: nat)
    requires InBounds(PickedShape(ps), c) && j < |y| && k < |z|
    ensures InBounds(PickedShape(ps + [Many(y), Many(z)]), c + [j, k])
    ensures PickedCoords(ps + [Many(y), Many(z)], c + [j, k]) == PickedCoords(ps, c) + [y[j], z[k]]
  {
    PickedOne(ps, y, c, j);
    PickedOne(ps + [Many(y)], z, c + [j], k);
    assert ps + [Many(y)] + [Many(z)] == ps + [Many(y), Many(z)];
    assert c + [j] + [k] == c + [j, k];
    assert PickedCoords(ps, c) + [y[j]] + [z[k]] == PickedCoords(ps, c) + [y[j], z[k]];
  }

  function FourPicks(w: seq<nat>, x: seq<nat>, y: seq<nat>, z: seq<nat>): seq<Pick> {
    [Many(w), Many(x)] + [Many(y), Many(z)]
  }

  lemma {:induction false} FourShape(w: seq<nat>, x: seq<nat>, y: seq<nat>, z: seq<nat>)
    ensures PickedShape(FourPicks(w, x, y, z)) == [|w|, |x|, |y|, |z|]
  {
    ShapeOfTwo(w, x);
    ShapeTail([Many(w), Many(x)], y, z);
  }

  lemma {:induction false} FourCoords(w: seq<nat>, x: seq<nat>, y: seq<nat>, z: seq<nat>, i: nat, j: nat, k: nat, c: nat)
    requires i < |w| && j < |x| && k < |y| && c < |z|
    ensures InBounds(PickedShape(FourPicks(w, x, y, z)), [i, j, k, c])
    ensures PickedCoords(FourPicks(w, x, y, z), [i, j, k, c]) == [w[i], x[j], y[k], z[c]]
  {
    CoordsOfTwo(w, x, i, j);
    CoordsTail([Many(w), Many(x)], y, z, [i, j], k, c);
    assert [i, j] + [k, c] == [i, j, k, c];
    assert [w[i], x[j]] + [y[k], z[c]] == [w[i], x[j], y[k], z[c]];
  }

  /** Entries `lo` to `hi` of the second axis. */
  function Picks(a: nat, lo: nat, hi: nat, d: nat, e: nat): seq<Pick> {
    FourPicks(Range(0, a, 1), Range(lo, hi, 1), Range(0, d, 1), Range(0, e, 1))
  }

  lemma {:induction false} ResolveNext(ixs: seq<Index>, s: seq<nat>, ps: seq<Pick>, ix: Index, n: nat, p: Pick)
    requires |ixs| == |s| && ResolveAll(ixs, s) == Ok(ps) && Resolve(ix, n) == Ok(p)
    ensures ResolveAll(ixs + [ix], s + [n]) == Ok(ps + [p])
  {
    ResolveSnoc(ixs, s, ix, n);
  }

  lemma {:induction false} ResolveTail(ixs: seq<Index>, s: seq<nat>, ps: seq<Pick>, x: Index, m: nat, p: Pick, y: Index, n: nat, q: Pick)
    requires |ixs| == |s| && ResolveAll(ixs, s) == Ok(ps) && Resolve(x, m) == Ok(p) && Resolve(y, n) == Ok(q)
    ensures ResolveAll(ixs + [x, y], s + [m, n]) == Ok(ps + [p, q])
  {
    ResolveNext(ixs, s, ps, x, m, p);
    ResolveNext(ixs + [x], s + [m], ps + [p], y, n, q);
    assert ixs + [x] + [y] == ixs + [x, y] && s + [m] + [n] == s + [m, n] && ps + [p] + [q] == ps + [p, q];
  }

  lemma {:induction false} ResolvePair(x: Index, m: nat, p: Pick, y: Index, n: nat, q: Pick)
    requires Resolve(x, m) == Ok(p) && Resolve(y, n) == Ok(q)
    ensures ResolveAll([x, y], [m, n]) == Ok([p, q])
  {
    ResolveTail([], [], [], x, m, p, y, n, q);
    assert [] + [x, y] == [x, y] && [] + [m, n] == [m, n] && [] + [p, q] == [p, q];
  }

  lemma {:induction false} ResolvedPicks(a: nat, b: nat, d: nat, e: nat, ix: Index, lo: nat, hi: nat)
    requires Resolve(ix, b) == Ok(Many(Range(lo, hi, 1)))
    ensures ResolveAll([FULL, ix] + [FULL, FULL], [a, b] + [d, e]) == Ok(Picks(a, lo, hi, d, e))
  {
    var pa, pb := Many(Range(0, a, 1)), Many(Range(lo, hi, 1));
    ResolveFull(a);
    ResolveFull(d);
    ResolveFull(e);
    ResolvePair(FULL, a, pa, ix, b, pb);
    ResolveTail([FULL, ix], [a, b], [pa, pb], FULL, d, Many(Range(0, d, 1)), FULL, e, Many(Range(0, e, 1)));
  }

  /** The tensor of some entries of the second axis. */
  lemma {:induction false} EntriesOf(x: Tensor, a: nat, b: nat, d: nat, e: nat, ix: Index, lo: nat, hi: nat)
    requires x.shape == [a, b, d, e] && Resolve(ix, b) == Ok(Many(Range(lo, hi, 1))) && lo <= hi <= b
    ensures Fits(Picks(a, lo, hi, d, e), x.shape)
    ensures GetItem(x, [FULL, ix]) == Ok(PickElements(x, Picks(a, lo, hi, d, e)))
    ensures PickedShape(Picks(a, lo, hi, d, e)) == [a, hi - lo, d, e]
  {
    ResolvedPicks(a, b, d, e, ix, lo, hi);
    PaddedPair(FULL, ix);
    assert [a, b] + [d, e] == x.shape;
    EntriesShape(a, lo, hi, d, e);
  }

  lemma {:induction false} PaddedPair(x: Index, y: Index)
    ensures PadIndices([x, y], 4) == [x, y] + [FULL, FULL]
  {
  }

  lemma {:induction false} EntriesShape(a: nat, lo: nat, hi: nat, d: nat, e: nat)
    requires lo <= hi
    ensures PickedShape(Picks(a, lo, hi, d, e)) == [a, hi - lo, d, e]
  {
    RangeSize(0, a);
    RangeSize(lo, hi);
    RangeSize(0, d);
    RangeSize(0, e);
    FourShape(Range(0, a, 1), Range(lo, hi, 1), Range(0, d, 1), Range(0, e, 1));
  }

  lemma {:induction false} RangeSize(lo: nat, hi: nat)
    requires lo <= hi
    ensures |Range(lo, hi, 1)| == hi - lo
  {
    UnitRange(lo, hi);
  }

  lemma {:induction false} ReshapedTo(y: Tensor, dims: seq<nat>)
    requires Size(dims) == Size(y.shape)
    ensures Reshape(y, dims) == Ok(RawTensor.Tensor(dims, y.data))
  {
    assert -1 !in dims && AsShape(dims) == dims;
  }

  /** Some entries of every group, as rows. */
  lemma {:induction false} PartIs(x: Tensor, a: nat, b: nat, d: nat, e: nat, ix: Index, lo: nat, hi: nat, rows: nat)
    requires x.shape == [a, b, d, e] && Resolve(ix, b) == Ok(Many(Range(lo, hi, 1))) && lo <= hi <= b
    requires rows == a * (hi - lo) * d
    ensures Fits(Picks(a, lo, hi, d, e), x.shape)
    ensures Part(x, ix, rows, e) == Ok(RawTensor.Tensor([rows, e], PickElements(x, Picks(a, lo, hi, d, e)).data))
  {
    EntriesOf(x, a, b, d, e, ix, lo, hi);
    SizeOfRows(a, hi - lo, d, e, rows);
    PartReshaped(x, ix, PickElements(x, Picks(a, lo, hi, d, e)), rows, e);
  }

  lemma {:induction false} SizeOfRows(a: nat, m: nat, d: nat, e: nat, rows: nat)
    requires rows == a * m * d
    ensures Size([rows, e]) == Size([a, m, d, e])
  {
    SizeOfFour(a, m, d, e);
    SizeOfTwo(rows, e);
  }

  lemma {:induction false} PartReshaped(x: Tensor, ix: Index, p: Tensor, rows: nat, e: nat)
    requires GetItem(x, [FULL, ix]) == Ok(p) && Size([rows, e]) == Size(p.shape)
    ensures Part(x, ix, rows, e) == Ok(RawTensor.Tensor([rows, e], p.data))
  {
    ReshapedTo(p, [rows, e]);
  }

  lemma {:induction false} EntryAt(x: Tensor, a: nat, b: nat, d: nat, e: nat, lo: nat, hi: nat, i: nat, j: nat, k: nat, c: nat)
    requires x.shape == [a, b, d, e] && Fits(Picks(a, lo, hi, d, e), x.shape) && lo <= hi <= b
    requires i < a && j < hi - lo && k < d && c < e
    ensures InBounds(PickedShape(Picks(a, lo, hi, d, e)), [i, j, k, c]) && InBounds(x.shape, [i, lo + j, k, c])
    ensures At(PickElements(x, Picks(a, lo, hi, d, e)), [i, j, k, c]) == At(x, [i, lo + j, k, c])
  {
    EntryCoords(a, lo, hi, d, e, i, j, k, c);
    PickAt(x, Picks(a, lo, hi, d, e), [i, j, k, c]);
  }

  lemma {:induction false} RangeAt(lo: nat, hi: nat, k: nat)
    requires lo + k < hi
    ensures k < |Range(lo, hi, 1)| && Range(lo, hi, 1)[k] == lo + k
  {
    UnitRange(lo, hi);
  }

  lemma {:induction false} EntryCoords(a: nat, lo: nat, hi: nat, d: nat, e: nat, i: nat, j: nat, k: nat, c: nat)
    requires lo <= hi && i < a && j < hi - lo && k < d && c < e
    ensures InBounds(PickedShape(Picks(a, lo, hi, d, e)), [i, j, k, c])
    ensures PickedCoords(Picks(a, lo, hi, d, e), [i, j, k, c]) == [i, lo + j, k, c]
  {
    RangeAt(0, a, i);
    RangeAt(lo, hi, j);
    RangeAt(0, d, k);
    RangeAt(0, e, c);
    FourCoords(Range(0, a, 1), Range(lo, hi, 1), Range(0, d, 1), Range(0, e, 1), i, j, k, c);
  }

  predicate EntryMoved(y: Tensor, x: Tensor, lo: nat, i: nat, j: nat, k: nat, c: nat) {
    && InBounds(y.shape, [i, j, k, c]) && InBounds(x.shape, [i, lo + j, k, c])
    && At(y, [i, j, k, c]) == At(x, [i, lo + j, k, c])
  }

  /** `y` holds the entries of `x` from `lo` on. */
  ghost predicate Entries(y: Tensor, x: Tensor, a: nat, m: nat, d: nat, e: nat, lo: nat) {
    && y.shape == [a, m, d, e]
    && forall i: nat, j: nat, k: nat, c: nat :: i < a && j < m && k < d && c < e ==> EntryMoved(y, x, lo, i, j, k, c)
  }

  lemma {:induction false} PickedEntries(x: Tensor, a: nat, b: nat, d: nat, e: nat, lo: nat, hi: nat)
    requires x.shape == [a, b, d, e] && Fits(Picks(a, lo, hi, d, e), x.shape) && lo <= hi <= b
    requires PickedShape(Picks(a, lo, hi, d, e)) == [a, hi - lo, d, e]
    ensures Entries(PickElements(x, Picks(a, lo, hi, d, e)), x, a, hi - lo, d, e, lo)
  {
    var y := PickElements(x, Picks(a, lo, hi, d, e));
    forall i: nat, j: nat, k: nat, c: nat | i < a && j < hi - lo && k < d && c < e ensures EntryMoved(y, x, lo, i, j, k, c) {
      EntryAt(x, a, b, d, e, lo, hi, i, j, k, c);
    }
  }

  predicate HoldsAt(p: Tensor, x: Tensor, b: nat, d: nat, e: nat, lo: nat, m: nat, i: nat, j: nat, k: nat, c: nat) {
    SameCell(p, Row(m, d, i, j, k), x, Row(b, d, i, lo + j, k), e, c)
  }

  /** `p` holds `m` entries of each of `n` groups, from entry `lo` on, of the `b` entries that the groups have in `x`. */
  ghost predicate Holds(p: Tensor, x: Tensor, n: nat, b: nat, d: nat, e: nat, lo: nat, m: nat) {
    && p.shape == [n * m * d, e]
    && forall i: nat, j: nat, k: nat, c: nat :: i < n && j < m && k < d && c < e ==> HoldsAt(p, x, b, d, e, lo, m, i, j, k, c)
  }

  lemma {:induction false} EntriesHold(p: Tensor, y: Tensor, x: Tensor, n: nat, b: nat, d: nat, e: nat, lo: nat, m: nat)
    requires x.shape == [n, b, d, e] && lo + m <= b && Entries(y, x, n, m, d, e, lo)
    requires p.data == y.data && p.shape == [n * m * d, e]
    ensures Holds(p, x, n, b, d, e, lo, m)
  {
    forall i: nat, j: nat, k: nat, c: nat | i < n && j < m && k < d && c < e
      ensures HoldsAt(p, x, b, d, e, lo, m, i, j, k, c)
    {
      assert EntryMoved(y, x, lo, i, j, k, c);
      OffsetOfRow(n, m, d, e, i, j, k, c);
      OffsetOfRow(n, b, d, e, i, lo + j, k, c);
    }
  }

  lemma {:induction false} PartHolds(x: Tensor, n: nat, b: nat, d: nat, e: nat, ix: Index, lo: nat, hi: nat, rows: nat)
    requires x.shape == [n, b, d, e] && Resolve(ix, b) == Ok(Many(Range(lo, hi, 1))) && lo <= hi <= b && rows == n * (hi - lo) * d
    ensures Part(x, ix, rows, e).Ok? && Holds(Part(x, ix, rows, e).value, x, n, b, d, e, lo, hi - lo)
  {
    EntriesOf(x, n, b, d, e, ix, lo, hi);
    PartIs(x, n, b, d, e, ix, lo, hi, rows);
    PickedEntries(x, n, b, d, e, lo, hi);
    EntriesHold(Part(x, ix, rows, e).value, PickElements(x, Picks(n, lo, hi, d, e)), x, n, b, d, e, lo, hi - lo);
  }

  // ----- joining the parts

  predicate SecondAt(w: Tensor, z: Tensor, m: nat, e: nat, r: nat, c: nat) {
    SameCell(w, m + r, z, r, e, c)
  }

  /** The rows of `y`, then those of `z`. */
  ghost predicate Follows(w: Tensor, y: Tensor, z: Tensor, m: nat, n: nat, e: nat) {
    && w.shape == [m + n, e]
    && (forall r: nat, c: nat :: r < m && c < e ==> SameCell(w, r, y, r, e, c))
    && (forall r: nat, c: nat :: r < n && c < e ==> SecondAt(w, z, m, e, r, c))
  }

  lemma {:induction false} JoinedCell(y: Tensor, z: Tensor, m: nat, n: nat, e: nat, r: nat, c: nat)
    requires y.shape == [m, e] && z.shape == [n, e] && r < m + n && c < e
    ensures JoinTwo(y, z).shape == [m + n, e]
    ensures r < m ==> SameCell(JoinTwo(y, z), r, y, r, e, c)
    ensures r >= m ==> SameCell(JoinTwo(y, z), r, z, r - m, e, c)
  {
    assert [m + n] + y.shape[1..] == [m + n, e];
    OffsetOfCell(m + n, e, r, c);
    JoinAt(y, z, [r, c]);
    if r < m {
      OffsetOfCell(m, e, r, c);
    } else {
      OffsetOfCell(n, e, r - m, c);
      assert [r, c][0 := r - m] == [r - m, c];
    }
  }

  lemma {:induction false} JoinFollows(y: Tensor, z: Tensor, m: nat, n: nat, e: nat)
    requires y.shape == [m, e] && z.shape == [n, e]
    ensures Joinable(y, z) && Follows(JoinTwo(y, z), y, z, m, n, e)
  {
    assert [m + n] + y.shape[1..] == [m + n, e];
    forall r: nat, c: nat | r < m && c < e ensures SameCell(JoinTwo(y, z), r, y, r, e, c) {
      JoinedCell(y, z, m, n, e, r, c);
    }
    forall r: nat, c: nat | r < n && c < e ensures SecondAt(JoinTwo(y, z), z, m, e, r, c) {
      JoinedCell(y, z, m, n, e, m + r, c);
    }
  }

  lemma {:induction false} CatThree(q: Tensor, k: Tensor, v: Tensor)
    requires k.shape != [] && q.shape != [] && Joinable(k, v) && Joinable(q, JoinTwo(k, v)) && v.shape != []
    ensures Cat([q, k, v]) == Ok(JoinTwo(q, JoinTwo(k, v)))
  {
    assert [q, k, v][1..] == [k, v] && [k, v][1..] == [v];
    assert Cat([v]) == Ok(v);
    assert Cat([k, v]) == Ok(JoinTwo(k, v));
  }

  lemma {:induction false} AssembledFollows(q: Tensor, k: Tensor, v: Tensor, m: nat, n: nat, e: nat, shape: seq<nat>)
    returns (w: Tensor, z: Tensor)
    requires q.shape == [m, e] && k.shape == [n, e] && v.shape == [n, e] && Size(shape) == Size([m + (n + n), e])
    ensures Follows(w, k, v, n, n, e) && Follows(z, q, w, m, n + n, e)
    ensures Assembled(Ok(q), Ok(k), Ok(v), shape) == Ok(RawTensor.Tensor(shape, z.data))
  {
    w, z := CatFollows(q, k, v, m, n, e);
    AssembledIs(q, k, v, z, shape);
  }

  lemma {:induction false} CatFollows(q: Tensor, k: Tensor, v: Tensor, m: nat, n: nat, e: nat) returns (w: Tensor, z: Tensor)
    requires q.shape == [m, e] && k.shape == [n, e] && v.shape == [n, e]
    ensures Follows(w, k, v, n, n, e) && Follows(z, q, w, m, n + n, e) && Cat([q, k, v]) == Ok(z)
  {
    w := TwoFollow(k, v, n, n, e);
    z := TwoFollow(q, w, m, n + n, e);
    CatThree(q, k, v);
  }

  lemma {:induction false} TwoFollow(y: Tensor, z: Tensor, m: nat, n: nat, e: nat) returns (w: Tensor)
    requires y.shape == [m, e] && z.shape == [n, e]
    ensures Joinable(y, z) && w == JoinTwo(y, z) && w.shape == [m + n, e] && Follows(w, y, z, m, n, e)
  {
    JoinFollows(y, z, m, n, e);
    w := JoinTwo(y, z);
  }

  lemma {:induction false} AssembledIs(q: Tensor, k: Tensor, v: Tensor, all: Tensor, shape: seq<nat>)
    requires Cat([q, k, v]) == Ok(all) && Size(shape) == Size(all.shape)
    ensures Assembled(Ok(q), Ok(k), Ok(v), shape) == Ok(RawTensor.Tensor(shape, all.data))
  {
    ReshapedTo(all, shape);
  }

  // ----- where each row comes from

  /** `n` groups of `g` query heads, with `d` rows to a head. */
  datatype Layout = Layout(n: nat, g: nat, d: nat) {
    function QueryRows(): nat {
      n * g * d
    }

    function KeyRows(): nat {
      n * d
    }

    function Rows(): nat {
      QueryRows() + (KeyRows() + KeyRows())
    }

    predicate Valid() {
      n > 0 && g > 0 && d > 0
    }
  }

  /** The group, the entry of the group and the row of the entry that become row `r`. */
  function SourceOf(l: Layout, r: nat): (nat, nat, nat)
    requires l.Valid()
  {
    if r < l.QueryRows() then (Over(Over(r, l.d), l.g), Rest(Over(r, l.d), l.g), Rest(r, l.d))
    else SharedSource(l, r - l.QueryRows())
  }

  /** The same for the keys and, after them, the values. */
  function SharedSource(l: Layout, r: nat): (nat, nat, nat)
    requires l.Valid()
  {
    if r < l.KeyRows() then (Over(r, l.d), l.g, Rest(r, l.d))
    else (Over(r - l.KeyRows(), l.d), l.g + 1, Rest(r - l.KeyRows(), l.d))
  }

  function SourceRow(l: Layout, r: nat): nat
    requires l.Valid()
  {
    var s := SourceOf(l, r);
    Row(l.g + 2, l.d, s.0, s.1, s.2)
  }

  /** Where row `s` goes. */
  function TargetRow(l: Layout, s: nat): nat
    requires l.Valid()
  {
    Target(l, Over(Over(s, l.d), l.g + 2), Rest(Over(s, l.d), l.g + 2), Rest(s, l.d))
  }

  function Target(l: Layout, i: nat, j: nat, k: nat): nat {
    if j < l.g then Row(l.g, l.d, i, j, k)
    else if j == l.g then l.QueryRows() + Cell(i, l.d, k)
    else l.QueryRows() + (l.KeyRows() + Cell(i, l.d, k))
  }

  lemma {:induction false} RowParts(b: nat, d: nat, r: nat, n: nat)
    requires b > 0 && d > 0 && r < n * b * d
    ensures Over(Over(r, d), b) < n && Rest(Over(r, d), b) < b && Rest(r, d) < d
    ensures r == Row(b, d, Over(Over(r, d), b), Rest(Over(r, d), b), Rest(r, d))
  {
    Quotient(r, n * b, d);
    Quotient(r / d, n, b);
  }

  lemma {:induction false} PartsOfRow(b: nat, d: nat, i: nat, j: nat, k: nat, n: nat)
    requires i < n && j < b && k < d
    ensures var r := Row(b, d, i, j, k);
            r < n * b * d && r / d / b == i && r / d % b == j && r % d == k
  {
    DivMod(i * b + j, d, k);
    DivMod(i, b, j);
    Horner(i, n, j, b);
    Horner(i * b + j, n * b, k, d);
  }

  lemma {:induction false} SourceBounds(l: Layout, r: nat)
    requires l.Valid() && r < l.Rows()
    ensures var s := SourceOf(l, r); s.0 < l.n && s.1 < l.g + 2 && s.2 < l.d
  {
    if r < l.QueryRows() {
      RowParts(l.g, l.d, r, l.n);
    } else if r - l.QueryRows() < l.KeyRows() {
      Quotient(r - l.QueryRows(), l.n, l.d);
    } else {
      Quotient(r - l.QueryRows() - l.KeyRows(), l.n, l.d);
    }
  }

  lemma {:induction false} RowsOfGroups(l: Layout)
    ensures l.Rows() == l.n * (l.g + 2) * l.d
  {
    assert l.n * (l.g + 2) == l.n * l.g + (l.n + l.n);
    Distribute(l.n * l.g, l.n, l.d);
  }

  lemma {:induction false} Distribute(x: nat, y: nat, d: nat)
    ensures (x + (y + y)) * d == x * d + (y * d + y * d)
  {
  }

  /** No row is used twice and none is left out. */
  lemma {:induction false} RowsInverse(l: Layout, r: nat)
    requires l.Valid() && r < l.Rows()
    ensures SourceRow(l, r) < l.Rows() && TargetRow(l, SourceRow(l, r)) == r
    ensures TargetRow(l, r) < l.Rows() && SourceRow(l, TargetRow(l, r)) == r
  {
    TargetOfSource(l, r);
    SourceOfTarget(l, r);
  }

  lemma {:induction false} TargetOfSource(l: Layout, r: nat)
    requires l.Valid() && r < l.Rows()
    ensures SourceRow(l, r) < l.Rows() && TargetRow(l, SourceRow(l, r)) == r
  {
    var s := SourceOf(l, r);
    SourceBounds(l, r);
    PartsOfRow(l.g + 2, l.d, s.0, s.1, s.2, l.n);
    RowsOfGroups(l);
    if r < l.QueryRows() {
      RowParts(l.g, l.d, r, l.n);
    } else if r - l.QueryRows() < l.KeyRows() {
      Quotient(r - l.QueryRows(), l.n, l.d);
    } else {
      Quotient(r - l.QueryRows() - l.KeyRows(), l.n, l.d);
    }
  }

  /** The parts of a row are the parts of the row it goes to. */
  lemma {:induction false} SourceOfParts(l: Layout, i: nat, j: nat, k: nat)
    requires l.Valid() && i < l.n && j < l.g + 2 && k < l.d
    ensures Target(l, i, j, k) < l.Rows() && SourceOf(l, Target(l, i, j, k)) == (i, j, k)
  {
    if j < l.g {
      PartsOfRow(l.g, l.d, i, j, k, l.n);
    } else {
      DivMod(i, l.d, k);
      Horner(i, l.n, k, l.d);
    }
  }

  lemma {:induction false} SourceOfTarget(l: Layout, s: nat)
    requires l.Valid() && s < l.Rows()
    ensures TargetRow(l, s) < l.Rows() && SourceRow(l, TargetRow(l, s)) == s
  {
    RowsOfGroups(l);
    RowParts(l.g + 2, l.d, s, l.n);
    SourceOfParts(l, Over(Over(s, l.d), l.g + 2), Rest(Over(s, l.d), l.g + 2), Rest(s, l.d));
  }

  // ----- the regrouped tensor

  /** A joint tensor of the right size, whatever its shape, and even head counts. A number of key-value heads that is
      missing or zero means one. */
  predicate Fitting(x: Tensor, nHead: nat, nHeadKv: Option<nat>, hidden: nat, l: Layout) {
    && nHead > 0 && nHead == l.n * l.g && l.d == hidden / nHead && l.Valid()
    && (match nHeadKv case Some(kv) => l.n == (if kv == 0 then 1 else kv) case None => l.n == 1)
    && |x.data| == l.Rows() * (l.d * nHead)
  }

  lemma {:induction false} SliceOfGroup(g: nat)
    ensures Resolve(ALL_BUT_TWO, g + 2) == Ok(Many(Range(0, g, 1)))
    ensures Resolve(LAST_BUT_ONE, g + 2) == Ok(Many(Range(g, g + 1, 1)))
    ensures Resolve(LAST, g + 2) == Ok(Many(Range(g + 1, g + 2, 1)))
  {
  }

  lemma {:induction false} HeadsPerGroup(l: Layout, nHead: nat)
    requires l.Valid() && nHead == l.n * l.g
    ensures Over(nHead, l.n) == l.g && nHead * l.d == l.QueryRows() && l.n * 1 * l.d == l.KeyRows()
  {
    DivMod(l.g, l.n, 0);
    assert l.g * l.n + 0 == nHead;
  }

  lemma {:induction false} SplitSize(x: Tensor, l: Layout, e: nat)
    requires |x.data| == l.Rows() * e
    ensures Size([l.n, l.g + 2, l.d, e]) == |x.data| == Size([l.Rows(), e])
  {
    SizeOfTwo(l.Rows(), e);
    SizeOfFour(l.n, l.g + 2, l.d, e);
    RowsOfGroups(l);
  }

  /** The queries, the keys and the values of the joint tensor. */
  ghost predicate AreParts(y: Tensor, l: Layout, e: nat, q: Tensor, k: Tensor, v: Tensor) {
    && Holds(q, y, l.n, l.g + 2, l.d, e, 0, l.g)
    && Holds(k, y, l.n, l.g + 2, l.d, e, l.g, 1)
    && Holds(v, y, l.n, l.g + 2, l.d, e, l.g + 1, 1)
  }

  lemma {:induction false} PartsOf(y: Tensor, l: Layout, h: nat, shape: seq<nat>) returns (q: Tensor, k: Tensor, v: Tensor)
    requires l.Valid() && h == l.n * l.g && y.shape == [l.n, l.g + 2, l.d, l.d * h]
    ensures AreParts(y, l, l.d * h, q, k, v)
    ensures RegroupedAs(y, l.n, h, l.d, shape) == Assembled(Ok(q), Ok(k), Ok(v), shape)
  {
    SliceOfGroup(l.g);
    HeadsPerGroup(l, h);
    q := PartOf(y, l, l.d * h, ALL_BUT_TWO, 0, l.g, h * l.d);
    k := PartOf(y, l, l.d * h, LAST_BUT_ONE, l.g, 1, l.n * l.d);
    v := PartOf(y, l, l.d * h, LAST, l.g + 1, 1, l.n * l.d);
  }

  lemma {:induction false} PartOf(y: Tensor, l: Layout, e: nat, ix: Index, lo: nat, m: nat, rows: nat) returns (p: Tensor)
    requires l.Valid() && y.shape == [l.n, l.g + 2, l.d, e] && lo + m <= l.g + 2
    requires Resolve(ix, l.g + 2) == Ok(Many(Range(lo, lo + m, 1))) && rows == l.n * m * l.d
    ensures Part(y, ix, rows, e) == Ok(p) && Holds(p, y, l.n, l.g + 2, l.d, e, lo, m)
  {
    PartHolds(y, l.n, l.g + 2, l.d, e, ix, lo, lo + m, rows);
    p := Part(y, ix, rows, e).value;
  }

  lemma {:induction false} SameThrough(z: Tensor, r: nat, p: Tensor, t: nat, y: Tensor, s: nat, e: nat, c: nat)
    requires SameCell(z, r, p, t, e, c) && SameCell(p, t, y, s, e, c)
    ensures SameCell(z, r, y, s, e, c)
  {
  }

  lemma {:induction false} QueryCell(y: Tensor, l: Layout, e: nat, q: Tensor, z: Tensor, w: Tensor, r: nat, c: nat)
    requires l.Valid() && Holds(q, y, l.n, l.g + 2, l.d, e, 0, l.g) && Follows(z, q, w, l.QueryRows(), l.KeyRows() + l.KeyRows(), e)
    requires r < l.QueryRows() && c < e
    ensures SameCell(z, r, y, SourceRow(l, r), e, c)
  {
    RowParts(l.g, l.d, r, l.n);
    var i, j, k := Over(Over(r, l.d), l.g), Rest(Over(r, l.d), l.g), Rest(r, l.d);
    assert HoldsAt(q, y, l.g + 2, l.d, e, 0, l.g, i, j, k, c);
    SameThrough(z, r, q, r, y, Row(l.g + 2, l.d, i, j, k), e, c);
  }

  /** Row `t` of the keys (`j == g`) or of the values (`j == g + 1`). */
  lemma {:induction false} SharedCell(y: Tensor, l: Layout, e: nat, p: Tensor, j: nat, t: nat, c: nat)
    requires l.Valid() && Holds(p, y, l.n, l.g + 2, l.d, e, j, 1) && t < l.KeyRows() && c < e
    ensures SameCell(p, t, y, Row(l.g + 2, l.d, Over(t, l.d), j, Rest(t, l.d)), e, c)
  {
    Quotient(t, l.n, l.d);
    var i, k := Over(t, l.d), Rest(t, l.d);
    assert HoldsAt(p, y, l.g + 2, l.d, e, j, 1, i, 0, k, c);
    OneEntry(l.d, i, k);
  }

  lemma {:induction false} OneEntry(d: nat, i: nat, k: nat)
    ensures Row(1, d, i, 0, k) == i * d + k
  {
  }

  lemma {:induction false} KeyOrValueCell(y: Tensor, l: Layout, e: nat, q: Tensor, k: Tensor, v: Tensor, w: Tensor, z: Tensor, t: nat, c: nat)
    requires l.Valid() && AreParts(y, l, e, q, k, v)
    requires Follows(w, k, v, l.KeyRows(), l.KeyRows(), e) && Follows(z, q, w, l.QueryRows(), l.KeyRows() + l.KeyRows(), e)
    requires t < l.KeyRows() + l.KeyRows() && c < e
    ensures SameCell(z, l.QueryRows() + t, y, SourceRow(l, l.QueryRows() + t), e, c)
  {
    var r, s := l.QueryRows() + t, SourceRow(l, l.QueryRows() + t);
    assert SecondAt(z, w, l.QueryRows(), e, t, c);
    if t < l.KeyRows() {
      SharedCell(y, l, e, k, l.g, t, c);
      SameThrough(w, t, k, t, y, s, e, c);
    } else {
      var u := t - l.KeyRows();
      SharedCell(y, l, e, v, l.g + 1, u, c);
      assert SecondAt(w, v, l.KeyRows(), e, u, c);
      SameThrough(w, t, v, u, y, s, e, c);
    }
    SameThrough(z, r, w, t, y, s, e, c);
  }

  lemma {:induction false} GroupsOf(x: Tensor, nHead: nat, nHeadKv: Option<nat>, hidden: nat, l: Layout)
    requires Fitting(x, nHead, nHeadKv, hidden, l)
    ensures nHead > 0 && l.n == Groups(nHeadKv) && nHead == l.n * l.g && l.d == Over(hidden, nHead) && l.Valid()
    ensures |x.data| == l.Rows() * (l.d * nHead)
  {
  }

  lemma {:induction false} RegroupedStart(x: Tensor, nHead: nat, nHeadKv: Option<nat>, hidden: nat, l: Layout) returns (y: Tensor)
    requires nHead > 0 && l.n == Groups(nHeadKv) && nHead == l.n * l.g && l.d == Over(hidden, nHead) && l.Valid()
    requires |x.data| == l.Rows() * (l.d * nHead)
    ensures y.shape == [l.n, l.g + 2, l.d, l.d * nHead] && y.data == x.data
    ensures Regrouped(x, nHead, nHeadKv, hidden) == RegroupedAs(y, l.n, nHead, l.d, x.shape)
  {
    HeadsPerGroup(l, nHead);
    SplitSize(x, l, l.d * nHead);
    ReshapedTo(x, [l.n, l.g + 2, l.d, l.d * nHead]);
    y := RawTensor.Tensor([l.n, l.g + 2, l.d, l.d * nHead], x.data);
  }

  predicate RowMoved(z: Tensor, x: Tensor, l: Layout, e: nat, r: nat, c: nat)
    requires l.Valid()
  {
    SameCell(z, r, x, SourceRow(l, r), e, c)
  }

  /** Each row of `z` is the row of `x` that its number says. */
  ghost predicate RowsMoved(z: Tensor, x: Tensor, l: Layout, e: nat)
    requires l.Valid()
  {
    forall r: nat, c: nat :: r < l.Rows() && c < e ==> RowMoved(z, x, l, e, r, c)
  }

  lemma {:induction false} AllCells(y: Tensor, l: Layout, e: nat, q: Tensor, k: Tensor, v: Tensor, w: Tensor, z: Tensor)
    requires l.Valid() && AreParts(y, l, e, q, k, v)
    requires Follows(w, k, v, l.KeyRows(), l.KeyRows(), e) && Follows(z, q, w, l.QueryRows(), l.KeyRows() + l.KeyRows(), e)
    ensures RowsMoved(z, y, l, e)
  {
    forall r: nat, c: nat | r < l.Rows() && c < e ensures RowMoved(z, y, l, e, r, c) {
      if r < l.QueryRows() {
        QueryCell(y, l, e, q, z, w, r, c);
      } else {
        KeyOrValueCell(y, l, e, q, k, v, w, z, r - l.QueryRows(), c);
      }
    }
  }

  lemma {:induction false} PartsAssembled(y: Tensor, l: Layout, h: nat, shape: seq<nat>, q: Tensor, k: Tensor, v: Tensor)
    returns (z: Tensor)
    requires l.Valid() && h == l.n * l.g && AreParts(y, l, l.d * h, q, k, v) && Size(shape) == Size([l.Rows(), l.d * h])
    ensures Assembled(Ok(q), Ok(k), Ok(v), shape) == Ok(z) && z.shape == shape && RowsMoved(z, y, l, l.d * h)
  {
    var e := l.d * h;
    HeadsPerGroup(l, h);
    var w, joined := AssembledFollows(q, k, v, l.QueryRows(), l.KeyRows(), e, shape);
    AllCells(y, l, e, q, k, v, w, joined);
    z := RawTensor.Tensor(shape, joined.data);
    MovedSameData(joined, y, z, y, l, e);
  }

  lemma {:induction false} RegroupedSplit(y: Tensor, l: Layout, h: nat, shape: seq<nat>) returns (z: Tensor)
    requires l.Valid() && h == l.n * l.g && y.shape == [l.n, l.g + 2, l.d, l.d * h]
    requires Size(shape) == Size([l.Rows(), l.d * h])
    ensures RegroupedAs(y, l.n, h, l.d, shape) == Ok(z) && z.shape == shape && RowsMoved(z, y, l, l.d * h)
  {
    var q, k, v := PartsOf(y, l, h, shape);
    z := PartsAssembled(y, l, h, shape, q, k, v);
  }

  lemma {:induction false} MovedSameData(z: Tensor, y: Tensor, z': Tensor, y': Tensor, l: Layout, e: nat)
    requires l.Valid() && RowsMoved(z, y, l, e) && z'.data == z.data && y'.data == y.data
    ensures RowsMoved(z', y', l, e)
  {
    forall r: nat, c: nat | r < l.Rows() && c < e ensures RowMoved(z', y', l, e, r, c) {
      assert RowMoved(z, y, l, e, r, c);
    }
  }

  /** Regrouping keeps the shape and moves rows: each row of the result is the row of the joint tensor that its number says. */
  lemma {:induction false} RegroupedRows(x: Tensor, nHead: nat, nHeadKv: Option<nat>, hidden: nat, l: Layout) returns (z: Tensor)
    requires Fitting(x, nHead, nHeadKv, hidden, l)
    ensures Regrouped(x, nHead, nHeadKv, hidden) == Ok(z) && z.shape == x.shape && RowsMoved(z, x, l, l.d * nHead)
  {
    GroupsOf(x, nHead, nHeadKv, hidden, l);
    var y := RegroupedStart(x, nHead, nHeadKv, hidden, l);
    SplitSize(x, l, l.d * nHead);
    z := RegroupedSplit(y, l, nHead, x.shape);
    MovedSameData(z, y, z, x, l, l.d * nHead);
  }
}
