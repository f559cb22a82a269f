/** Writing a GGUF file and scanning it. */
module GgufRoundTrip {
  import opened Results
  import opened Bytes
  import opened ByteReading
  import opened Sequences
  import opened GgufScan

  // ----- values

  datatype Value =
    | Scalar(bytes: seq<Byte>)
    | Text(s: seq<Byte>)
    | Array(elemType: nat, elems: seq<Value>)

  /** The value has the type with this number; arrays may be nested to any depth. */
  predicate HasType(v: Value, vtype: nat) {
    match v
    case Scalar(bytes) => ScalarSize(vtype) == Some(|bytes|)
    case Text(s) => vtype == STR_TYPE && |s| < READ_LIMIT
    case Array(elemType, elems) =>
      && vtype == ARR_TYPE && elemType < U32_LIMIT && |elems| < U64_LIMIT
      && forall i :: 0 <= i < |elems| ==> HasType(elems[i], elemType)
  }

  function StrBytes(s: seq<Byte>): seq<Byte> {
    Le(|s|, 8) + s
  }

  function ValueBytes(v: Value): seq<Byte> {
    match v
    case Scalar(bytes) => bytes
    case Text(s) => StrBytes(s)
    case Array(elemType, elems) => Le(elemType, 4) + (Le(|elems|, 8) + ElemBytes(elems))
  }

  function ElemBytes(elems: seq<Value>): seq<Byte> {
    if elems == [] then [] else ElemBytes(elems[..|elems| - 1]) + ValueBytes(elems[|elems| - 1])
  }

  // ----- numbers and strings

  lemma {:induction false} ReadU32Back(data: seq<Byte>, pos: nat, n: nat)
    requires n < U32_LIMIT && HasAt(data, pos, Le(n, 4))
    ensures ReadNumber(data, pos, 4) == Ok((n, pos + 4))
  {
    FourBytes(n);
    ReadWritten(data, pos, n, 4);
  }

  lemma {:induction false} ReadU64Back(data: seq<Byte>, pos: nat, n: nat)
    requires n < U64_LIMIT && HasAt(data, pos, Le(n, 8))
    ensures ReadNumber(data, pos, 8) == Ok((n, pos + 8))
  {
    EightBytes(n);
    ReadWritten(data, pos, n, 8);
  }

  lemma {:induction false} StrSpanBack(data: seq<Byte>, pos: nat, s: seq<Byte>)
    requires |s| < READ_LIMIT && HasAt(data, pos, StrBytes(s))
    ensures StrSpan(data, pos) == Ok((|s|, pos + 8 + |s|)) && HasAt(data, pos + 8, s)
  {
    HasSplit(data, pos, StrBytes(s), Le(|s|, 8), s);
    ReadU64Back(data, pos, |s|);
    HasIs(data, pos + 8, s);
  }

  lemma {:induction false} ReadStrBack(data: seq<Byte>, pos: nat, s: seq<Byte>)
    requires |s| < READ_LIMIT && HasAt(data, pos, StrBytes(s))
    ensures ReadStr(data, pos) == Ok((s, pos + 8 + |s|))
  {
    StrSpanBack(data, pos, s);
    SliceWritten(data, pos + 8, s);
  }

  // ----- skipping

  /** Skipping a value moves over exactly its bytes. */
  lemma {:induction false} SkipExact(data: seq<Byte>, pos: nat, v: Value, vtype: nat)
    requires HasType(v, vtype) && HasAt(data, pos, ValueBytes(v))
    ensures Skipped(data, pos, vtype) == Ok(pos + |ValueBytes(v)|)
    decreases v
  {
    match v
    case Scalar(bytes) =>
      SkipScalar(data, pos, bytes, vtype);
    case Text(s) =>
      SkipText(data, pos, s);
    case Array(elemType, elems) =>
      ArrayParts(data, pos, elemType, elems);
      SkipElems(data, pos + 12, elems, elemType);
      ArraySkipped(data, pos, elemType, |elems|, pos + 12 + |ElemBytes(elems)|);
  }

  lemma {:induction false} SkipScalar(data: seq<Byte>, pos: nat, bytes: seq<Byte>, vtype: nat)
    requires ScalarSize(vtype) == Some(|bytes|) && HasAt(data, pos, bytes)
    ensures Skipped(data, pos, vtype) == Ok(pos + |bytes|)
  {
    HasIs(data, pos, bytes);
  }

  lemma {:induction false} SkipText(data: seq<Byte>, pos: nat, s: seq<Byte>)
    requires |s| < READ_LIMIT && HasAt(data, pos, StrBytes(s))
    ensures Skipped(data, pos, STR_TYPE) == Ok(pos + |StrBytes(s)|)
  {
    StrSpanBack(data, pos, s);
  }

  lemma {:induction false} ArrayParts(data: seq<Byte>, pos: nat, elemType: nat, elems: seq<Value>)
    requires elemType < U32_LIMIT && |elems| < U64_LIMIT && HasAt(data, pos, ValueBytes(Array(elemType, elems)))
    ensures ReadNumber(data, pos, 4) == Ok((elemType, pos + 4)) && ReadNumber(data, pos + 4, 8) == Ok((|elems|, pos + 12))
    ensures HasAt(data, pos + 12, ElemBytes(elems))
    ensures |ValueBytes(Array(elemType, elems))| == 12 + |ElemBytes(elems)|
  {
    HasSplit(data, pos, ValueBytes(Array(elemType, elems)), Le(elemType, 4), Le(|elems|, 8) + ElemBytes(elems));
    HasSplit(data, pos + 4, Le(|elems|, 8) + ElemBytes(elems), Le(|elems|, 8), ElemBytes(elems));
    ReadU32Back(data, pos, elemType);
    ReadU64Back(data, pos + 4, |elems|);
  }

  lemma {:induction false} ArraySkipped(data: seq<Byte>, pos: nat, elemType: nat, n: nat, end: nat)
    requires pos + 12 <= |data|
    requires ReadNumber(data, pos, 4) == Ok((elemType, pos + 4)) && ReadNumber(data, pos + 4, 8) == Ok((n, pos + 12))
    requires SkippedAll(data, pos + 12, elemType, n) == Ok(end)
    ensures Skipped(data, pos, ARR_TYPE) == Ok(end)
  {
  }

  lemma {:induction false} ElemsSplit(elems: seq<Value>)
    requires elems != []
    ensures ElemBytes(elems) == ElemBytes(elems[..|elems| - 1]) + ValueBytes(elems[|elems| - 1])
  {
  }

  lemma {:induction false} SkipElems(data: seq<Byte>, pos: nat, elems: seq<Value>, elemType: nat)
    requires forall i :: 0 <= i < |elems| ==> HasType(elems[i], elemType)
    requires HasAt(data, pos, ElemBytes(elems))
    ensures SkippedAll(data, pos, elemType, |elems|) == Ok(pos + |ElemBytes(elems)|)
    decreases elems
  {
    if elems != [] {
      var n := |elems| - 1;
      var before := ElemBytes(elems[..n]);
      ElemsSplit(elems);
      HasSplit(data, pos, ElemBytes(elems), before, ValueBytes(elems[n]));
      SkipElems(data, pos, elems[..n], elemType);
      SkipExact(data, pos + |before|, elems[n], elemType);
    }
  }

  // ----- files

  datatype Pair = Pair(key: seq<Byte>, vtype: nat, value: Value)

  datatype Tensor = Tensor(entry: Entry, offset: nat)

  /** A file of version 2 or later; `rest` is the tensor data. */
  datatype Gguf = Gguf(version: nat, pairs: seq<Pair>, tensors: seq<Tensor>, rest: seq<Byte>)

  function PairBytes(p: Pair): seq<Byte> {
    StrBytes(p.key) + (Le(p.vtype, 4) + ValueBytes(p.value))
  }

  function PairsBytes(ps: seq<Pair>): seq<Byte> {
    if ps == [] then [] else PairsBytes(ps[..|ps| - 1]) + PairBytes(ps[|ps| - 1])
  }

  /** What follows the name and the number of dimensions. */
  function ShapeBytes(t: Tensor): (s: seq<Byte>)
    ensures |s| == 8 * |t.entry.dims| + 12
  {
    Les(t.entry.dims, 8) + (Le(t.entry.ggmlType, 4) + Le(t.offset, 8))
  }

  function TensorBytes(t: Tensor): seq<Byte> {
    StrBytes(t.entry.name) + (Le(|t.entry.dims|, 4) + ShapeBytes(t))
  }

  function TensorsBytes(ts: seq<Tensor>): seq<Byte> {
    if ts == [] then [] else TensorsBytes(ts[..|ts| - 1]) + TensorBytes(ts[|ts| - 1])
  }

  function CountBytes(f: Gguf): (s: seq<Byte>)
    ensures |s| == 24
  {
    MAGIC + (Le(f.version, 4) + (Le(|f.tensors|, 8) + Le(|f.pairs|, 8)))
  }

  function FileBytes(f: Gguf): seq<Byte> {
    CountBytes(f) + (PairsBytes(f.pairs) + (TensorsBytes(f.tensors) + f.rest))
  }

  predicate GoodPair(p: Pair) {
    |p.key| < READ_LIMIT && p.vtype < U32_LIMIT && HasType(p.value, p.vtype)
  }

  predicate GoodPairs(ps: seq<Pair>)
    decreases |ps|, 1
  {
    ps == [] || GoodLastPair(ps)
  }

  /** The last pair and the others. Apart from `GoodPairs` so that a proof about all pairs need not unfold what one may hold. */
  predicate GoodLastPair(ps: seq<Pair>)
    requires ps != []
    decreases |ps|, 0
  {
    GoodPair(ps[|ps| - 1]) && GoodPairs(ps[..|ps| - 1])
  }

  predicate GoodTensor(t: Tensor) {
    && |t.entry.name| < READ_LIMIT && |t.entry.dims| < U32_LIMIT && t.entry.ggmlType < U32_LIMIT && t.offset < U64_LIMIT
    && forall i :: 0 <= i < |t.entry.dims| ==> t.entry.dims[i] < U64_LIMIT
  }

  predicate GoodFile(f: Gguf) {
    && 2 <= f.version < U32_LIMIT && |f.tensors| < U64_LIMIT && |f.pairs| < U64_LIMIT
    && GoodPairs(f.pairs)
    && forall i :: 0 <= i < |f.tensors| ==> GoodTensor(f.tensors[i])
  }

  // ----- scanning

  lemma {:induction false} SkipPairBack(data: seq<Byte>, pos: nat, p: Pair)
    requires GoodPair(p) && HasAt(data, pos, PairBytes(p))
    ensures SkippedPair(data, pos) == Ok(pos + |PairBytes(p)|)
  {
    var at := pos + |StrBytes(p.key)|;
    HasSplit(data, pos, PairBytes(p), StrBytes(p.key), Le(p.vtype, 4) + ValueBytes(p.value));
    HasSplit(data, at, Le(p.vtype, 4) + ValueBytes(p.value), Le(p.vtype, 4), ValueBytes(p.value));
    StrSpanBack(data, pos, p.key);
    ReadU32Back(data, at, p.vtype);
    SkipExact(data, at + 4, p.value, p.vtype);
  }

  lemma {:induction false} PairsSplit(ps: seq<Pair>)
    requires ps != []
    ensures PairsBytes(ps) == PairsBytes(ps[..|ps| - 1]) + PairBytes(ps[|ps| - 1])
  {
  }

  lemma {:induction false} TensorsSplit(ts: seq<Tensor>)
    requires ts != []
    ensures TensorsBytes(ts) == TensorsBytes(ts[..|ts| - 1]) + TensorBytes(ts[|ts| - 1])
  {
  }

  lemma {:induction false} LastPairParts(data: seq<Byte>, pos: nat, ps: seq<Pair>)
    requires ps != [] && HasAt(data, pos, PairsBytes(ps))
    ensures var n := |ps| - 1;
            && HasAt(data, pos, PairsBytes(ps[..n])) && HasAt(data, pos + |PairsBytes(ps[..n])|, PairBytes(ps[n]))
            && |PairsBytes(ps)| == |PairsBytes(ps[..n])| + |PairBytes(ps[n])|
  {
    var n := |ps| - 1;
    PairsSplit(ps);
    HasSplit(data, pos, PairsBytes(ps), PairsBytes(ps[..n]), PairBytes(ps[n]));
  }

  lemma {:induction false} LastTensorParts(data: seq<Byte>, pos: nat, ts: seq<Tensor>)
    requires ts != [] && HasAt(data, pos, TensorsBytes(ts))
    ensures var n := |ts| - 1;
            && HasAt(data, pos, TensorsBytes(ts[..n])) && HasAt(data, pos + |TensorsBytes(ts[..n])|, TensorBytes(ts[n]))
            && |TensorsBytes(ts)| == |TensorsBytes(ts[..n])| + |TensorBytes(ts[n])|
  {
    var n := |ts| - 1;
    TensorsSplit(ts);
    HasSplit(data, pos, TensorsBytes(ts), TensorsBytes(ts[..n]), TensorBytes(ts[n]));
  }

  lemma {:induction false} SkipPairsBack(data: seq<Byte>, pos: nat, ps: seq<Pair>)
    requires GoodPairs(ps) && HasAt(data, pos, PairsBytes(ps))
    ensures SkippedPairs(data, pos, |ps|) == Ok(pos + |PairsBytes(ps)|)
    decreases |ps|
  {
    if ps != [] {
      FirstPairs(data, pos, ps);
      SkipPairsBack(data, pos, ps[..|ps| - 1]);
      LastPairBack(data, pos, ps);
    }
  }

  lemma {:induction false} FirstPairs(data: seq<Byte>, pos: nat, ps: seq<Pair>)
    requires ps != [] && GoodPairs(ps) && HasAt(data, pos, PairsBytes(ps))
    ensures GoodPairs(ps[..|ps| - 1]) && HasAt(data, pos, PairsBytes(ps[..|ps| - 1]))
  {
    LastPairParts(data, pos, ps);
  }

  lemma {:induction false} LastPairBack(data: seq<Byte>, pos: nat, ps: seq<Pair>)
    requires pos <= |data| && ps != [] && GoodPairs(ps) && HasAt(data, pos, PairsBytes(ps))
    requires SkippedPairs(data, pos, |ps| - 1) == Ok(pos + |PairsBytes(ps[..|ps| - 1])|)
    ensures SkippedPairs(data, pos, |ps|) == Ok(pos + |PairsBytes(ps)|)
  {
    var n := |ps| - 1;
    LastPairParts(data, pos, ps);
    PairSkipped(data, pos, ps[n], n, pos + |PairsBytes(ps[..n])|);
  }

  lemma {:induction false} PairSkipped(data: seq<Byte>, pos: nat, p: Pair, n: nat, mid: nat)
    requires pos <= |data| && GoodPair(p) && HasAt(data, mid, PairBytes(p)) && SkippedPairs(data, pos, n) == Ok(mid)
    ensures SkippedPairs(data, pos, n + 1) == Ok(mid + |PairBytes(p)|)
  {
    SkipPairBack(data, mid, p);
    NextPairSkipped(data, pos, n, mid, mid + |PairBytes(p)|);
  }

  lemma {:induction false} NextPairSkipped(data: seq<Byte>, pos: nat, n: nat, mid: nat, end: nat)
    requires pos <= |data| && SkippedPairs(data, pos, n) == Ok(mid) && SkippedPair(data, mid) == Ok(end)
    ensures SkippedPairs(data, pos, n + 1) == Ok(end)
  {
  }

  lemma {:induction false} ReadDimsBack(data: seq<Byte>, pos: nat, dims: seq<nat>)
    requires HasAt(data, pos, Les(dims, 8)) && forall i :: 0 <= i < |dims| ==> dims[i] < U64_LIMIT
    ensures ReadDims(data, pos, |dims|) == Ok((dims, pos + 8 * |dims|))
    decreases |dims|
  {
    if dims != [] {
      var n := |dims| - 1;
      HasSplit(data, pos, Les(dims, 8), Les(dims[..n], 8), Le(dims[n], 8));
      ReadDimsBack(data, pos, dims[..n]);
      LastDimBack(data, pos, dims[..n], dims[n]);
      SplitLast(dims);
    }
  }

  lemma {:induction false} LastDimBack(data: seq<Byte>, pos: nat, before: seq<nat>, dim: nat)
    requires pos <= |data| && dim < U64_LIMIT && HasAt(data, pos + 8 * |before|, Le(dim, 8))
    requires ReadDims(data, pos, |before|) == Ok((before, pos + 8 * |before|))
    ensures ReadDims(data, pos, |before| + 1) == Ok((before + [dim], pos + 8 * (|before| + 1)))
  {
    ReadU64Back(data, pos + 8 * |before|, dim);
  }

  lemma {:induction false} NameBack(data: seq<Byte>, pos: nat, t: Tensor)
    requires GoodTensor(t) && HasAt(data, pos, TensorBytes(t))
    ensures var e, at := t.entry, pos + 8 + |t.entry.name|;
            && ReadStr(data, pos) == Ok((e.name, at)) && ReadNumber(data, at, 4) == Ok((|e.dims|, at + 4))
            && HasAt(data, at + 4, ShapeBytes(t)) && pos + |TensorBytes(t)| == at + 4 + |ShapeBytes(t)|
  {
    var e, at := t.entry, pos + 8 + |t.entry.name|;
    HasSplit(data, pos, TensorBytes(t), StrBytes(e.name), Le(|e.dims|, 4) + ShapeBytes(t));
    HasSplit(data, at, Le(|e.dims|, 4) + ShapeBytes(t), Le(|e.dims|, 4), ShapeBytes(t));
    ReadStrBack(data, pos, e.name);
    ReadU32Back(data, at, |e.dims|);
  }

  lemma {:induction false} TypeBack(data: seq<Byte>, at: nat, ggmlType: nat, offset: nat)
    requires ggmlType < U32_LIMIT && offset < U64_LIMIT && HasAt(data, at, Le(ggmlType, 4) + Le(offset, 8))
    ensures ReadNumber(data, at, 4) == Ok((ggmlType, at + 4)) && ReadNumber(data, at + 4, 8) == Ok((offset, at + 12))
  {
    HasSplit(data, at, Le(ggmlType, 4) + Le(offset, 8), Le(ggmlType, 4), Le(offset, 8));
    ReadU32Back(data, at, ggmlType);
    ReadU64Back(data, at + 4, offset);
  }

  lemma {:induction false} ShapeBack(data: seq<Byte>, at: nat, t: Tensor)
    requires GoodTensor(t) && HasAt(data, at, ShapeBytes(t))
    ensures ReadShape(data, at, t.entry.name, |t.entry.dims|) == Ok((t.entry, at + |ShapeBytes(t)|))
  {
    var e, end := t.entry, at + 8 * |t.entry.dims|;
    HasSplit(data, at, ShapeBytes(t), Les(e.dims, 8), Le(e.ggmlType, 4) + Le(t.offset, 8));
    ReadDimsBack(data, at, e.dims);
    TypeBack(data, end, e.ggmlType, t.offset);
  }

  lemma {:induction false} EntryIs(data: seq<Byte>, pos: nat, name: seq<Byte>, n: nat, at: nat, e: Entry, end: nat)
    requires pos <= |data| && at + 4 <= |data|
    requires ReadStr(data, pos) == Ok((name, at)) && ReadNumber(data, at, 4) == Ok((n, at + 4))
    requires ReadShape(data, at + 4, name, n) == Ok((e, end))
    ensures ReadEntry(data, pos) == Ok((e, end))
  {
  }

  lemma {:induction false} ReadEntryBack(data: seq<Byte>, pos: nat, t: Tensor)
    requires GoodTensor(t) && HasAt(data, pos, TensorBytes(t))
    ensures ReadEntry(data, pos) == Ok((t.entry, pos + |TensorBytes(t)|))
  {
    var at := pos + 8 + |t.entry.name|;
    NameBack(data, pos, t);
    ShapeBack(data, at + 4, t);
    EntryIs(data, pos, t.entry.name, |t.entry.dims|, at, t.entry, at + 4 + |ShapeBytes(t)|);
  }

  /** The entries with the wanted name, or all if none is wanted; only the first is shown of those wanted. */
  function Wanted(ts: seq<Tensor>, needle: Needle): seq<Entry> {
    if ts == [] then []
    else
      var n := |ts| - 1;
      var before := Wanted(ts[..n], needle);
      if needle.Everything? || (needle.Means(ts[n].entry.name) && before == []) then before + [ts[n].entry] else before
  }

  lemma {:induction false} WantedAll(ts: seq<Tensor>)
    ensures |Wanted(ts, Everything)| == |ts| && forall i :: 0 <= i < |ts| ==> Wanted(ts, Everything)[i] == ts[i].entry
  {
    if ts != [] {
      WantedAll(ts[..|ts| - 1]);
    }
  }

  /** The first tensor of the wanted name. */
  predicate IsFirst(ts: seq<Tensor>, needle: Needle, i: nat) {
    i < |ts| && needle.Means(ts[i].entry.name) && forall k :: 0 <= k < i ==> !needle.Means(ts[k].entry.name)
  }

  lemma {:induction false} WantedFirst(ts: seq<Tensor>, needle: Needle)
    requires needle.Named?
    ensures Wanted(ts, needle) == [] <==> forall k :: 0 <= k < |ts| ==> !needle.Means(ts[k].entry.name)
    ensures Wanted(ts, needle) != [] ==> exists i: nat :: IsFirst(ts, needle, i) && Wanted(ts, needle) == [ts[i].entry]
  {
    if ts != [] {
      var n := |ts| - 1;
      WantedFirst(ts[..n], needle);
      if Wanted(ts[..n], needle) != [] {
        var i: nat :| IsFirst(ts[..n], needle, i) && Wanted(ts[..n], needle) == [ts[..n][i].entry];
        assert IsFirst(ts, needle, i);
      } else if needle.Means(ts[n].entry.name) {
        assert IsFirst(ts, needle, n);
      }
    }
  }

  /** The cursor follows the tensors until the wanted one is found. */
  lemma {:induction false} ShownBack(data: seq<Byte>, pos: nat, ts: seq<Tensor>, needle: Needle)
    requires forall i :: 0 <= i < |ts| ==> GoodTensor(ts[i])
    requires HasAt(data, pos, TensorsBytes(ts))
    ensures Shown(data, pos, needle, |ts|).Ok?
    ensures Shown(data, pos, needle, |ts|).value.0 == Wanted(ts, needle)
    ensures needle.Everything? || Wanted(ts, needle) == [] ==> Shown(data, pos, needle, |ts|).value.1 == pos + |TensorsBytes(ts)|
    decreases |ts|
  {
    if ts != [] {
      var n := |ts| - 1;
      LastTensorParts(data, pos, ts);
      ShownBack(data, pos, ts[..n], needle);
      LastShown(data, pos, needle, n, Wanted(ts[..n], needle), pos + |TensorsBytes(ts[..n])|, ts[n]);
    }
  }

  /** One more tensor, when the cursor is still following them or the wanted one has been found. */
  lemma {:induction false} LastShown(data: seq<Byte>, pos: nat, needle: Needle, n: nat, before: seq<Entry>, mid: nat, t: Tensor)
    requires pos <= |data| && GoodTensor(t) && HasAt(data, mid, TensorBytes(t))
    requires Shown(data, pos, needle, n).Ok? && Shown(data, pos, needle, n).value.0 == before
    requires needle.Everything? || before == [] ==> Shown(data, pos, needle, n).value.1 == mid
    ensures Shown(data, pos, needle, n + 1).Ok?
    ensures var r := Shown(data, pos, needle, n + 1).value;
            if needle.Named? && before != [] then r.0 == before
            else r == (if needle.Everything? || needle.Means(t.entry.name) then before + [t.entry] else before, mid + |TensorBytes(t)|)
  {
    ShownNext(data, pos, needle, n);
    ReadEntryBack(data, mid, t);
  }

  lemma {:induction false} ReadCountsBack(f: Gguf)
    requires GoodFile(f)
    ensures ReadCounts(FileBytes(f)) == Ok((|f.tensors|, |f.pairs|, 24))
  {
    var data := FileBytes(f);
    var numbers := Le(|f.tensors|, 8) + Le(|f.pairs|, 8);
    HasAll(data);
    HasSplit(data, 0, data, CountBytes(f), PairsBytes(f.pairs) + (TensorsBytes(f.tensors) + f.rest));
    HasSplit(data, 0, CountBytes(f), MAGIC, Le(f.version, 4) + numbers);
    HasSplit(data, 4, Le(f.version, 4) + numbers, Le(f.version, 4), numbers);
    HasSplit(data, 8, numbers, Le(|f.tensors|, 8), Le(|f.pairs|, 8));
    ReadU32Back(data, 4, f.version);
    ReadU64Back(data, 8, |f.tensors|);
    ReadU64Back(data, 16, |f.pairs|);
  }

  lemma {:induction false} BodyParts(f: Gguf)
    ensures HasAt(FileBytes(f), 24, PairsBytes(f.pairs))
    ensures HasAt(FileBytes(f), 24 + |PairsBytes(f.pairs)|, TensorsBytes(f.tensors))
  {
    var data := FileBytes(f);
    HasAll(data);
    HasSplit(data, 0, data, CountBytes(f), PairsBytes(f.pairs) + (TensorsBytes(f.tensors) + f.rest));
    HasSplit(data, 24, PairsBytes(f.pairs) + (TensorsBytes(f.tensors) + f.rest), PairsBytes(f.pairs), TensorsBytes(f.tensors) + f.rest);
    HasSplit(data, 24 + |PairsBytes(f.pairs)|, TensorsBytes(f.tensors) + f.rest, TensorsBytes(f.tensors), f.rest);
  }

  lemma {:induction false} PairsBack(f: Gguf)
    requires GoodFile(f)
    ensures SkippedPairs(FileBytes(f), 24, |f.pairs|) == Ok(24 + |PairsBytes(f.pairs)|)
  {
    BodyParts(f);
    SkipPairsBack(FileBytes(f), 24, f.pairs);
  }

  lemma {:induction false} EntriesBack(f: Gguf, needle: Needle)
    requires GoodFile(f)
    ensures 24 + |PairsBytes(f.pairs)| <= |FileBytes(f)|
    ensures var shown := Shown(FileBytes(f), 24 + |PairsBytes(f.pairs)|, needle, |f.tensors|);
            shown.Ok? && shown.value.0 == Wanted(f.tensors, needle)
  {
    BodyParts(f);
    ShownBack(FileBytes(f), 24 + |PairsBytes(f.pairs)|, f.tensors, needle);
  }

  /** Scanning a written file shows every tensor's name, dimensions and type, or those of the first with the wanted name. */
  lemma {:induction false} RoundTrip(f: Gguf, needle: Needle)
    requires GoodFile(f)
    ensures Scanned(FileBytes(f), needle) ==
            if needle.Named? && Wanted(f.tensors, needle) == [] then Err("NOT FOUND") else Ok(Wanted(f.tensors, needle))
  {
    ReadCountsBack(f);
    PairsBack(f);
    EntriesBack(f, needle);
  }
}
