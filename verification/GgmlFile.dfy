/** Loading model files in the GGML, GGMF and GGJT layouts. */
module GgmlFile {
  import opened Results
  import opened Bytes
  import opened ByteReading
  import opened SignedWords

  datatype Format = GGML | GGMF | GGJT

  // ----- header

  const MAGIC_GGUF: seq<Byte> := [71, 71, 85, 70]
  const MAGIC_GGML: seq<Byte> := [108, 109, 103, 103]
  const MAGIC_GGMF: seq<Byte> := [102, 109, 103, 103]
  const MAGIC_GGJT: seq<Byte> := [116, 106, 103, 103]

  datatype Header = Header(format: Format, version: nat)

  /** The header, and its length. */
  function ReadHeader(data: seq<Byte>, at: nat): Result<(Header, nat)> {
    if HasAt(data, at, MAGIC_GGUF) then Err("already GGUF")
    else if HasAt(data, at, MAGIC_GGML) then Ok((Header(GGML, 1), 4))
    else
      var version :- ReadLe(data, at + 4, 4);
      if HasAt(data, at, MAGIC_GGMF) then
        if version != 1 then Err("unexpected version") else Ok((Header(GGMF, version), 8))
      else if HasAt(data, at, MAGIC_GGJT) then
        if version < 1 || version > 3 then Err("unexpected version") else Ok((Header(GGJT, version), 8))
      else Err("unexpected magic")
  }

  // ----- hyperparameters

  datatype Hyper = Hyper(nVocab: nat, nEmbd: nat, nMult: nat, nHead: nat, nLayer: nat, nRot: nat, ftype: nat)

  /** The members of `GGMLFType`. */
  predicate IsFtype(n: nat) {
    n <= 4 || 7 <= n <= 18
  }

  function ReadHyper(data: seq<Byte>, at: nat): Result<Hyper> {
    var ns :- ReadLes(data, at, 4, 7);
    if IsFtype(ns[6]) then Ok(Hyper(ns[0], ns[1], ns[2], ns[3], ns[4], ns[5], ns[6])) else Err("invalid ftype")
  }

  /** Quantised files can be converted from GGJTv2 on; GGJTv2 files not in the formats that GGJTv3 changed. */
  predicate Convertible(h: Header, ftype: nat) {
    if h.format != GGJT || h.version < 2 then ftype <= 1
    else h.version == 2 ==> ftype !in {2, 3, 4, 7}
  }

  // ----- vocabulary

  /** A token and the bits of its score, zero where the file has no scores. */
  datatype Item = Item(text: seq<Byte>, score: nat)

  function ReadItem(data: seq<Byte>, at: nat, scores: bool): (r: Result<(Item, nat)>)
    ensures r.Ok? ==> r.value.1 >= at
  {
    var len :- ReadLe(data, at, 4);
    if len >= 4096 then Err("absurd vocab item length")
    else
      var text, end := Slice(data, at + 4, at + 4 + len), at + 4 + len;
      if scores then
        var score :- ReadLe(data, end, 4);
        Ok((Item(text, score), end + 4))
      else Ok((Item(text, 0), end))
  }

  /** The first `n` items, and where they end. */
  function ReadItems(data: seq<Byte>, at: nat, scores: bool, n: nat): (r: Result<(seq<Item>, nat)>)
    ensures r.Ok? ==> r.value.1 >= at && |r.value.0| == n
    decreases n, 1
  {
    if n == 0 then Ok(([], at)) else ReadItemsTo(data, at, scores, n)
  }

  /** Apart from `ReadItems`, so that a proof about `n` items does not unfold to the ones before them. */
  function ReadItemsTo(data: seq<Byte>, at: nat, scores: bool, n: nat): (r: Result<(seq<Item>, nat)>)
    requires n > 0
    ensures r.Ok? ==> r.value.1 >= at && |r.value.0| == n
    decreases n, 0
  {
    var before :- ReadItems(data, at, scores, n - 1);
    var item :- ReadItem(data, before.1, scores);
    Ok((before.0 + [item.0], item.1))
  }

  lemma {:induction false} ReadItemsFails(data: seq<Byte>, at: nat, scores: bool, k: nat, n: nat)
    requires k <= n && ReadItems(data, at, scores, k).Err?
    ensures ReadItems(data, at, scores, n) == ReadItems(data, at, scores, k)
  {
    if k < n {
      ReadItemsFails(data, at, scores, k, n - 1);
    }
  }

  // ----- tensors

  type Positive = n: int | n > 0 witness 1

  /** Elements and bytes in a block. */
  datatype Quant = Quant(block: Positive, bytes: Positive)

  /** The block of each type, by the number of the type; types with the same block share a row. */
  function QuantSize(dtype: nat): Option<Quant>
    decreases dtype, 1
  {
    QuantRow(dtype)
  }

  /** The table, apart from `QuantSize`, so that a proof that only needs some block does not go through its rows. */
  function QuantRow(dtype: nat): Option<Quant>
    decreases dtype, 0
  {
    match dtype
    case 0 => Some(Quant(1, 4))
    case 1 => Some(Quant(1, 2))
    case 2 => Some(Quant(32, 18))
    case 3 => Some(Quant(32, 20))
    case 6 => Some(Quant(32, 22))
    case 7 => Some(Quant(32, 24))
    case 8 => Some(Quant(32, 34))
    case 9 => Some(Quant(32, 40))
    case 10 => Some(Quant(256, 84))
    case 11 => Some(Quant(256, 110))
    case 12 => Some(Quant(256, 144))
    case 13 => Some(Quant(256, 176))
    case 14 => Some(Quant(256, 210))
    case 15 => Some(Quant(256, 292))
    case 16 => Some(Quant(256, 66))
    case 17 => Some(Quant(256, 74))
    case 18 => Some(Quant(256, 98))
    case 19 => Some(Quant(256, 50))
    case 20 => QuantSize(2)
    case 21 => QuantSize(11)
    case 22 => Some(Quant(256, 82))
    case 23 => Some(Quant(256, 136))
    case 24 => Some(Quant(1, 1))
    case 25 => QuantSize(1)
    case 26 => QuantSize(0)
    case 27 => Some(Quant(1, 8))
    case 28 => QuantSize(27)
    case 29 => Some(Quant(256, 56))
    case 30 => QuantSize(1)
    case 34 => Some(Quant(256, 54))
    case 35 => QuantSize(16)
    case 39 => Some(Quant(32, 17))
    case _ => None
  }

  function Product(dims: seq<nat>): nat {
    if dims == [] then 1 else Product(dims[..|dims| - 1]) * dims[|dims| - 1]
  }

  /** The size of a tensor, in 64-bit arithmetic. */
  function ByteCount(dims: seq<nat>, block: nat, bytes: nat): int
    requires block > 0
  {
    Wrap64(Wrap64(Product(dims)) * bytes) / block
  }

  /** The first multiple of 32 from `at` on. */
  function AlignUp(at: nat): nat
    decreases 31 - (at + 31) % 32
  {
    if at % 32 == 0 then at else AlignUp(at + 1)
  }

  lemma {:induction false} AlignUpTo(q: nat, k: nat)
    requires k < 32 && k <= 32 * q
    ensures AlignUp(32 * q - k) == 32 * q
    decreases k
  {
    if k > 0 {
      assert (32 * q - k) % 32 != 0;
      AlignUpTo(q, k - 1);
    }
  }

  /** The same, as the loader computes it. */
  function Padded(at: nat): (r: nat)
    ensures r >= at
  {
    (at + 31) / 32 * 32
  }

  lemma {:induction false} AlignUpIs(at: nat)
    ensures AlignUp(at) == Padded(at)
  {
    var q := (at + 31) / 32;
    AlignUpTo(q, 32 * q - at);
  }

  /** What is known of a tensor: its name, shape and type, and where its data is. */
  datatype Info = Info(name: seq<Byte>, dims: seq<nat>, dtype: nat, start: nat, length: int)

  /** The three numbers before a tensor: of dimensions, of bytes in the name, and of the type. */
  function ReadPrefix(data: seq<Byte>, at: nat): (r: Result<(nat, nat, nat)>)
    ensures r.Ok? ==> QuantSize(r.value.2).Some?
  {
    var ns :- ReadLes(data, at, 4, 3);
    if ns[0] > 4 then Err("invalid tensor dimensions")
    else if ns[1] >= 4096 then Err("absurd tensor name length")
    else if QuantSize(ns[2]).None? then Err("unknown tensor type")
    else Ok((ns[0], ns[1], ns[2]))
  }

  /** The size of a tensor of a known type. */
  function SizeOf(dims: seq<nat>, dtype: nat): int
    requires QuantSize(dtype).Some?
  {
    ByteCount(dims, QuantSize(dtype).value.block, QuantSize(dtype).value.bytes)
  }

  function ReadTensor(data: seq<Byte>, at: nat, padding: bool): Result<Info> {
    var (nDims, nameLen, dtype) :- ReadPrefix(data, at);
    var dims :- ReadLes(data, at + 12, 4, nDims);
    var afterDims := at + 12 + 4 * nDims;
    var end := afterDims + nameLen;
    Ok(Info(Slice(data, afterDims, end), dims, dtype, if padding then AlignUp(end) else end, SizeOf(dims, dtype)))
  }

  lemma {:induction false} TensorIs(data: seq<Byte>, at: nat, padding: bool, nDims: nat, nameLen: nat, dtype: nat, dims: seq<nat>)
    requires ReadPrefix(data, at) == Ok((nDims, nameLen, dtype)) && ReadLes(data, at + 12, 4, nDims) == Ok(dims)
    ensures var nameAt := at + 12 + 4 * nDims;
            var end := nameAt + nameLen;
            ReadTensor(data, at, padding) ==
            Ok(Info(Slice(data, nameAt, end), dims, dtype, if padding then Padded(end) else end, SizeOf(dims, dtype)))
  {
    AlignUpIs(at + 12 + 4 * nDims + nameLen);
  }

  /** Where the next tensor is looked for: behind the data, in 64-bit arithmetic. */
  function End(t: Info): int {
    Wrap64(t.start + t.length)
  }

  /** How loading ends: with a value, with an exception, or not yet, because the loader goes back to `at`. */
  datatype Outcome<+T> = Done(value: T) | Raised(error: string) | WentBack(at: int)

  /** All tensors from `at` to the end of the data, and where they end. */
  function ReadTensors(data: seq<Byte>, at: nat, padding: bool): (r: Outcome<(seq<Info>, nat)>)
    ensures r.Done? ==> r.value.1 >= at && r.value.1 >= |data|
    decreases if at < |data| then |data| - at else 0, 1
  {
    if at >= |data| then Done(([], at)) else ReadMore(data, at, padding)
  }

  /** The tensor at `at`, and those after it. Apart from `ReadTensors` so that a proof about all tensors need not unfold the reading of one. */
  function ReadMore(data: seq<Byte>, at: nat, padding: bool): (r: Outcome<(seq<Info>, nat)>)
    requires at < |data|
    ensures r.Done? ==> r.value.1 >= at && r.value.1 >= |data|
    decreases |data| - at, 0
  {
    match ReadTensor(data, at, padding)
    case Err(e) => Raised(e)
    case Ok(t) => if End(t) <= at then WentBack(End(t)) else Prepend([t], ReadTensors(data, End(t), padding))
  }

  function Prepend(ts: seq<Info>, r: Outcome<(seq<Info>, nat)>): Outcome<(seq<Info>, nat)> {
    if r.Done? then Done((ts + r.value.0, r.value.1)) else r
  }

  // ----- models

  /** layers.0.feed_forward.w1.weight */
  const FEED_FORWARD: seq<Byte> := [
    108, 97, 121, 101, 114, 115, 46, 48, 46,
    102, 101, 101, 100, 95, 102, 111, 114, 119, 97, 114, 100, 46,
    119, 49, 46, 119, 101, 105, 103, 104, 116]

  datatype Model = Model(header: Header, hyper: Hyper, nFf: nat, items: seq<Item>, tensors: seq<Info>)

  /** The place of the last tensor of each name. */
  function NameMap(ts: seq<Info>): map<seq<Byte>, nat> {
    if ts == [] then map[] else NameMap(ts[..|ts| - 1])[ts[|ts| - 1].name := |ts| - 1]
  }

  lemma {:induction false} NameMapPlaces(ts: seq<Info>, name: seq<Byte>)
    ensures name in NameMap(ts) <==> exists i :: 0 <= i < |ts| && ts[i].name == name
    ensures name in NameMap(ts) ==>
              var i := NameMap(ts)[name];
              i < |ts| && ts[i].name == name && forall k :: i < k < |ts| ==> ts[k].name != name
  {
    if ts != [] {
      NameMapPlaces(ts[..|ts| - 1], name);
    }
  }

  function FfSize(ts: seq<Info>): Result<nat> {
    NameMapPlaces(ts, FEED_FORWARD);
    if FEED_FORWARD !in NameMap(ts) then Err("missing layer 0 FF tensor")
    else
      var dims := ts[NameMap(ts)[FEED_FORWARD]].dims;
      if |dims| < 2 then Err("IndexError") else Ok(dims[1])
  }

  /** Where the parts of a model end: header, hyperparameters, vocabulary. */
  datatype Start = Start(header: Header, hyper: Hyper, items: seq<Item>, hyperAt: nat, itemsAt: nat, tensorsAt: nat)

  function ReadStart(data: seq<Byte>, at: nat): Result<Start> {
    var header :- ReadHeader(data, at);
    var hyperAt := at + header.1;
    var hyper :- ReadHyper(data, hyperAt);
    if !Convertible(header.0, hyper.ftype) then Err("not eligible for conversion")
    else
      var items :- ReadItems(data, hyperAt + 28, header.0.format != GGML, hyper.nVocab);
      Ok(Start(header.0, hyper, items.0, hyperAt, hyperAt + 28, items.1))
  }

  /** The model at `at`, and where it ends. */
  function ReadModel(data: seq<Byte>, at: nat): Outcome<(Model, nat)> {
    match ReadStart(data, at)
    case Err(e) => Raised(e)
    case Ok(s) =>
      match ReadTensors(data, s.tensorsAt, s.header.format == GGJT)
      case Raised(e) => Raised(e)
      case WentBack(to) => WentBack(to)
      case Done(tensors) => Modelled(s, tensors.0, tensors.1)
  }

  /** The model of what was read, with the size that `set_n_ff` looks up. */
  function Modelled(s: Start, infos: seq<Info>, end: nat): Outcome<(Model, nat)> {
    match FfSize(infos)
    case Err(e) => Raised(e)
    case Ok(nFf) => Done((Model(s.header, s.hyper, nFf, s.items, infos), end))
  }
}
