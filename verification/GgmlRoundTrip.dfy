/** Writing a model file and loading it. */
module GgmlRoundTrip {
  import opened Results
  import opened Bytes
  import opened ByteReading
  import opened SignedWords
  import opened Sequences
  import opened GgmlFile
  import opened FormatTables

  datatype TensorFile = TensorFile(name: seq<Byte>, dims: seq<nat>, dtype: nat, data: seq<Byte>)

  datatype File = File(header: Header, hyper: Hyper, items: seq<Item>, tensors: seq<TensorFile>)

  // ----- writing

  function HeaderBytes(h: Header): seq<Byte> {
    match h.format
    case GGML => MAGIC_GGML
    case GGMF => MAGIC_GGMF + Le(h.version, 4)
    case GGJT => MAGIC_GGJT + Le(h.version, 4)
  }

  function HyperNumbers(h: Hyper): seq<nat> {
    [h.nVocab, h.nEmbd, h.nMult, h.nHead, h.nLayer, h.nRot, h.ftype]
  }

  function ItemBytes(item: Item, scores: bool): seq<Byte> {
    Le(|item.text|, 4) + item.text + (if scores then Le(item.score, 4) else [])
  }

  function ItemsBytes(items: seq<Item>, scores: bool): seq<Byte>
    decreases |items|, 1
  {
    if |items| == 0 then [] else ItemsBytesTo(items, scores)
  }

  /** Apart from `ItemsBytes`, so that a proof about the last item does not unfold to the ones before it. */
  function ItemsBytesTo(items: seq<Item>, scores: bool): seq<Byte>
    requires |items| > 0
    decreases |items|, 0
  {
    ItemsBytes(items[..|items| - 1], scores) + ItemBytes(items[|items| - 1], scores)
  }

  /** What comes before the padding. */
  function Prefix(t: TensorFile): (s: seq<Byte>)
    ensures |s| == 12 + 4 * |t.dims| + |t.name|
  {
    Les([|t.dims|, |t.name|, t.dtype], 4) + Les(t.dims, 4) + t.name
  }

  function DataAt(t: TensorFile, at: nat, padding: bool): (r: nat)
    ensures r >= at + |Prefix(t)|
  {
    AlignUpIs(at + |Prefix(t)|);
    if padding then AlignUp(at + |Prefix(t)|) else at + |Prefix(t)|
  }

  function TensorBytes(t: TensorFile, at: nat, padding: bool): (s: seq<Byte>)
    ensures |s| == DataAt(t, at, padding) - at + |t.data|
  {
    Prefix(t) + Blank(DataAt(t, at, padding) - at - |Prefix(t)|) + t.data
  }

  function After(t: TensorFile, at: nat, padding: bool): nat {
    DataAt(t, at, padding) + |t.data|
  }

  function TensorsBytes(ts: seq<TensorFile>, at: nat, padding: bool): seq<Byte> {
    if ts == [] then [] else TensorBytes(ts[0], at, padding) + TensorsBytes(ts[1..], After(ts[0], at, padding), padding)
  }

  function StartBytes(f: File): seq<Byte> {
    HeaderBytes(f.header) + (Les(HyperNumbers(f.hyper), 4) + ItemsBytes(f.items, f.header.format != GGML))
  }

  function FileBytes(f: File): seq<Byte> {
    StartBytes(f) + TensorsBytes(f.tensors, |StartBytes(f)|, f.header.format == GGJT)
  }

  // ----- what a file may hold

  predicate GoodHeader(h: Header) {
    match h.format
    case GGML => h.version == 1
    case GGMF => h.version == 1
    case GGJT => 1 <= h.version <= 3
  }

  predicate GoodHyper(h: Hyper) {
    IsFtype(h.ftype) && forall i :: 0 <= i < 7 ==> HyperNumbers(h)[i] < U32_LIMIT
  }

  predicate GoodItem(item: Item, scores: bool) {
    |item.text| < 4096 && (if scores then item.score < U32_LIMIT else item.score == 0)
  }

  predicate GoodItems(items: seq<Item>, scores: bool)
    decreases |items|, 1
  {
    |items| == 0 || GoodLastItem(items, scores)
  }

  /** Apart from `GoodItems`, so that a proof about the last item does not unfold to the ones before it. */
  predicate GoodLastItem(items: seq<Item>, scores: bool)
    requires |items| > 0
    decreases |items|, 0
  {
    GoodItem(items[|items| - 1], scores) && GoodItems(items[..|items| - 1], scores)
  }

  /** The size fits the shape, and 64 bits. */
  predicate GoodTensor(t: TensorFile) {
    && |t.dims| <= 4 && (forall i :: 0 <= i < |t.dims| ==> t.dims[i] < U32_LIMIT)
    && |t.name| < 4096
    && t.dtype < U32_LIMIT && QuantSize(t.dtype).Some?
    && var quant := QuantSize(t.dtype).value;
       Product(t.dims) * quant.bytes < 0x8000_0000_0000_0000 && |t.data| == Product(t.dims) * quant.bytes / quant.block
  }

  predicate GoodTensors(ts: seq<TensorFile>)
    decreases |ts|, 1
  {
    ts == [] || GoodFirst(ts)
  }

  /** Apart from `GoodTensors`, for the same reason. */
  predicate GoodFirst(ts: seq<TensorFile>)
    requires ts != []
    decreases |ts|, 0
  {
    GoodTensor(ts[0]) && GoodTensors(ts[1..])
  }

  /** The file is no longer than the signed 64 bits of its offsets can count. */
  predicate GoodFile(f: File) {
    && GoodHeader(f.header) && GoodHyper(f.hyper) && Convertible(f.header, f.hyper.ftype)
    && |f.items| == f.hyper.nVocab
    && GoodItems(f.items, f.header.format != GGML)
    && GoodTensors(f.tensors)
    && |FileBytes(f)| < MODULUS / 2
  }

  // ----- reading it back

  lemma {:induction false} ReadHeaderBack(data: seq<Byte>, h: Header)
    requires GoodHeader(h) && HasAt(data, 0, HeaderBytes(h))
    ensures ReadHeader(data, 0) == Ok((h, |HeaderBytes(h)|))
  {
    if h.format == GGML {
      FirstByte(data, MAGIC_GGML);
    } else {
      var magic := if h.format == GGMF then MAGIC_GGMF else MAGIC_GGJT;
      HasSplit(data, 0, HeaderBytes(h), magic, Le(h.version, 4));
      FirstByte(data, magic);
      FourBytes(h.version);
      ReadWritten(data, 4, h.version, 4);
    }
  }

  /** The first byte tells the four kinds of file apart. */
  lemma {:induction false} FirstByte(data: seq<Byte>, magic: seq<Byte>)
    requires magic in {MAGIC_GGUF, MAGIC_GGML, MAGIC_GGMF, MAGIC_GGJT} && HasAt(data, 0, magic)
    ensures HasAt(data, 0, MAGIC_GGUF) <==> magic == MAGIC_GGUF
    ensures HasAt(data, 0, MAGIC_GGML) <==> magic == MAGIC_GGML
    ensures HasAt(data, 0, MAGIC_GGMF) <==> magic == MAGIC_GGMF
    ensures HasAt(data, 0, MAGIC_GGJT) <==> magic == MAGIC_GGJT
  {
    HasFirstAt(data, 0, magic, 4, 0);
    FirstByteOf(data, MAGIC_GGUF);
    FirstByteOf(data, MAGIC_GGML);
    FirstByteOf(data, MAGIC_GGMF);
    FirstByteOf(data, MAGIC_GGJT);
  }

  lemma {:induction false} FirstByteOf(data: seq<Byte>, magic: seq<Byte>)
    requires |magic| > 0
    ensures HasAt(data, 0, magic) ==> |data| > 0 && data[0] == magic[0]
  {
    if HasAt(data, 0, magic) {
      HasFirstAt(data, 0, magic, |magic|, 0);
    }
  }

  lemma {:induction false} ReadHyperBack(data: seq<Byte>, at: nat, h: Hyper)
    requires GoodHyper(h) && HasAt(data, at, Les(HyperNumbers(h), 4))
    ensures ReadHyper(data, at) == Ok(h)
  {
    var ns := HyperNumbers(h);
    ReadNumbersBack(data, at, ns);
  }

  lemma {:induction false} ReadItemBack(data: seq<Byte>, at: nat, item: Item, scores: bool)
    requires GoodItem(item, scores) && HasAt(data, at, ItemBytes(item, scores))
    ensures ReadItem(data, at, scores) == Ok((item, at + |ItemBytes(item, scores)|))
  {
    var len, tail := Le(|item.text|, 4), if scores then Le(item.score, 4) else [];
    HasSplit(data, at, ItemBytes(item, scores), len + item.text, tail);
    HasSplit(data, at, len + item.text, len, item.text);
    FourBytes(|item.text|);
    ReadWritten(data, at, |item.text|, 4);
    SliceWritten(data, at + 4, item.text);
    if scores {
      FourBytes(item.score);
      ReadWritten(data, at + 4 + |item.text|, item.score, 4);
    }
  }

  lemma {:induction false} ReadItemsBack(data: seq<Byte>, at: nat, items: seq<Item>, scores: bool)
    requires GoodItems(items, scores) && HasAt(data, at, ItemsBytes(items, scores))
    ensures ReadItems(data, at, scores, |items|) == Ok((items, at + |ItemsBytes(items, scores)|))
    decreases |items|
  {
    if |items| > 0 {
      var before := items[..|items| - 1];
      LastItemParts(data, at, items, scores);
      ReadItemsBack(data, at, before, scores);
      LastItemBack(data, at, items, scores, at + |ItemsBytes(before, scores)|);
    }
  }

  lemma {:induction false} ItemsSplit(items: seq<Item>, scores: bool)
    requires |items| > 0
    ensures ItemsBytes(items, scores) == ItemsBytes(items[..|items| - 1], scores) + ItemBytes(items[|items| - 1], scores)
  {
  }

  lemma {:induction false} LastItemParts(data: seq<Byte>, at: nat, items: seq<Item>, scores: bool)
    requires |items| > 0 && HasAt(data, at, ItemsBytes(items, scores))
    ensures var n := |items| - 1;
            var before, last := ItemsBytes(items[..n], scores), ItemBytes(items[n], scores);
            && HasAt(data, at, before) && HasAt(data, at + |before|, last)
            && |ItemsBytes(items, scores)| == |before| + |last|
  {
    var n := |items| - 1;
    ItemsSplit(items, scores);
    HasSplit(data, at, ItemsBytes(items, scores), ItemsBytes(items[..n], scores), ItemBytes(items[n], scores));
  }

  lemma {:induction false} LastItemRead(data: seq<Byte>, mid: nat, items: seq<Item>, scores: bool)
    requires |items| > 0 && GoodItems(items, scores) && HasAt(data, mid, ItemBytes(items[|items| - 1], scores))
    ensures ReadItem(data, mid, scores) == Ok((items[|items| - 1], mid + |ItemBytes(items[|items| - 1], scores)|))
  {
    ReadItemBack(data, mid, items[|items| - 1], scores);
  }

  lemma {:induction false} LastItemBack(data: seq<Byte>, at: nat, items: seq<Item>, scores: bool, mid: nat)
    requires |items| > 0 && GoodItems(items, scores) && HasAt(data, mid, ItemBytes(items[|items| - 1], scores))
    requires ReadItems(data, at, scores, |items| - 1) == Ok((items[..|items| - 1], mid))
    ensures ReadItems(data, at, scores, |items|) == Ok((items, mid + |ItemBytes(items[|items| - 1], scores)|))
  {
    var n := |items| - 1;
    LastItemRead(data, mid, items, scores);
    ReadItemsNext(data, at, scores, items[..n], items[n], mid, mid + |ItemBytes(items[n], scores)|);
    SplitLast(items);
  }

  lemma {:induction false} ReadItemsNext(data: seq<Byte>, at: nat, scores: bool, before: seq<Item>, item: Item, mid: nat, end: nat)
    requires ReadItems(data, at, scores, |before|) == Ok((before, mid)) && ReadItem(data, mid, scores) == Ok((item, end))
    ensures ReadItems(data, at, scores, |before| + 1) == Ok((before + [item], end))
  {
  }

  function InfoOf(t: TensorFile, at: nat, padding: bool): Info {
    Info(t.name, t.dims, t.dtype, DataAt(t, at, padding), |t.data|)
  }

  function InfosOf(ts: seq<TensorFile>, at: nat, padding: bool): (r: seq<Info>)
    ensures |r| == |ts|
  {
    if ts == [] then [] else [InfoOf(ts[0], at, padding)] + InfosOf(ts[1..], After(ts[0], at, padding), padding)
  }

  lemma {:induction false} ByteCountIs(dims: seq<nat>, block: nat, bytes: nat)
    requires block > 0 && bytes > 0 && Product(dims) * bytes < 0x8000_0000_0000_0000
    ensures ByteCount(dims, block, bytes) == Product(dims) * bytes / block
  {
    LessThanProduct(Product(dims), bytes);
    assert Wrap64(Product(dims)) == Product(dims);
    assert Wrap64(Product(dims) * bytes) == Product(dims) * bytes;
  }

  lemma {:induction false} SizeIs(t: TensorFile)
    requires GoodTensor(t)
    ensures SizeOf(t.dims, t.dtype) == |t.data|
  {
    var quant := QuantSize(t.dtype).value;
    ByteCountIs(t.dims, quant.block, quant.bytes);
  }

  lemma {:induction false} LessThanProduct(x: nat, y: nat)
    requires y > 0
    ensures x <= x * y
  {
  }

  lemma {:induction false} PrefixParts(data: seq<Byte>, at: nat, t: TensorFile)
    requires HasAt(data, at, Prefix(t))
    ensures HasAt(data, at, Les([|t.dims|, |t.name|, t.dtype], 4)) && HasAt(data, at + 12, Les(t.dims, 4))
    ensures HasAt(data, at + 12 + 4 * |t.dims|, t.name)
  {
    var ns := Les([|t.dims|, |t.name|, t.dtype], 4);
    HasSplit(data, at, Prefix(t), ns + Les(t.dims, 4), t.name);
    HasSplit(data, at, ns + Les(t.dims, 4), ns, Les(t.dims, 4));
  }

  lemma {:induction false} ReadNumbersBack(data: seq<Byte>, at: nat, ns: seq<nat>)
    requires HasAt(data, at, Les(ns, 4)) && forall i :: 0 <= i < |ns| ==> ns[i] < U32_LIMIT
    ensures ReadLes(data, at, 4, |ns|) == Ok(ns)
  {
    forall i | 0 <= i < |ns| ensures Fits(ns[i], 4) {
      FourBytes(ns[i]);
    }
    ReadWrittens(data, at, ns, 4);
  }

  lemma {:induction false} ReadPrefixBack(data: seq<Byte>, at: nat, t: TensorFile)
    requires GoodTensor(t) && HasAt(data, at, Les([|t.dims|, |t.name|, t.dtype], 4))
    ensures ReadPrefix(data, at) == Ok((|t.dims|, |t.name|, t.dtype))
  {
    ReadNumbersBack(data, at, [|t.dims|, |t.name|, t.dtype]);
  }

  lemma {:induction false} ReadDimsAndNameBack(data: seq<Byte>, at: nat, t: TensorFile)
    requires GoodTensor(t) && HasAt(data, at + 12, Les(t.dims, 4)) && HasAt(data, at + 12 + 4 * |t.dims|, t.name)
    ensures ReadLes(data, at + 12, 4, |t.dims|) == Ok(t.dims)
    ensures Slice(data, at + 12 + 4 * |t.dims|, at + 12 + 4 * |t.dims| + |t.name|) == t.name
  {
    ReadNumbersBack(data, at + 12, t.dims);
    SliceWritten(data, at + 12 + 4 * |t.dims|, t.name);
  }

  lemma {:induction false} TensorParts(data: seq<Byte>, at: nat, t: TensorFile, padding: bool)
    requires HasAt(data, at, TensorBytes(t, at, padding))
    ensures HasAt(data, at, Prefix(t)) && HasAt(data, DataAt(t, at, padding), t.data)
  {
    var zeros := Blank(DataAt(t, at, padding) - at - |Prefix(t)|);
    HasSplit(data, at, TensorBytes(t, at, padding), Prefix(t) + zeros, t.data);
    HasSplit(data, at, Prefix(t) + zeros, Prefix(t), zeros);
  }

  lemma {:induction false} TensorFacts(data: seq<Byte>, at: nat, t: TensorFile)
    requires GoodTensor(t) && HasAt(data, at, Prefix(t))
    ensures ReadPrefix(data, at) == Ok((|t.dims|, |t.name|, t.dtype))
    ensures ReadLes(data, at + 12, 4, |t.dims|) == Ok(t.dims)
    ensures Slice(data, at + 12 + 4 * |t.dims|, at + 12 + 4 * |t.dims| + |t.name|) == t.name
  {
    PrefixParts(data, at, t);
    ReadPrefixBack(data, at, t);
    ReadDimsAndNameBack(data, at, t);
  }

  lemma {:induction false} ReadTensorBack(data: seq<Byte>, at: nat, t: TensorFile, padding: bool)
    requires GoodTensor(t) && HasAt(data, at, Prefix(t))
    ensures ReadTensor(data, at, padding) == Ok(InfoOf(t, at, padding))
  {
    TensorFacts(data, at, t);
    SizeIs(t);
    TensorIs(data, at, padding, |t.dims|, |t.name|, t.dtype, t.dims);
    AlignUpIs(at + |Prefix(t)|);
  }

  lemma {:induction false} ReadOneMore(data: seq<Byte>, at: nat, padding: bool, t: Info, rest: seq<Info>)
    requires at < |data| && ReadTensor(data, at, padding) == Ok(t) && End(t) > at
    requires ReadTensors(data, End(t), padding) == Done((rest, |data|))
    ensures ReadTensors(data, at, padding) == Done(([t] + rest, |data|))
  {
  }

  lemma {:induction false} ReadTensorsBack(data: seq<Byte>, at: nat, ts: seq<TensorFile>, padding: bool)
    requires GoodTensors(ts)
    requires HasAt(data, at, TensorsBytes(ts, at, padding)) && |data| == at + |TensorsBytes(ts, at, padding)| < MODULUS / 2
    ensures ReadTensors(data, at, padding) == Done((InfosOf(ts, at, padding), |data|))
    decreases |ts|
  {
    if ts != [] {
      var next := After(ts[0], at, padding);
      FirstTensorParts(data, at, ts, padding);
      TensorParts(data, at, ts[0], padding);
      ReadTensorsBack(data, next, ts[1..], padding);
      FirstTensorRead(data, at, ts, padding);
      InfoEnds(ts[0], at, padding);
      ReadOneMore(data, at, padding, InfoOf(ts[0], at, padding), InfosOf(ts[1..], next, padding));
    }
  }

  lemma {:induction false} InfoEnds(t: TensorFile, at: nat, padding: bool)
    requires After(t, at, padding) < MODULUS / 2
    ensures End(InfoOf(t, at, padding)) == After(t, at, padding) > at
  {
    WrapInside(After(t, at, padding));
  }

  lemma {:induction false} FirstTensorRead(data: seq<Byte>, at: nat, ts: seq<TensorFile>, padding: bool)
    requires ts != [] && GoodTensors(ts) && HasAt(data, at, Prefix(ts[0]))
    ensures ReadTensor(data, at, padding) == Ok(InfoOf(ts[0], at, padding))
  {
    ReadTensorBack(data, at, ts[0], padding);
  }

  lemma {:induction false} TensorsSplit(ts: seq<TensorFile>, at: nat, padding: bool)
    requires ts != []
    ensures TensorsBytes(ts, at, padding) ==
            TensorBytes(ts[0], at, padding) + TensorsBytes(ts[1..], After(ts[0], at, padding), padding)
  {
  }

  lemma {:induction false} FirstTensorParts(data: seq<Byte>, at: nat, ts: seq<TensorFile>, padding: bool)
    requires ts != [] && HasAt(data, at, TensorsBytes(ts, at, padding))
    ensures var first, next := TensorBytes(ts[0], at, padding), After(ts[0], at, padding);
            && HasAt(data, at, first) && HasAt(data, next, TensorsBytes(ts[1..], next, padding))
            && at + |TensorsBytes(ts, at, padding)| == next + |TensorsBytes(ts[1..], next, padding)|
            && at < next
  {
    var first, next := TensorBytes(ts[0], at, padding), After(ts[0], at, padding);
    TensorsSplit(ts, at, padding);
    HasSplit(data, at, TensorsBytes(ts, at, padding), first, TensorsBytes(ts[1..], next, padding));
  }

  /** Each tensor's data is where its entry says. */
  lemma {:induction false} DataBack(data: seq<Byte>, at: nat, ts: seq<TensorFile>, padding: bool, i: nat)
    requires GoodTensors(ts)
    requires HasAt(data, at, TensorsBytes(ts, at, padding)) && i < |ts|
    ensures var t := InfosOf(ts, at, padding)[i];
            t.length == |ts[i].data| && HasAt(data, t.start, ts[i].data)
    decreases |ts|
  {
    var next := After(ts[0], at, padding);
    FirstTensorParts(data, at, ts, padding);
    TensorParts(data, at, ts[0], padding);
    if i == 0 {
      assert InfosOf(ts, at, padding)[0] == InfoOf(ts[0], at, padding);
    } else {
      DataBack(data, next, ts[1..], padding, i - 1);
    }
  }

  lemma {:induction false} StartParts(f: File)
    ensures var data, header, hyper := FileBytes(f), HeaderBytes(f.header), Les(HyperNumbers(f.hyper), 4);
            && HasAt(data, 0, header) && HasAt(data, |header|, hyper) && |hyper| == 28
            && HasAt(data, |header| + 28, ItemsBytes(f.items, f.header.format != GGML))
            && |StartBytes(f)| == |header| + 28 + |ItemsBytes(f.items, f.header.format != GGML)|
  {
    var data, header, hyper := FileBytes(f), HeaderBytes(f.header), Les(HyperNumbers(f.hyper), 4);
    var items := ItemsBytes(f.items, f.header.format != GGML);
    FileParts(f);
    HasSplit(data, 0, StartBytes(f), header, hyper + items);
    HasSplit(data, |header|, hyper + items, hyper, items);
  }

  lemma {:induction false} FileParts(f: File)
    ensures HasAt(FileBytes(f), 0, StartBytes(f))
    ensures HasAt(FileBytes(f), |StartBytes(f)|, TensorsBytes(f.tensors, |StartBytes(f)|, f.header.format == GGJT))
  {
    var data := FileBytes(f);
    HasAll(data);
    HasSplit(data, 0, data, StartBytes(f), TensorsBytes(f.tensors, |StartBytes(f)|, f.header.format == GGJT));
  }

  lemma {:induction false} StartIs(data: seq<Byte>, header: Header, at: nat, hyper: Hyper, items: seq<Item>, end: nat)
    requires ReadHeader(data, 0) == Ok((header, at)) && ReadHyper(data, at) == Ok(hyper) && Convertible(header, hyper.ftype)
    requires ReadItems(data, at + 28, header.format != GGML, hyper.nVocab) == Ok((items, end))
    ensures ReadStart(data, 0) == Ok(Start(header, hyper, items, at, at + 28, end))
  {
  }

  lemma {:induction false} StartWritten(data: seq<Byte>, f: File, at: nat, end: nat)
    requires GoodItems(f.items, f.header.format != GGML) && |f.items| == f.hyper.nVocab && Convertible(f.header, f.hyper.ftype)
    requires ReadHeader(data, 0) == Ok((f.header, at)) && ReadHyper(data, at) == Ok(f.hyper)
    requires HasAt(data, at + 28, ItemsBytes(f.items, f.header.format != GGML))
    requires end == at + 28 + |ItemsBytes(f.items, f.header.format != GGML)|
    ensures ReadStart(data, 0) == Ok(Start(f.header, f.hyper, f.items, at, at + 28, end))
  {
    ReadItemsBack(data, at + 28, f.items, f.header.format != GGML);
    StartIs(data, f.header, at, f.hyper, f.items, end);
  }

  lemma {:induction false} ReadStartBack(f: File)
    requires GoodFile(f)
    ensures ReadStart(FileBytes(f), 0) ==
            Ok(Start(f.header, f.hyper, f.items, |HeaderBytes(f.header)|, |HeaderBytes(f.header)| + 28, |StartBytes(f)|))
  {
    StartParts(f);
    ReadHeaderBack(FileBytes(f), f.header);
    ReadHyperBack(FileBytes(f), |HeaderBytes(f.header)|, f.hyper);
    StartWritten(FileBytes(f), f, |HeaderBytes(f.header)|, |StartBytes(f)|);
  }

  lemma {:induction false} FileBack(f: File)
    requires GoodFile(f)
    ensures var infos := InfosOf(f.tensors, |StartBytes(f)|, f.header.format == GGJT);
            ReadModel(FileBytes(f), 0) ==
            match FfSize(infos)
            case Ok(nFf) => Done((Model(f.header, f.hyper, nFf, f.items, infos), |FileBytes(f)|))
            case Err(e) => Raised(e)
  {
    ReadStartBack(f);
    FileParts(f);
    ReadTensorsBack(FileBytes(f), |StartBytes(f)|, f.tensors, f.header.format == GGJT);
  }

  // ----- the feed-forward size

  /** Tensor `i` is the last of that name. */
  predicate LastNamed(ts: seq<TensorFile>, name: seq<Byte>, i: nat) {
    i < |ts| && ts[i].name == name && forall k :: i < k < |ts| ==> ts[k].name != name
  }

  lemma {:induction false} InfosAre(ts: seq<TensorFile>, at: nat, padding: bool, i: nat)
    requires i < |ts|
    ensures InfosOf(ts, at, padding)[i].name == ts[i].name && InfosOf(ts, at, padding)[i].dims == ts[i].dims
    decreases |ts|
  {
    if i > 0 {
      InfosAre(ts[1..], After(ts[0], at, padding), padding, i - 1);
    }
  }

  lemma {:induction false} FfSizeOf(infos: seq<Info>, i: nat)
    requires i < |infos| && infos[i].name == FEED_FORWARD && forall k :: i < k < |infos| ==> infos[k].name != FEED_FORWARD
    ensures FfSize(infos) == if |infos[i].dims| < 2 then Err("IndexError") else Ok(infos[i].dims[1])
  {
    NameMapPlaces(infos, FEED_FORWARD);
  }

  lemma {:induction false} NoFfSize(infos: seq<Info>)
    requires forall k :: 0 <= k < |infos| ==> infos[k].name != FEED_FORWARD
    ensures FfSize(infos) == Err("missing layer 0 FF tensor")
  {
    NameMapPlaces(infos, FEED_FORWARD);
  }

  /** What was written, with the feed-forward size `nFf`. */
  function Written(f: File, nFf: nat): Model {
    Model(f.header, f.hyper, nFf, f.items, InfosOf(f.tensors, |StartBytes(f)|, f.header.format == GGJT))
  }

  /** Loading a file gives back what was written, and ends at its end. The feed-forward size is the second dimension of the last tensor
      named layers.0.feed_forward.w1.weight; loading fails if there is none, or if it has fewer than two. */
  lemma {:induction false} RoundTrip(f: File, i: nat)
    requires GoodFile(f)
    ensures LastNamed(f.tensors, Ascii("layers.0.feed_forward.w1.weight"), i) ==>
              ReadModel(FileBytes(f), 0) ==
              if |f.tensors[i].dims| >= 2 then Done((Written(f, f.tensors[i].dims[1]), |FileBytes(f)|)) else Raised("IndexError")
    ensures (forall k :: 0 <= k < |f.tensors| ==> f.tensors[k].name != Ascii("layers.0.feed_forward.w1.weight")) ==>
              ReadModel(FileBytes(f), 0) == Raised("missing layer 0 FF tensor")
  {
    var at, padding := |StartBytes(f)|, f.header.format == GGJT;
    FileBack(f);
    FeedForwardName();
    forall k | 0 <= k < |f.tensors|
      ensures InfosOf(f.tensors, at, padding)[k].name == f.tensors[k].name && InfosOf(f.tensors, at, padding)[k].dims == f.tensors[k].dims
    {
      InfosAre(f.tensors, at, padding, k);
    }
    if LastNamed(f.tensors, FEED_FORWARD, i) {
      FfSizeOf(InfosOf(f.tensors, at, padding), i);
    }
    if forall k :: 0 <= k < |f.tensors| ==> f.tensors[k].name != FEED_FORWARD {
      NoFfSize(InfosOf(f.tensors, at, padding));
    }
  }
}
