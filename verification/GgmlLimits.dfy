/** When the loader goes back in the file instead of ending. */
module GgmlLimits {
  import opened Results
  import opened Bytes
  import opened ByteReading
  import opened SignedWords
  import opened GgmlFile
  import opened GgmlSteps
  import opened GgmlLayout
  import opened GgmlRoundTrip

  lemma {:induction false} SmallBlocks(dtype: nat)
    requires QuantSize(dtype).Some?
    ensures QuantSize(dtype).value.block <= 256
  {
    assert QuantSize(dtype) == QuantRow(dtype);
  }

  lemma {:induction false} SizeRead(data: seq<Byte>, at: nat, padding: bool)
    requires ReadTensor(data, at, padding).Ok?
    ensures var t := ReadTensor(data, at, padding).value;
            QuantSize(t.dtype).Some? && t.length == SizeOf(t.dims, t.dtype) && t.start >= at + 12
  {
    TensorPlaced(data, at, padding);
  }

  /** The bytes of the elements of a tensor. */
  function ElementBytes(t: Info): nat
    requires QuantSize(t.dtype).Some?
  {
    Product(t.dims) * QuantSize(t.dtype).value.bytes
  }

  /** The size that the computed one should be. */
  function TrueSize(t: Info): nat
    requires QuantSize(t.dtype).Some?
  {
    NotNegative(ElementBytes(t), QuantSize(t.dtype).value.block);
    ElementBytes(t) / QuantSize(t.dtype).value.block
  }

  /** A tensor whose size is right leads back exactly when its end does not fit signed 64 bits. */
  lemma {:induction false} RightSizeGoesBack(data: seq<Byte>, at: nat, padding: bool)
    requires ReadTensor(data, at, padding).Ok?
    ensures var t := ReadTensor(data, at, padding).value;
            && QuantSize(t.dtype).Some?
            && (ElementBytes(t) < MODULUS / 2 ==> (EndsBackward(at, t) <==> t.start + TrueSize(t) >= MODULUS / 2))
  {
    var t := ReadTensor(data, at, padding).value;
    SizeRead(data, at, padding);
    RightSize(t.dims, t.dtype);
  }

  lemma {:induction false} RightSize(dims: seq<nat>, dtype: nat)
    requires QuantSize(dtype).Some?
    ensures var quant := QuantSize(dtype).value;
            SizeOf(dims, dtype) == Product(dims) * quant.bytes / quant.block <==> Product(dims) * quant.bytes < MODULUS / 2
  {
    var quant := QuantSize(dtype).value;
    SmallBlocks(dtype);
    ByteCountExact(dims, quant.block, quant.bytes);
  }

  /** Going back means that the bytes of some tensor on the way, or the place where they end, do not fit signed 64 bits. */
  lemma {:induction false} BackMeansWrapped(data: seq<Byte>, offset: nat, padding: bool, to: int)
    returns (infos: seq<Info>, at: nat, t: Info)
    requires ReadTensors(data, offset, padding) == WentBack(to)
    ensures GoesBack(data, offset, padding, infos, at, t, to) && QuantSize(t.dtype).Some?
    ensures ElementBytes(t) >= MODULUS / 2 || t.start + TrueSize(t) >= MODULUS / 2
  {
    infos, at, t := BackSteps(data, offset, padding, to);
    RightSizeGoesBack(data, at, padding);
  }

  lemma {:induction false} NotNegative(n: nat, d: nat)
    requires d > 0
    ensures n / d >= 0
  {
  }

  // ----- a file for which it does

  const HUGE: seq<nat> := [0x8000_0000, 0x4000_0000]

  /** The entry of a tensor without a name, of 2147483648 times 1073741824 numbers of four bytes. */
  function HugeEntry(): seq<Byte> {
    Les([2, 0, 0], 4) + Les(HUGE, 4)
  }

  lemma {:induction false} HugeProduct()
    ensures Product(HUGE) == 0x2000_0000_0000_0000
  {
    assert HUGE[..1] == [0x8000_0000] && HUGE[..1][..0] == [];
    assert Product(HUGE[..1]) == 0x8000_0000;
  }

  lemma {:induction false} HugeSize()
    ensures QuantSize(0) == Some(Quant(1, 4)) && SizeOf(HUGE, 0) == -0x8000_0000_0000_0000
  {
    assert QuantRow(0) == Some(Quant(1, 4));
    HugeProduct();
    assert Wrap64(0x2000_0000_0000_0000) == 0x2000_0000_0000_0000;
    assert Wrap64(0x8000_0000_0000_0000) == -0x8000_0000_0000_0000;
  }

  /** The numbers of an entry without a name. */
  lemma {:induction false} EntryParts(data: seq<Byte>, ns: seq<nat>, dims: seq<nat>)
    requires data == Les(ns, 4) + Les(dims, 4)
    requires (forall i :: 0 <= i < |ns| ==> ns[i] < U32_LIMIT) && forall i :: 0 <= i < |dims| ==> dims[i] < U32_LIMIT
    ensures |data| == 4 * |ns| + 4 * |dims|
    ensures ReadLes(data, 0, 4, |ns|) == Ok(ns) && ReadLes(data, 4 * |ns|, 4, |dims|) == Ok(dims)
  {
    HasAll(data);
    HasSplit(data, 0, data, Les(ns, 4), Les(dims, 4));
    ReadNumbersBack(data, 0, ns);
    ReadNumbersBack(data, 4 * |ns|, dims);
  }

  lemma {:induction false} HugeParts()
    ensures |HugeEntry()| == 20
    ensures ReadLes(HugeEntry(), 0, 4, 3) == Ok([2, 0, 0]) && ReadLes(HugeEntry(), 12, 4, 2) == Ok(HUGE)
  {
    EntryParts(HugeEntry(), [2, 0, 0], HUGE);
  }

  /** The size wraps to the lowest number, and leads back before the beginning of the file. */
  lemma {:induction false} HugeGoesBack()
    ensures ReadTensors(HugeEntry(), 0, false) == WentBack(20 - 0x8000_0000_0000_0000)
  {
    HugeTensor();
    HugeParts();
    WrapInside(20 - 0x8000_0000_0000_0000);
    NextTensor(HugeEntry(), 0, false);
  }

  /** The tensor of an entry without a name at the beginning of the data. */
  lemma {:induction false} Nameless(data: seq<Byte>, dims: seq<nat>, dtype: nat, start: nat, size: int)
    requires ReadPrefix(data, 0) == Ok((|dims|, 0, dtype)) && ReadLes(data, 12, 4, |dims|) == Ok(dims)
    requires start == 12 + 4 * |dims| && size == SizeOf(dims, dtype)
    ensures ReadTensor(data, 0, false) == Ok(Info([], dims, dtype, start, size))
  {
    TensorIs(data, 0, false, |dims|, 0, dtype, dims);
  }

  lemma {:induction false} HugeTensor()
    ensures ReadTensor(HugeEntry(), 0, false) == Ok(Info([], HUGE, 0, 20, -0x8000_0000_0000_0000))
  {
    HugeParts();
    HugeSize();
    HugePrefix();
    Nameless(HugeEntry(), HUGE, 0, 20, -0x8000_0000_0000_0000);
  }

  lemma {:induction false} HugePrefix()
    ensures ReadPrefix(HugeEntry(), 0) == Ok((2, 0, 0))
  {
    HugeParts();
    HugeSize();
  }

  // ----- a file for which it does although the size is right

  const LONG: seq<nat> := [153092023, 92737, 649657]

  /** The entry of a tensor without a name, of as many bytes as signed 64 bits can count. */
  function LongEntry(): seq<Byte> {
    Les([3, 0, 24], 4) + Les(LONG, 4)
  }

  lemma {:induction false} LongProduct()
    ensures Product(LONG) == 0x7fff_ffff_ffff_ffff
  {
    assert LONG[..2] == [153092023, 92737] && LONG[..2][..1] == [153092023] && LONG[..2][..1][..0] == [];
    assert Product(LONG[..2][..1]) == 153092023;
    assert Product(LONG[..2]) == 153092023 * 92737;
  }

  lemma {:induction false} LongSize()
    ensures QuantSize(24) == Some(Quant(1, 1)) && SizeOf(LONG, 24) == 0x7fff_ffff_ffff_ffff
  {
    assert QuantSize(24) == QuantRow(24);
    LongProduct();
    WrapInside(0x7fff_ffff_ffff_ffff);
  }

  lemma {:induction false} LongParts()
    ensures |LongEntry()| == 24
    ensures ReadLes(LongEntry(), 0, 4, 3) == Ok([3, 0, 24]) && ReadLes(LongEntry(), 12, 4, 3) == Ok(LONG)
  {
    EntryParts(LongEntry(), [3, 0, 24], LONG);
  }

  lemma {:induction false} LongTensor()
    ensures ReadTensor(LongEntry(), 0, false) == Ok(Info([], LONG, 24, 24, 0x7fff_ffff_ffff_ffff))
  {
    LongParts();
    LongSize();
    LongPrefix();
    Nameless(LongEntry(), LONG, 24, 24, 0x7fff_ffff_ffff_ffff);
  }

  lemma {:induction false} LongPrefix()
    ensures ReadPrefix(LongEntry(), 0) == Ok((3, 0, 24))
  {
    LongParts();
    LongSize();
  }

  /** The size is right; the offset behind the data wraps below zero. */
  lemma {:induction false} LongGoesBack()
    ensures ReadTensor(LongEntry(), 0, false).Ok? && ReadTensor(LongEntry(), 0, false).value.length == Product(LONG)
    ensures ReadTensors(LongEntry(), 0, false) == WentBack(23 - 0x8000_0000_0000_0000)
  {
    LongTensor();
    LongParts();
    LongProduct();
    WrapOver(24 + 0x7fff_ffff_ffff_ffff);
    NextTensor(LongEntry(), 0, false);
  }
}
