/** Where the tensors of a file are, if loading it gets to the end without going back. */
module GgmlLayout {
  import opened Results
  import opened Bytes
  import opened ByteReading
  import opened SignedWords
  import opened GgmlFile

  lemma {:induction false} NumbersBeforeData(data: seq<Byte>, at: nat)
    requires ReadPrefix(data, at).Ok?
    ensures ReadPrefix(data, at).value.0 <= 4 && ReadPrefix(data, at).value.1 < 4096
  {
  }

  /** The data of a tensor is not far from where the tensor begins, and its size is a number of 64 bits. */
  lemma {:induction false} DataIsNear(data: seq<Byte>, at: nat, padding: bool)
    requires ReadTensor(data, at, padding).Ok?
    ensures var t := ReadTensor(data, at, padding).value;
            at + 12 <= t.start < at + 4200 && -(MODULUS / 2) <= t.length < MODULUS / 2
  {
    var (nDims, nameLen, dtype) := ReadPrefix(data, at).value;
    var dims := ReadLes(data, at + 12, 4, nDims).value;
    NumbersBeforeData(data, at);
    TensorIs(data, at, padding, nDims, nameLen, dtype, dims);
    Multiple(at + 12 + 4 * nDims + nameLen);
    SizeInRange(dims, dtype);
  }

  lemma {:induction false} SizeInRange(dims: seq<nat>, dtype: nat)
    requires QuantSize(dtype).Some?
    ensures -(MODULUS / 2) <= SizeOf(dims, dtype) < MODULUS / 2
  {
    var quant := QuantSize(dtype).value;
    QuotientInRange(Wrap64(Wrap64(Product(dims)) * quant.bytes), quant.block, MODULUS / 2);
  }

  lemma {:induction false} QuotientInRange(n: int, d: int, m: int)
    requires d > 0 && -m <= n < m
    ensures -m <= n / d < m
  {
    QuotientBounds(n, d, n / d, n % d);
  }

  lemma {:induction false} QuotientBounds(n: int, d: int, q: int, r: int)
    requires d > 0 && n == d * q + r && 0 <= r < d
    ensures if n >= 0 then 0 <= q <= n else n <= q < 0
  {
    if q >= 0 {
      AtLeast(d, q);
    } else {
      AtLeast(d, -q - 1);
      assert d * (-q - 1) == -(d * q) - d;
    }
  }

  lemma {:induction false} AtLeast(d: int, x: int)
    requires d > 0 && x >= 0
    ensures d * x >= x
  {
  }

  /** In exact arithmetic the data ends no later than the tensor begins, or past what 64 bits can count. */
  predicate EndsBackward(at: nat, t: Info) {
    t.start + t.length <= at || t.start + t.length >= MODULUS / 2
  }

  /** The wrapped end lies ahead exactly when it is the end. */
  lemma {:induction false} EndAhead(data: seq<Byte>, at: nat, padding: bool)
    requires ReadTensor(data, at, padding).Ok?
    ensures var t := ReadTensor(data, at, padding).value;
            && (End(t) <= at <==> EndsBackward(at, t))
            && (End(t) > at ==> End(t) == t.start + t.length)
  {
    DataIsNear(data, at, padding);
    WrappedEnd(at, ReadTensor(data, at, padding).value);
  }

  lemma {:induction false} WrappedEnd(at: nat, t: Info)
    requires at + 12 <= t.start < at + 4200 && -(MODULUS / 2) <= t.length < MODULUS / 2
    ensures End(t) <= at <==> EndsBackward(at, t)
    ensures End(t) > at ==> End(t) == t.start + t.length
  {
    var e := t.start + t.length;
    if e < MODULUS / 2 {
      WrapInside(e);
    } else if at < MODULUS / 2 {
      WrapOver(e);
    }
  }

  /** Where tensor `i` begins: after the one before it. */
  function TensorAt(at: nat, infos: seq<Info>, i: nat): int
    requires i <= |infos|
  {
    if i == 0 then at else End(infos[i - 1])
  }

  lemma {:induction false} ReadTensorsFirst(data: seq<Byte>, at: nat, padding: bool)
    requires at < |data| && ReadTensors(data, at, padding).Done?
    ensures ReadTensor(data, at, padding).Ok?
    ensures var t := ReadTensor(data, at, padding).value;
            && End(t) > at && ReadTensors(data, End(t), padding).Done?
            && var rest := ReadTensors(data, End(t), padding).value;
               ReadTensors(data, at, padding).value == ([t] + rest.0, rest.1)
  {
  }

  lemma {:induction false} TensorAtNext(at: nat, t: Info, rest: seq<Info>, i: nat)
    requires i <= |rest| && End(t) >= 0
    ensures TensorAt(at, [t] + rest, i + 1) == TensorAt(End(t), rest, i)
  {
    if i > 0 {
      assert ([t] + rest)[i] == rest[i - 1];
    }
  }

  /** The last tensor ends where reading ended. */
  lemma {:induction false} TensorsEnd(data: seq<Byte>, at: nat, padding: bool)
    requires ReadTensors(data, at, padding).Done?
    ensures var r := ReadTensors(data, at, padding).value; TensorAt(at, r.0, |r.0|) == r.1
    decreases if at < |data| then |data| - at else 0
  {
    if at < |data| {
      ReadTensorsFirst(data, at, padding);
      var t := ReadTensor(data, at, padding).value;
      TensorsEnd(data, End(t), padding);
      TensorAtNext(at, t, ReadTensors(data, End(t), padding).value.0, |ReadTensors(data, End(t), padding).value.0|);
    }
  }

  lemma {:induction false} FirstTiles(data: seq<Byte>, at: nat, padding: bool)
    requires ReadTensors(data, at, padding).Done? && ReadTensors(data, at, padding).value.0 != []
    ensures var first := ReadTensors(data, at, padding).value.0[0];
            at < |data| && ReadTensor(data, at, padding) == Ok(first) && at < End(first) == first.start + first.length
  {
    ReadTensorsFirst(data, at, padding);
    EndAhead(data, at, padding);
  }

  /** Tensor `i` begins where the one before it ends, and is read from there. */
  predicate TilesAt(data: seq<Byte>, at: nat, padding: bool, infos: seq<Info>, i: nat)
    requires i < |infos|
  {
    && at <= TensorAt(at, infos, i) < |data|
    && ReadTensor(data, TensorAt(at, infos, i), padding) == Ok(infos[i])
    && TensorAt(at, infos, i) < End(infos[i]) == infos[i].start + infos[i].length
  }

  lemma {:induction false} LaterTiles(data: seq<Byte>, at: nat, padding: bool, t: Info, rest: seq<Info>, i: nat)
    requires i < |rest| && End(t) > at && TilesAt(data, End(t), padding, rest, i)
    ensures TilesAt(data, at, padding, [t] + rest, i + 1)
  {
    TensorAtNext(at, t, rest, i);
  }

  /** The tensors follow each other without gaps. */
  lemma {:induction false} TensorsTile(data: seq<Byte>, at: nat, padding: bool, i: nat)
    requires ReadTensors(data, at, padding).Done? && i < |ReadTensors(data, at, padding).value.0|
    ensures var infos := ReadTensors(data, at, padding).value.0;
            && at <= TensorAt(at, infos, i) < |data|
            && ReadTensor(data, TensorAt(at, infos, i), padding) == Ok(infos[i])
            && TensorAt(at, infos, i) < End(infos[i]) == infos[i].start + infos[i].length
    decreases if at < |data| then |data| - at else 0
  {
    if i == 0 {
      FirstTiles(data, at, padding);
    } else {
      ReadTensorsFirst(data, at, padding);
      var t := ReadTensor(data, at, padding).value;
      TensorsTile(data, End(t), padding, i - 1);
      LaterTiles(data, at, padding, t, ReadTensors(data, End(t), padding).value.0, i - 1);
    }
  }

  /** The data of a tensor comes after its prefix, dimensions and name, at the next multiple of 32 where there is padding. */
  lemma {:induction false} TensorPlaced(data: seq<Byte>, at: nat, padding: bool)
    requires ReadTensor(data, at, padding).Ok?
    ensures var t := ReadTensor(data, at, padding).value;
            && ReadPrefix(data, at).Ok?
            && var named := at + 12 + 4 * |t.dims| + ReadPrefix(data, at).value.1;
               && |t.name| <= ReadPrefix(data, at).value.1
               && (if padding then t.start % 32 == 0 && named <= t.start < named + 32 else t.start == named)
  {
    var (nDims, nameLen, dtype) := ReadPrefix(data, at).value;
    var nameAt := at + 12 + 4 * nDims;
    var dims := ReadLes(data, at + 12, 4, nDims).value;
    TensorIs(data, at, padding, nDims, nameLen, dtype, dims);
    Multiple(nameAt + nameLen);
  }

  lemma {:induction false} Multiple(x: nat)
    ensures x <= Padded(x) < x + 32 && Padded(x) % 32 == 0
  {
  }

  /** The data of a tensor ends before the data of every later one begins. */
  lemma {:induction false} DataIncreases(data: seq<Byte>, at: nat, padding: bool, i: nat, j: nat)
    requires ReadTensors(data, at, padding).Done? && i < j < |ReadTensors(data, at, padding).value.0|
    ensures var infos := ReadTensors(data, at, padding).value.0;
            infos[i].start + infos[i].length <= TensorAt(at, infos, j) && infos[i].start + infos[i].length + 12 <= infos[j].start
  {
    var infos := ReadTensors(data, at, padding).value.0;
    TensorsTile(data, at, padding, i);
    TensorsTile(data, at, padding, j);
    TensorPlaced(data, TensorAt(at, infos, j), padding);
    if i < j - 1 {
      DataIncreases(data, at, padding, i, j - 1);
      TensorsTile(data, at, padding, j - 1);
    }
  }

  // ----- sizes

  lemma {:induction false} Quotients(x: int, y: int, d: int)
    requires d > 0 && x + d <= y
    ensures x / d < y / d
  {
    var q, r := x / d, y / d;
    assert x == d * q + x % d && y == d * r + y % d;
    assert q >= r ==> d * q >= d * r;
  }

  /** The size of a tensor is right exactly when its elements' bytes fit signed 64 bits. */
  lemma {:induction false} ByteCountExact(dims: seq<nat>, block: nat, bytes: nat)
    requires 0 < block <= 256
    ensures ByteCount(dims, block, bytes) == Product(dims) * bytes / block <==> Product(dims) * bytes < MODULUS / 2
  {
    var n := Product(dims) * bytes;
    WrapProduct(Product(dims), bytes);
    WrapSmaller(n);
    if n >= MODULUS / 2 {
      Quotients(Wrap64(n), n, block);
    }
  }
}
