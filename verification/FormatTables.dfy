/** The constants of the two file formats, written as their definitions have them. */
module FormatTables {
  import opened Results
  import opened Bytes
  import opened ByteReading
  import opened GgmlFile
  import GgufScan

  // ----- numbers

  /** Byte `i` of a number is its digit to the base of 256, the lowest first. */
  lemma {:induction false} LittleEndian(n: nat, k: nat)
    ensures k > 0 ==> Le(n, k) == [n % 256] + Le(n / 256, k - 1)
    ensures Le(n, 1) == [n % 256]
  {
    if k > 0 {
      assert Le(n, k) == LowByteFirst(n, k);
    }
    assert Le(n, 1) == LowByteFirst(n, 1);
    assert Le(n / 256, 0) == [];
  }

  /** What is read is the sum of the bytes, each times its power of 256. */
  lemma {:induction false} ReadsLittleEndian(data: seq<Byte>, at: nat)
    ensures ReadLe(data, at, 4).Ok? <==> at + 4 <= |data|
    ensures at + 4 <= |data| ==>
              ReadLe(data, at, 4).value ==
              data[at] as int + 0x100 * (data[at + 1] as int) + 0x1_0000 * (data[at + 2] as int) + 0x100_0000 * (data[at + 3] as int)
  {
    if at + 4 <= |data| {
      assert LeAt(data, at + 4, 0) == 0;
      assert LeAt(data, at + 3, 1) == LowestFirst(data, at + 3, 1);
      assert LeAt(data, at + 2, 2) == LowestFirst(data, at + 2, 2);
      assert LeAt(data, at + 1, 3) == LowestFirst(data, at + 1, 3);
      assert LeAt(data, at, 4) == LowestFirst(data, at, 4);
    }
  }

  // ----- GGML, GGMF and GGJT

  /** The magic numbers are the names of the formats, backwards. */
  lemma {:induction false} Magics()
    ensures MAGIC_GGUF == Ascii("GGUF") == GgufScan.MAGIC
    ensures MAGIC_GGML == Ascii("lmgg") && MAGIC_GGMF == Ascii("fmgg") && MAGIC_GGJT == Ascii("tjgg")
  {
  }

  lemma {:induction false} FeedForwardName()
    ensures FEED_FORWARD == Ascii("layers.0.feed_forward.w1.weight")
  {
  }

  /** Which headers are accepted: GGML has no version, GGMF only the first, GGJT the first three. */
  lemma {:induction false} Headers(data: seq<Byte>, at: nat, version: nat)
    requires at + 8 <= |data| && ReadLe(data, at + 4, 4) == Ok(version)
    ensures data[at..at + 4] == Ascii("GGUF") ==> ReadHeader(data, at).Err?
    ensures data[at..at + 4] == Ascii("lmgg") ==> ReadHeader(data, at) == Ok((Header(GGML, 1), 4))
    ensures data[at..at + 4] == Ascii("fmgg") ==>
              if version == 1 then ReadHeader(data, at) == Ok((Header(GGMF, 1), 8)) else ReadHeader(data, at).Err?
    ensures data[at..at + 4] == Ascii("tjgg") ==>
              if version in {1, 2, 3} then ReadHeader(data, at) == Ok((Header(GGJT, version), 8)) else ReadHeader(data, at).Err?
    ensures data[at..at + 4] !in {Ascii("lmgg"), Ascii("fmgg"), Ascii("tjgg")} ==> ReadHeader(data, at).Err?
  {
    Magics();
    HasIs(data, at, MAGIC_GGUF);
    HasIs(data, at, MAGIC_GGML);
    HasIs(data, at, MAGIC_GGMF);
    HasIs(data, at, MAGIC_GGJT);
    assert Ascii("GGUF")[0] == 71 && Ascii("lmgg")[0] == 108 && Ascii("fmgg")[0] == 102 && Ascii("tjgg")[0] == 116;
  }

  /** The types of files: floats, the first quantisations, and those from Q8_0 to Q6_K. */
  lemma {:induction false} FileTypes(n: nat)
    ensures IsFtype(n) <==> n in {0, 1, 2, 3, 4, 7, 8, 9, 10, 11, 12, 13, 14, 15, 16, 17, 18}
  {
  }

  /** Unquantised files can be converted from any version, quantised ones from the third of GGJT, or the second if the format of their
      type has not changed since, which it has for Q4_0, Q4_1, Q4_1 with F16, and Q8_0. */
  lemma {:induction false} Conversions(h: Header, ftype: nat)
    requires ftype in {0, 1, 2, 3, 4, 7, 8, 9, 10, 11, 12, 13, 14, 15, 16, 17, 18}
    requires h.format == GGJT ==> h.version in {1, 2, 3}
    ensures Convertible(h, ftype) <==>
            || ftype == 0 || ftype == 1
            || (h.format == GGJT && h.version == 3)
            || (h.format == GGJT && h.version == 2 && ftype in {8, 9, 10, 11, 12, 13, 14, 15, 16, 17, 18})
  {
  }

  /** The hyperparameters, each a number of four bytes, in this order. */
  lemma {:induction false} HyperFields(data: seq<Byte>, at: nat, h: Hyper)
    requires ReadHyper(data, at) == Ok(h)
    ensures Ok(h.nVocab) == ReadLe(data, at, 4) && Ok(h.nEmbd) == ReadLe(data, at + 4, 4) && Ok(h.nMult) == ReadLe(data, at + 8, 4)
    ensures Ok(h.nHead) == ReadLe(data, at + 12, 4) && Ok(h.nLayer) == ReadLe(data, at + 16, 4)
    ensures Ok(h.nRot) == ReadLe(data, at + 20, 4) && Ok(h.ftype) == ReadLe(data, at + 24, 4)
  {
    var ns := ReadLes(data, at, 4, 7).value;
    forall i | 0 <= i < 7 ensures Ok(ns[i]) == ReadLe(data, at + i * 4, 4) {
      EachRead(data, at, 4, 7, i);
    }
    assert Ok(ns[0]) == ReadLe(data, at + 0 * 4, 4);
  }

  lemma {:induction false} EachRead(data: seq<Byte>, at: nat, k: nat, n: nat, i: nat)
    requires ReadLes(data, at, k, n).Ok? && i < n
    ensures Ok(ReadLes(data, at, k, n).value[i]) == ReadLe(data, at + i * k, k)
    decreases n
  {
    if i < n - 1 {
      EachRead(data, at, k, n - 1, i);
    }
  }

  /** Names of tokens and tensors of 4096 bytes or more, and more than four dimensions, are refused. */
  lemma {:induction false} Limits(data: seq<Byte>, at: nat, scores: bool)
    ensures ReadLe(data, at, 4).Ok? && ReadLe(data, at, 4).value >= 0x1000 ==> ReadItem(data, at, scores).Err?
    ensures ReadItem(data, at, scores).Err? ==>
              ReadLe(data, at, 4).Err? || ReadLe(data, at, 4).value > 0xfff || (scores && at + 8 + ReadLe(data, at, 4).value > |data|)
    ensures ReadPrefix(data, at).Ok? <==>
            var ns := ReadLes(data, at, 4, 3);
            ns.Ok? && ns.value[0] in {0, 1, 2, 3, 4} && ns.value[1] <= 0xfff && QuantSize(ns.value[2]).Some?
  {
  }

  // ----- sizes of blocks

  const QK_K := 256

  /** Elements and bytes of the blocks of plain numbers and of the first quantisations. */
  lemma {:induction false} PlainBlocks()
    ensures QuantRow(0) == Some(Quant(1, 4)) && QuantRow(1) == Some(Quant(1, 2))
    ensures QuantRow(2) == Some(Quant(32, 2 + 16)) && QuantRow(3) == Some(Quant(32, 2 + 2 + 16))
    ensures QuantRow(6) == Some(Quant(32, 2 + 4 + 16)) && QuantRow(7) == Some(Quant(32, 2 + 2 + 4 + 16))
    ensures QuantRow(8) == Some(Quant(32, 2 + 32)) && QuantRow(9) == Some(Quant(32, 4 + 4 + 32))
    ensures QuantRow(24) == Some(Quant(1, 1)) && QuantRow(25) == Some(Quant(1, 2)) && QuantRow(26) == Some(Quant(1, 4))
    ensures QuantRow(27) == Some(Quant(1, 8)) && QuantRow(28) == Some(Quant(1, 8)) && QuantRow(30) == Some(Quant(1, 2))
    ensures QuantRow(39) == Some(Quant(32, 1 + 16))
  {
    assert QuantSize(0) == QuantRow(0) && QuantSize(1) == QuantRow(1) && QuantSize(27) == QuantRow(27);
  }

  /** Of the K quantisations. */
  lemma {:induction false} KBlocks()
    ensures QuantRow(10) == Some(Quant(QK_K, 2 + 2 + QK_K / 16 + QK_K / 4))
    ensures QuantRow(11) == Some(Quant(QK_K, 2 + QK_K / 4 + QK_K / 8 + 12))
    ensures QuantRow(12) == Some(Quant(QK_K, 2 + 2 + QK_K / 2 + 12))
    ensures QuantRow(13) == Some(Quant(QK_K, 2 + 2 + QK_K / 2 + QK_K / 8 + 12))
    ensures QuantRow(14) == Some(Quant(QK_K, 2 + QK_K / 2 + QK_K / 4 + QK_K / 16))
    ensures QuantRow(15) == Some(Quant(QK_K, 4 + QK_K + QK_K / 8))
    ensures QuantRow(34) == Some(Quant(QK_K, 2 + 4 * 13)) && QuantRow(35) == Some(Quant(QK_K, 2 + 64))
  {
    assert QuantSize(16) == QuantRow(16);
  }

  /** Of the I quantisations. */
  lemma {:induction false} IBlocks()
    ensures QuantRow(16) == Some(Quant(QK_K, 2 + QK_K / 4))
    ensures QuantRow(17) == Some(Quant(QK_K, 2 + QK_K / 4 + QK_K / 32))
    ensures QuantRow(18) == Some(Quant(QK_K, 2 + QK_K / 4 + QK_K / 8))
    ensures QuantRow(19) == Some(Quant(QK_K, 2 + QK_K / 8 + QK_K / 16))
    ensures QuantRow(20) == Some(Quant(32, 2 + 16))
    ensures QuantRow(21) == Some(Quant(QK_K, 2 + QK_K / 4 + QK_K / 8 + QK_K / 32 + 4))
    ensures QuantRow(22) == Some(Quant(QK_K, 2 + QK_K / 4 + QK_K / 16))
    ensures QuantRow(23) == Some(Quant(QK_K, 2 + 2 + QK_K / 2 + QK_K / 64))
    ensures QuantRow(29) == Some(Quant(QK_K, QK_K / 8 + QK_K / 16 + QK_K / 32))
  {
    assert QuantSize(2) == QuantRow(2) && QuantSize(11) == QuantRow(11);
  }

  /** No other type is known. */
  lemma {:induction false} OtherBlocks(dtype: nat)
    ensures QuantSize(dtype) == QuantRow(dtype)
    ensures QuantSize(dtype).None? <==> dtype in {4, 5, 31, 32, 33, 36, 37, 38} || dtype > 39
  {
  }

  // ----- GGUF

  /** The sizes of the scalar types, by their numbers; strings and arrays have none. */
  lemma {:induction false} Scalars(vtype: nat)
    ensures GgufScan.ScalarSize(vtype) ==
            match vtype
            case 0 => Some(1)
            case 1 => Some(1)
            case 2 => Some(2)
            case 3 => Some(2)
            case 4 => Some(4)
            case 5 => Some(4)
            case 6 => Some(4)
            case 7 => Some(1)
            case 10 => Some(8)
            case 11 => Some(8)
            case 12 => Some(8)
            case _ => None
    ensures GgufScan.STR_TYPE == 8 && GgufScan.ARR_TYPE == 9
  {
  }

  /** The header is accepted exactly if it is complete, begins with the magic and has any version but zero; it holds the number of
      tensors before that of pairs. */
  lemma {:induction false} GgufHeader(data: seq<Byte>)
    ensures GgufScan.ReadCounts(data).Ok? <==> |data| >= 24 && data[..4] == Ascii("GGUF") && ReadLe(data, 4, 4) != Ok(0)
    ensures GgufScan.ReadCounts(data).Ok? ==>
              && ReadLe(data, 8, 8) == Ok(GgufScan.ReadCounts(data).value.0)
              && ReadLe(data, 16, 8) == Ok(GgufScan.ReadCounts(data).value.1)
              && GgufScan.ReadCounts(data).value.2 == 24
  {
    Magics();
    HasIs(data, 0, GgufScan.MAGIC);
    if |data| >= 4 {
      assert data[0..0 + 4] == data[..4];
    }
    EnoughBytes(data, 4, 4);
    EnoughBytes(data, 8, 8);
    EnoughBytes(data, 16, 8);
  }

  lemma {:induction false} EnoughBytes(data: seq<Byte>, at: nat, k: nat)
    ensures ReadLe(data, at, k).Ok? <==> at + k <= |data|
  {
  }
}
