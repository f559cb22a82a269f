/** The re-layout of MXFP4 blocks from neighbouring nibbles to nibbles half a block apart. */
module NibbleLayout {
  import opened Results
  import opened Bytes
  import opened Bits
  import opened Shapes

  datatype RawBytes = ByteTensor(shape: seq<nat>, data: seq<Byte>)

  /** A tensor of unsigned bytes, row-major. */
  type ByteTensor = t: RawBytes | |t.data| == Size(t.shape) witness RawBytes.ByteTensor([0], [])

  // ----- bytes

  /** `& 0x0F`, `& 0xF0`, `<< 4` and `>> 4` on an unsigned byte. */
  datatype Op = KeepLow | KeepHigh | Left4 | Right4

  function Apply(op: Op, b: Byte): nat {
    match op
    case KeepLow => And(b, 0x0F)
    case KeepHigh => And(b, 0xF0)
    case Left4 => ShiftLeft(b, 4) % 256
    case Right4 => ShiftRight(b, 4)
  }

  /** The same on the two nibbles. */
  function Meant(op: Op, b: Byte): Byte {
    match op
    case KeepLow => b % 16
    case KeepHigh => b / 16 * 16
    case Left4 => b % 16 * 16
    case Right4 => b / 16
  }

  lemma {:induction false} ApplyIs(op: Op, b: Byte)
    ensures Apply(op, b) == Meant(op, b)
  {
    match op
    case KeepLow => AndLow(b);
    case KeepHigh => AndHigh(b);
    case Left4 => SmallPowers();
    case Right4 => Right4Is(b);
  }

  lemma {:induction false} OrIs(x: Byte, y: Byte)
    ensures x % 16 == 0 && y < 16 ==> Or(x, y) == x + y
    ensures y % 16 == 0 && x < 16 ==> Or(x, y) == x + y
    ensures Or(x, y) < 256
  {
    OrNibbles(x, y);
    OrNibbles(y, x);
    OrSwap(x, y);
    SmallPowers();
    OrBound(x, y, 8);
  }

  lemma {:induction false} AndEven(b: nat, m: nat)
    ensures And(b, 2 * m) == 2 * And(b / 2, m)
  {
    assert 2 * m / 2 == m && 2 * m % 2 == 0;
  }

  lemma {:induction false} AndOne(x: nat)
    ensures And(x, 1) == x % 2
  {
    AndOdd(x, 0);
    AndZero(x / 2);
  }

  lemma {:induction false} AndThree(x: nat)
    ensures And(x, 3) == x % 4
  {
    AndOdd(x, 1);
    AndOne(x / 2);
  }

  lemma {:induction false} AndMore(x: nat, m: nat)
    requires And(x / 2, m) == x / 2 % 4
    ensures And(x, 2 * m + 1) == x % 8
  {
    AndOdd(x, m);
  }

  lemma {:induction false} AndSeven(x: nat)
    ensures And(x, 7) == x % 8
  {
    AndThree(x / 2);
    AndMore(x, 3);
  }

  lemma {:induction false} AndLow(x: nat)
    ensures And(x, 15) == x % 16
  {
    AndOdd(x, 7);
    AndSeven(x / 2);
    LowNibble(x);
  }

  lemma {:induction false} LowNibble(x: nat)
    ensures x % 16 == 2 * (x / 2 % 8) + x % 2
  {
  }

  lemma {:induction false} AndFourfold(b: nat, m: nat)
    ensures And(b, 4 * m) == 4 * And(b / 4, m)
  {
    AndEven(b, 2 * m);
    AndEven(b / 2, m);
    assert b / 2 / 2 == b / 4;
  }

  lemma {:induction false} AndSixteenfold(x: nat)
    ensures And(x, 240) == 16 * And(x / 16, 15)
  {
    AndFourfold(x, 60);
    AndFourfold(x / 4, 15);
    assert x / 4 / 4 == x / 16;
  }

  lemma {:induction false} AndHigh(x: Byte)
    ensures And(x, 240) == x / 16 * 16
  {
    AndSixteenfold(x);
    AndLow(x / 16);
    HighNibble(x);
  }

  lemma {:induction false} HighNibble(x: Byte)
    ensures x / 16 % 16 == x / 16
  {
  }

  lemma {:induction false} Right4Is(x: nat)
    ensures ShiftRight(x, 4) == x / 16
  {
    assert ShiftRight(x, 4) == ShiftRight(x / 2, 3);
    assert ShiftRight(x / 2, 3) == ShiftRight(x / 2 / 2, 2);
    assert ShiftRight(x / 2 / 2, 2) == ShiftRight(x / 2 / 2 / 2, 1);
    assert ShiftRight(x / 2 / 2 / 2, 1) == ShiftRight(x / 2 / 2 / 2 / 2, 0);
  }

  lemma {:induction false} OrNibbles(x: Byte, y: Byte)
    ensures x % 16 == 0 && y < 16 ==> Or(x, y) == x + y
  {
    if x % 16 == 0 && y < 16 {
      SmallPowers();
      OrDisjoint(x / 16, y, 4);
    }
  }

  lemma {:induction false} OrSwap(x: nat, y: nat)
    ensures Or(x, y) == Or(y, x)
  {
    if x != 0 || y != 0 {
      OrSwap(x / 2, y / 2);
    }
  }

  lemma {:induction false} OrBound(x: nat, y: nat, k: nat)
    requires x < Pow2(k) && y < Pow2(k)
    ensures Or(x, y) < Pow2(k)
    decreases k
  {
    if k > 0 {
      OrBound(x / 2, y / 2, k - 1);
    }
  }

  // ----- the transformation, step by step

  /** An operation on every byte. */
  function All(op: Op, s: seq<Byte>): (r: seq<Byte>)
    ensures |r| == |s|
    decreases |s|, 1
  {
    if s == [] then [] else AllTo(op, s)
  }

  /** Apart from `All`, so that a proof about the last byte does not unfold to the ones before it. */
  function AllTo(op: Op, s: seq<Byte>): (r: seq<Byte>)
    requires s != []
    ensures |r| == |s|
    decreases |s|, 0
  {
    ApplyIs(op, s[|s| - 1]);
    All(op, s[..|s| - 1]) + [Apply(op, s[|s| - 1])]
  }

  function OrAll(x: seq<Byte>, y: seq<Byte>): (r: seq<Byte>)
    requires |x| == |y|
    ensures |r| == |x|
    decreases |x|, 1
  {
    if x == [] then [] else OrAllTo(x, y)
  }

  /** Apart from `OrAll`, for the same reason. */
  function OrAllTo(x: seq<Byte>, y: seq<Byte>): (r: seq<Byte>)
    requires |x| == |y| && x != []
    ensures |r| == |x|
    decreases |x|, 0
  {
    OrIs(x[|x| - 1], y[|y| - 1]);
    OrAll(x[..|x| - 1], y[..|y| - 1]) + [Or(x[|x| - 1], y[|y| - 1])]
  }

  /** Every byte with its nibbles exchanged. */
  function SwapNibbles(s: seq<Byte>): (r: seq<Byte>)
    ensures |r| == |s|
  {
    OrAll(All(Left4, All(KeepLow, s)), All(Right4, All(KeepHigh, s)))
  }

  /** The first or the second half of every block of 16 bytes. */
  function Chunk(s: seq<Byte>, half: nat): (r: seq<Byte>)
    requires |s| % 16 == 0 && half < 2
    ensures |r| == |s| / 2 && 2 * |r| == |s|
  {
    seq(|s| / 2, m requires 0 <= m < |s| / 2 =>
      ChunkIndex(|s|, half, m);
      s[16 * (m / 8) + 8 * half + m % 8])
  }

  lemma {:induction false} ChunkIndex(n: nat, half: nat, m: nat)
    requires n % 16 == 0 && half < 2 && m < n / 2
    ensures 16 * (m / 8) + 8 * half + m % 8 < n
  {
    assert m / 8 < n / 16;
  }

  /** Pairs stacked along a last axis and flattened. */
  function Interleave(x: seq<Byte>, y: seq<Byte>): (r: seq<Byte>)
    requires |x| == |y|
    ensures |r| == 2 * |x|
  {
    seq(2 * |x|, k requires 0 <= k < 2 * |x| => if k % 2 == 0 then x[k / 2] else y[k / 2])
  }

  /** The nibbles of the first halves, each in the high nibble of its own byte. */
  function FirstHalves(t: seq<Byte>): (r: seq<Byte>)
    requires |t| % 16 == 0
    ensures |r| == |t|
  {
    Interleave(All(KeepHigh, Chunk(t, 0)), All(Left4, Chunk(t, 0)))
  }

  /** The nibbles of the second halves, each in the low nibble of its own byte. */
  function SecondHalves(t: seq<Byte>): (r: seq<Byte>)
    requires |t| % 16 == 0
    ensures |r| == |t|
  {
    Interleave(All(Right4, Chunk(t, 1)), All(KeepLow, Chunk(t, 1)))
  }

  /** The last exchange: high to low, low to high. */
  function Exchanged(out: seq<Byte>): (r: seq<Byte>)
    ensures |r| == |out|
  {
    OrAll(All(Right4, All(KeepHigh, out)), All(Left4, All(KeepLow, out)))
  }

  function TransformData(s: seq<Byte>): (r: seq<Byte>)
    requires |s| % 16 == 0
    ensures |r| == |s|
  {
    var t := SwapNibbles(s);
    var out := OrAll(FirstHalves(t), SecondHalves(t));
    Exchanged(out)
  }

  /** `transform_nibble_layout`. */
  function TransformNibbleLayout(t: ByteTensor): Result<ByteTensor> {
    if t.shape == [] then Err("IndexError")
    else if t.shape[|t.shape| - 1] != 16 then Err("AssertionError")
    else
      Ok(RawBytes.ByteTensor(t.shape, TransformData(t.data)))
  }

  // ----- what it does to the nibbles

  /** Nibble `k` of block `n` of the source: two to a byte, the low one first. */
  function SourceNibble(s: seq<Byte>, n: nat, k: nat): nat
    requires 16 * n + 16 <= |s| && k < 32
  {
    var b := s[16 * n + k / 2];
    if k % 2 == 0 then b % 16 else b / 16
  }

  /** Nibble `k` of block `n` of the result: the low nibbles of all bytes, then the high ones. */
  function ResultNibble(s: seq<Byte>, n: nat, k: nat): nat
    requires 16 * n + 16 <= |s| && k < 32
  {
    var b := s[16 * n + k % 16];
    if k < 16 then b % 16 else b / 16
  }

  lemma {:induction false} AllAt(op: Op, s: seq<Byte>, i: nat)
    requires i < |s|
    ensures All(op, s)[i] == Meant(op, s[i])
  {
    if i < |s| - 1 {
      AllAt(op, s[..|s| - 1], i);
    } else {
      ApplyIs(op, s[i]);
    }
  }

  lemma {:induction false} OrAt(x: seq<Byte>, y: seq<Byte>, i: nat)
    requires |x| == |y| && i < |x|
    requires (x[i] % 16 == 0 && y[i] < 16) || (y[i] % 16 == 0 && x[i] < 16)
    ensures OrAll(x, y)[i] == x[i] + y[i]
  {
    if i < |x| - 1 {
      OrAt(x[..|x| - 1], y[..|y| - 1], i);
    } else {
      OrIs(x[i], y[i]);
    }
  }

  lemma {:induction false} ByteParts(b: Byte)
    ensures b % 16 % 16 * 16 == b % 16 * 16 && b / 16 * 16 / 16 == b / 16 < 16 && b % 16 * 16 % 16 == 0
  {
  }

  lemma {:induction false} SwappedAt(s: seq<Byte>, i: nat)
    requires i < |s|
    ensures SwapNibbles(s)[i] == s[i] % 16 * 16 + s[i] / 16
  {
    var lo, hi := All(KeepLow, s), All(KeepHigh, s);
    ByteParts(s[i]);
    AllAt(KeepLow, s, i);
    AllAt(KeepHigh, s, i);
    AllAt(Left4, lo, i);
    AllAt(Right4, hi, i);
    OrAt(All(Left4, lo), All(Right4, hi), i);
  }

  lemma {:induction false} ChunkAt(s: seq<Byte>, half: nat, n: nat, i: nat)
    requires |s| % 16 == 0 && half < 2 && 16 * n + 16 <= |s| && i < 8
    ensures 8 * n + i < |s| / 2 && Chunk(s, half)[8 * n + i] == s[16 * n + 8 * half + i]
  {
    assert (8 * n + i) / 8 == n && (8 * n + i) % 8 == i;
  }

  lemma {:induction false} InterleavedAt(x: seq<Byte>, y: seq<Byte>, m: nat)
    requires |x| == |y| && m < |x|
    ensures Interleave(x, y)[2 * m] == x[m] && Interleave(x, y)[2 * m + 1] == y[m]
  {
    assert 2 * m / 2 == m && (2 * m + 1) / 2 == m;
  }

  /** Two bytes in a row of the interleaved halves. */
  lemma {:induction false} PairAt(x: seq<Byte>, y: seq<Byte>, n: nat, i: nat)
    requires |x| == |y| && 8 * n + i < |x|
    ensures Interleave(x, y)[16 * n + 2 * i] == x[8 * n + i] && Interleave(x, y)[16 * n + 2 * i + 1] == y[8 * n + i]
  {
    InterleavedAt(x, y, 8 * n + i);
  }

  /** Nibbles `2 * i` and `2 * i + 1` of the first half of a block, each alone in a high nibble. */
  lemma {:induction false} FirstHalfAt(s: seq<Byte>, n: nat, i: nat)
    requires |s| % 16 == 0 && 16 * n + 16 <= |s| && i < 8
    ensures var t, k := SwapNibbles(s), 16 * n + 2 * i;
            FirstHalves(t)[k] == s[16 * n + i] % 16 * 16 && FirstHalves(t)[k + 1] == s[16 * n + i] / 16 * 16
  {
    var c := Chunk(SwapNibbles(s), 0);
    ChunkAt(SwapNibbles(s), 0, n, i);
    SwappedAt(s, 16 * n + i);
    AllAt(KeepHigh, c, 8 * n + i);
    AllAt(Left4, c, 8 * n + i);
    PairAt(All(KeepHigh, c), All(Left4, c), n, i);
    Nibbles(s[16 * n + i] % 16, s[16 * n + i] / 16);
  }

  /** The nibbles of the second half, each alone in a low nibble. */
  lemma {:induction false} SecondHalfAt(s: seq<Byte>, n: nat, i: nat)
    requires |s| % 16 == 0 && 16 * n + 16 <= |s| && i < 8
    ensures var t, k := SwapNibbles(s), 16 * n + 2 * i;
            SecondHalves(t)[k] == s[16 * n + 8 + i] % 16 && SecondHalves(t)[k + 1] == s[16 * n + 8 + i] / 16
  {
    var c := Chunk(SwapNibbles(s), 1);
    ChunkAt(SwapNibbles(s), 1, n, i);
    SwappedAt(s, 16 * n + 8 + i);
    AllAt(Right4, c, 8 * n + i);
    AllAt(KeepLow, c, 8 * n + i);
    PairAt(All(Right4, c), All(KeepLow, c), n, i);
    Nibbles(s[16 * n + 8 + i] % 16, s[16 * n + 8 + i] / 16);
  }

  lemma {:induction false} Nibbles(h: nat, l: nat)
    requires h < 16 && l < 16
    ensures (h * 16 + l) / 16 == h && (h * 16 + l) % 16 == l
    ensures h * 16 / 16 == h && l % 16 == l && l * 16 % 16 == 0
  {
  }

  lemma {:induction false} ExchangedAt(out: seq<Byte>, k: nat, h: nat, l: nat)
    requires k < |out| && h < 16 && l < 16 && out[k] == h * 16 + l
    ensures Exchanged(out)[k] == h + 16 * l
  {
    var hi, lo := All(KeepHigh, out), All(KeepLow, out);
    Nibbles(h, l);
    AllAt(KeepHigh, out, k);
    AllAt(KeepLow, out, k);
    AllAt(Right4, hi, k);
    AllAt(Left4, lo, k);
    OrAt(All(Right4, hi), All(Left4, lo), k);
  }

  lemma {:induction false} JoinedAt(s: seq<Byte>, k: nat, h: nat, l: nat)
    requires |s| % 16 == 0 && k < |s| && h < 16 && l < 16
    requires FirstHalves(SwapNibbles(s))[k] == h * 16 && SecondHalves(SwapNibbles(s))[k] == l
    ensures TransformData(s)[k] == h + 16 * l
  {
    var t := SwapNibbles(s);
    OrAt(FirstHalves(t), SecondHalves(t), k);
    ExchangedAt(OrAll(FirstHalves(t), SecondHalves(t)), k, h, l);
  }

  /** Byte `j` of a block of the result holds nibble `j` of the source low and nibble `j + 16` high. */
  lemma {:induction false} TransformedAt(s: seq<Byte>, n: nat, j: nat)
    requires |s| % 16 == 0 && 16 * n + 16 <= |s| && j < 16
    ensures TransformData(s)[16 * n + j] == SourceNibble(s, n, j) + 16 * SourceNibble(s, n, 16 + j)
  {
    var i := j / 2;
    FirstHalfAt(s, n, i);
    SecondHalfAt(s, n, i);
    assert (16 + j) / 2 == 8 + i && (16 + j) % 2 == j % 2;
    JoinedAt(s, 16 * n + j, SourceNibble(s, n, j), SourceNibble(s, n, 16 + j));
  }

  lemma {:induction false} NibblesMoved(s: seq<Byte>, n: nat, k: nat)
    requires |s| % 16 == 0 && 16 * n + 16 <= |s| && k < 32
    ensures ResultNibble(TransformData(s), n, k) == SourceNibble(s, n, k)
  {
    TransformedAt(s, n, k % 16);
  }

  // ----- the way back

  /** The source whose nibbles are those of the result. */
  function Restored(r: seq<Byte>): (s: seq<Byte>)
    requires |r| % 16 == 0
    ensures |s| == |r|
  {
    seq(|r|, i requires 0 <= i < |r| => RestoredByte(r, i / 16, i % 16))
  }

  function RestoredByte(r: seq<Byte>, n: nat, i: nat): Byte
    requires 16 * n + 16 <= |r| && i < 16
  {
    ResultNibble(r, n, 2 * i) + 16 * ResultNibble(r, n, 2 * i + 1)
  }

  lemma {:induction false} RestoredAt(r: seq<Byte>, n: nat, i: nat)
    requires |r| % 16 == 0 && 16 * n + 16 <= |r| && i < 16
    ensures Restored(r)[16 * n + i] == ResultNibble(r, n, 2 * i) + 16 * ResultNibble(r, n, 2 * i + 1)
  {
    assert (16 * n + i) / 16 == n && (16 * n + i) % 16 == i;
  }

  lemma {:induction false} NibbleBound(s: seq<Byte>, n: nat, k: nat)
    requires 16 * n + 16 <= |s| && k < 32
    ensures SourceNibble(s, n, k) < 16 && ResultNibble(s, n, k) < 16
  {
  }

  lemma {:induction false} NibblesOfByte(s: seq<Byte>, n: nat, k: nat, lo: nat, hi: nat)
    requires 16 * n + 16 <= |s| && k < 32 && lo < 16 && hi < 16 && s[16 * n + k / 2] == lo + 16 * hi
    ensures SourceNibble(s, n, k) == if k % 2 == 0 then lo else hi
  {
  }

  lemma {:induction false} RestoredNibble(r: seq<Byte>, n: nat, k: nat)
    requires |r| % 16 == 0 && 16 * n + 16 <= |r| && k < 32
    ensures SourceNibble(Restored(r), n, k) == ResultNibble(r, n, k)
  {
    var i := k / 2;
    RestoredAt(r, n, i);
    NibbleBound(r, n, 2 * i);
    NibbleBound(r, n, 2 * i + 1);
    NibblesOfByte(Restored(r), n, k, ResultNibble(r, n, 2 * i), ResultNibble(r, n, 2 * i + 1));
    assert k == 2 * i + k % 2;
  }

  lemma {:induction false} ByteOfNibbles(s: seq<Byte>, n: nat, i: nat)
    requires 16 * n + 16 <= |s| && i < 16
    ensures SourceNibble(s, n, 2 * i) + 16 * SourceNibble(s, n, 2 * i + 1) == s[16 * n + i]
    ensures ResultNibble(s, n, i) + 16 * ResultNibble(s, n, 16 + i) == s[16 * n + i]
  {
    assert 2 * i / 2 == i && (2 * i + 1) / 2 == i && (16 + i) % 16 == i;
  }

  lemma {:induction false} RestoredTransformed(s: seq<Byte>, n: nat, i: nat)
    requires |s| % 16 == 0 && 16 * n + 16 <= |s| && i < 16
    ensures Restored(TransformData(s))[16 * n + i] == s[16 * n + i]
  {
    RestoredAt(TransformData(s), n, i);
    NibblesMoved(s, n, 2 * i);
    NibblesMoved(s, n, 2 * i + 1);
    ByteOfNibbles(s, n, i);
  }

  lemma {:induction false} TransformedRestored(r: seq<Byte>, n: nat, j: nat)
    requires |r| % 16 == 0 && 16 * n + 16 <= |r| && j < 16
    ensures TransformData(Restored(r))[16 * n + j] == r[16 * n + j]
  {
    TransformedAt(Restored(r), n, j);
    RestoredNibble(r, n, j);
    RestoredNibble(r, n, 16 + j);
    ByteOfNibbles(r, n, j);
  }

  /** The transformation is a bijection on blocks: undoing it gives back the source, and every result comes from a source. */
  lemma {:induction false} TransformationInverse(s: seq<Byte>)
    requires |s| % 16 == 0
    ensures Restored(TransformData(s)) == s
    ensures TransformData(Restored(s)) == s
  {
    forall k | 0 <= k < |s| ensures Restored(TransformData(s))[k] == s[k] && TransformData(Restored(s))[k] == s[k] {
      assert k == 16 * (k / 16) + k % 16;
      RestoredTransformed(s, k / 16, k % 16);
      TransformedRestored(s, k / 16, k % 16);
    }
  }

  // ----- on tensors

  function ByteAt(t: ByteTensor, c: seq<nat>): Byte
    requires InBounds(t.shape, c)
  {
    t.data[Offset(t.shape, c)]
  }

  /** Nibble `k` of the block at `c`: two to a byte, the low one first. */
  function NibbleAt(t: ByteTensor, c: seq<nat>, k: nat): nat
    requires k < 32 && InBounds(t.shape, c + [k / 2])
  {
    if k % 2 == 0 then ByteAt(t, c + [k / 2]) % 16 else ByteAt(t, c + [k / 2]) / 16
  }

  lemma {:induction false} BlockAt(t: ByteTensor, s: seq<nat>, c: seq<nat>, i: nat)
    requires t.shape == s + [16] && InBounds(s, c) && i < 16
    ensures |t.data| % 16 == 0 && 16 * Offset(s, c) + 16 <= |t.data|
    ensures InBounds(t.shape, c + [i]) && ByteAt(t, c + [i]) == t.data[16 * Offset(s, c) + i]
  {
    SizeSnoc(s, 16);
    assert Offset(s, c) + 1 <= Size(s);
    OffsetSnoc(s, c, 16, i);
  }

  /** A tensor of blocks is accepted, whatever the leading axes, and element `c + [j]` of the result holds nibble `j` of block `c`
      low and nibble `j + 16` high. */
  lemma {:induction false} TensorTransformed(t: ByteTensor, s: seq<nat>, c: seq<nat>, j: nat)
    requires t.shape == s + [16] && InBounds(s, c) && j < 16
    ensures TransformNibbleLayout(t).Ok? && TransformNibbleLayout(t).value.shape == t.shape
    ensures InBounds(t.shape, c + [j]) && InBounds(t.shape, c + [j / 2]) && InBounds(t.shape, c + [(16 + j) / 2])
    ensures ByteAt(TransformNibbleLayout(t).value, c + [j]) == NibbleAt(t, c, j) + 16 * NibbleAt(t, c, 16 + j)
  {
    BlockAt(t, s, c, j / 2);
    BlockAt(t, s, c, (16 + j) / 2);
    BlockAt(TransformNibbleLayout(t).value, s, c, j);
    TransformedAt(t.data, Offset(s, c), j);
  }

  /** The tensor that becomes `u`. */
  function RestoredTensor(u: ByteTensor): (t: ByteTensor)
    requires |u.data| % 16 == 0
    ensures t.shape == u.shape
  {
    RawBytes.ByteTensor(u.shape, Restored(u.data))
  }

  /** The transformation is a bijection on the tensors whose last axis is 16, and refuses all others. */
  lemma {:induction false} TensorInverse(t: ByteTensor)
    ensures TransformNibbleLayout(t).Ok? <==> t.shape != [] && t.shape[|t.shape| - 1] == 16
    ensures TransformNibbleLayout(t).Ok? ==>
              && |t.data| % 16 == 0
              && RestoredTensor(TransformNibbleLayout(t).value) == t
              && TransformNibbleLayout(RestoredTensor(t)) == Ok(t)
  {
    if TransformNibbleLayout(t).Ok? {
      TransformationInverse(t.data);
    }
  }
}
