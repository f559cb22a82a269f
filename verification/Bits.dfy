/** Byte strings and base64 digit values as bit strings, most significant bit first. */
module Bits {
  import opened Bytes
  import opened Sequences

  function Pow2(k: nat): (p: nat)
    ensures p > 0
  {
    if k == 0 then 1 else 2 * Pow2(k - 1)
  }

  lemma {:induction false} SmallPowers()
    ensures Pow2(2) == 4 && Pow2(4) == 16 && Pow2(6) == 64 && Pow2(8) == 256
  {
    assert Pow2(4) == 4 * Pow2(2) && Pow2(6) == 4 * Pow2(4) && Pow2(8) == 4 * Pow2(6);
  }

  // ----- the bitwise operators

  function ShiftLeft(x: nat, k: nat): nat {
    x * Pow2(k)
  }

  function ShiftRight(x: nat, k: nat): nat
    decreases k, x
  {
    if k == 0 then x else ShiftRight(x / 2, k - 1)
  }

  function Or(x: nat, y: nat): nat {
    if x == 0 && y == 0 then 0
    else 2 * Or(x / 2, y / 2) + (if x % 2 == 1 || y % 2 == 1 then 1 else 0)
  }

  function And(x: nat, y: nat): nat {
    if x == 0 && y == 0 then 0
    else 2 * And(x / 2, y / 2) + (if x % 2 == 1 && y % 2 == 1 then 1 else 0)
  }

  /** Doubling an exponent step takes apart as halving. */
  lemma {:induction false} HalfShift(x: nat, y: nat, k: nat)
    requires k > 0
    ensures x * Pow2(k) == 2 * (x * Pow2(k - 1))
    ensures (x * Pow2(k) + y) / 2 == x * Pow2(k - 1) + y / 2
    ensures (x * Pow2(k) + y) % 2 == y % 2
  {
    assert x * Pow2(k) == 2 * (x * Pow2(k - 1));
  }

  /** Numbers without common bits: `|` is addition. */
  lemma {:induction false} OrDisjoint(x: nat, y: nat, k: nat)
    requires y < Pow2(k)
    ensures Or(ShiftLeft(x, k), y) == ShiftLeft(x, k) + y
    decreases k, x
  {
    if k == 0 {
      OrZero(x);
    } else {
      HalfShift(x, 0, k);
      HalfShift(x, y, k);
      OrDisjoint(x, y / 2, k - 1);
    }
  }

  lemma {:induction false} OrZero(x: nat)
    ensures Or(x, 0) == x
  {
    if x > 0 {
      OrZero(x / 2);
    }
  }

  // ----- bits of one number

  /** The last `k` bits of a number. */
  function Low(b: nat, k: nat): (r: seq<bool>)
    ensures |r| == k
    decreases k, b
  {
    if k == 0 then [] else Low(b / 2, k - 1) + [b % 2 == 1]
  }

  /** The number a bit string spells. */
  function FromBits(r: seq<bool>): (b: nat)
    ensures b < Pow2(|r|)
  {
    if r == [] then 0 else 2 * FromBits(r[..|r| - 1]) + (if r[|r| - 1] then 1 else 0)
  }

  lemma {:induction false} FromBitsOfLow(b: nat, k: nat)
    requires b < Pow2(k)
    ensures FromBits(Low(b, k)) == b
    decreases k
  {
    if k > 0 {
      FromBitsOfLow(b / 2, k - 1);
      assert Low(b, k)[..k - 1] == Low(b / 2, k - 1);
    }
  }

  lemma {:induction false} LowOfFromBits(r: seq<bool>)
    ensures Low(FromBits(r), |r|) == r
  {
    if r != [] {
      var n := |r| - 1;
      LowOfFromBits(r[..n]);
      assert r == r[..n] + [r[n]];
    }
  }

  /** The last bits do not depend on what is in front of them. */
  lemma {:induction false} LowJoin(x: nat, y: nat, j: nat, k: nat)
    requires y < Pow2(k)
    ensures Low(x * Pow2(k) + y, j + k) == Low(x, j) + Low(y, k)
    decreases k
  {
    if k > 0 {
      HalfShift(x, y, k);
      LowJoin(x, y / 2, j, k - 1);
      Associate(Low(x, j), Low(y / 2, k - 1), [y % 2 == 1]);
    }
  }

  /** The last `j + k` bits are `j` bits of the shifted number and the last `k` bits. */
  lemma {:induction false} LowSplit(b: nat, j: nat, k: nat)
    ensures Low(b, j + k) == Low(ShiftRight(b, k), j) + Low(b, k)
    decreases k
  {
    if k > 0 {
      LowSplit(b / 2, j, k - 1);
      Associate(Low(ShiftRight(b, k), j), Low(b / 2, k - 1), [b % 2 == 1]);
    }
  }

  /** A right shift leaves the bits in front. */
  lemma {:induction false} ShiftRightBound(b: nat, j: nat, k: nat)
    requires b < Pow2(j + k)
    ensures ShiftRight(b, k) < Pow2(j)
    decreases k
  {
    if k > 0 {
      ShiftRightBound(b / 2, j, k - 1);
    }
  }

  lemma {:induction false} AndOdd(b: nat, m: nat)
    ensures And(b, 2 * m + 1) == 2 * And(b / 2, m) + b % 2
  {
    assert (2 * m + 1) / 2 == m && (2 * m + 1) % 2 == 1;
  }

  lemma {:induction false} LowDouble(a: nat, d: nat, k: nat)
    requires d < 2
    ensures Low(2 * a + d, k + 1) == Low(a, k) + [d == 1]
  {
    assert (2 * a + d) / 2 == a && (2 * a + d) % 2 == d;
  }

  /** Masking with `k` ones keeps the last `k` bits. */
  lemma {:induction false} Masked(b: nat, k: nat)
    ensures And(b, Pow2(k) - 1) < Pow2(k) && Low(And(b, Pow2(k) - 1), k) == Low(b, k)
    decreases k
  {
    if k == 0 {
      AndZero(b);
    } else {
      var m := Pow2(k - 1) - 1;
      Masked(b / 2, k - 1);
      AndOdd(b, m);
      LowDouble(And(b / 2, m), b % 2, k - 1);
    }
  }

  lemma {:induction false} AndZero(x: nat)
    ensures And(x, 0) == 0
  {
    if x > 0 {
      AndZero(x / 2);
    }
  }

  /** Truncation to eight bits keeps the last eight. */
  lemma {:induction false} Truncated(b: nat)
    ensures Low(b % 256, 8) == Low(b, 8)
  {
    SmallPowers();
    LowJoin(b / 256, b % 256, 0, 8);
    assert Low(b / 256, 0) + Low(b % 256, 8) == Low(b % 256, 8);
  }

  // ----- strings of bytes and of digits

  /** The last `k` bits of each, one after the other. */
  function BitsOf(bs: seq<Byte>, k: nat): (r: seq<bool>)
    ensures k == 8 ==> |r| == 8 * |bs|
    ensures k == 6 ==> |r| == 6 * |bs|
    decreases |bs|, bs
  {
    if bs == [] then [] else BitsOf(bs[..|bs| - 1], k) + Low(bs[|bs| - 1], k)
  }

  /** Every number has at most `k` bits. */
  predicate AllFit(bs: seq<Byte>, k: nat) {
    forall i :: 0 <= i < |bs| ==> bs[i] < Pow2(k)
  }

  /** The values of base64 digits. */
  predicate Digits(vs: seq<Byte>) {
    forall i :: 0 <= i < |vs| ==> vs[i] < 64
  }

  lemma {:induction false} DigitsFit(vs: seq<Byte>)
    ensures Digits(vs) <==> AllFit(vs, 6)
  {
    SmallPowers();
    if AllFit(vs, 6) {
      forall i | 0 <= i < |vs| ensures vs[i] < 64 {}
    }
  }

  function Zeros(n: nat): (r: seq<bool>)
    ensures |r| == n && forall i :: 0 <= i < n ==> !r[i]
  {
    seq(n, _ => false)
  }

  lemma {:induction false} BitsOfSnoc(bs: seq<Byte>, b: Byte, k: nat)
    ensures BitsOf(bs + [b], k) == BitsOf(bs, k) + Low(b, k)
  {
    assert (bs + [b])[..|bs|] == bs;
  }

  lemma {:induction false} BitsOfConcat(x: seq<Byte>, y: seq<Byte>, k: nat)
    ensures BitsOf(x + y, k) == BitsOf(x, k) + BitsOf(y, k)
  {
    if y == [] {
      assert x + y == x;
    } else {
      var n := |y| - 1;
      BitsOfConcat(x, y[..n], k);
      BitsOfConcatSnoc(x, y[..n], y[n], k);
      assert y == y[..n] + [y[n]];
    }
  }

  lemma {:induction false} BitsOfConcatSnoc(x: seq<Byte>, y: seq<Byte>, b: Byte, k: nat)
    requires BitsOf(x + y, k) == BitsOf(x, k) + BitsOf(y, k)
    ensures BitsOf(x + (y + [b]), k) == BitsOf(x, k) + BitsOf(y + [b], k)
  {
    Associate(x, y, [b]);
    BitsOfSnoc(x + y, b, k);
    BitsOfSnoc(y, b, k);
    Associate(BitsOf(x, k), BitsOf(y, k), Low(b, k));
  }

  lemma {:induction false} BitsOfOne(b: Byte, k: nat)
    ensures BitsOf([b], k) == Low(b, k)
  {
    assert [b][..0] == [];
  }

  lemma {:induction false} BitsOfCons(b: Byte, bs: seq<Byte>, k: nat)
    ensures BitsOf([b] + bs, k) == Low(b, k) + BitsOf(bs, k)
  {
    BitsOfConcat([b], bs, k);
    BitsOfOne(b, k);
  }

  lemma {:induction false} BitsOfSplit(bs: seq<Byte>, i: nat, k: nat)
    requires i <= |bs|
    ensures BitsOf(bs, k) == BitsOf(bs[..i], k) + BitsOf(bs[i..], k)
  {
    BitsOfConcat(bs[..i], bs[i..], k);
    assert bs == bs[..i] + bs[i..];
  }

  /** Values of `k` bits are determined by their bits. */
  lemma {:induction false} BitsOfInjective(x: seq<Byte>, y: seq<Byte>, k: nat)
    requires AllFit(x, k) && AllFit(y, k) && |x| == |y| && BitsOf(x, k) == BitsOf(y, k)
    ensures x == y
  {
    if x != [] {
      var n := |x| - 1;
      SameHeadAndTail(BitsOf(x[..n], k), Low(x[n], k), BitsOf(y[..n], k), Low(y[n], k));
      LowInjective(x[n], y[n], k);
      BitsOfInjective(x[..n], y[..n], k);
      assert x == x[..n] + [x[n]] && y == y[..n] + [y[n]];
    }
  }

  lemma {:induction false} LowInjective(b: nat, c: nat, k: nat)
    requires b < Pow2(k) && c < Pow2(k) && Low(b, k) == Low(c, k)
    ensures b == c
  {
    FromBitsOfLow(b, k);
    FromBitsOfLow(c, k);
  }

  lemma {:induction false} SameHeadAndTail(x: seq<bool>, y: seq<bool>, z: seq<bool>, w: seq<bool>)
    requires x + y == z + w && |y| == |w|
    ensures x == z && y == w
  {
    assert x == (x + y)[..|x|] && z == (z + w)[..|z|];
    assert y == (x + y)[|x|..] && w == (z + w)[|z|..];
  }

  // ----- cutting a bit string

  /** Whole bytes of a bit string; up to seven bits at the end are dropped. */
  function CutOctets(r: seq<bool>): (bs: seq<Byte>)
    ensures |bs| == |r| / 8
  {
    if |r| < 8 then []
    else
      EightBits(r[..8]);
      [FromBits(r[..8])] + CutOctets(r[8..])
  }

  /** Digit values of a bit string; the last one is filled up with zero bits. */
  function CutSextets(r: seq<bool>): (vs: seq<Byte>)
    ensures |vs| == (|r| + 5) / 6 && Digits(vs)
  {
    if r == [] then []
    else if |r| < 6 then
      SixBits(r + Zeros(6 - |r|));
      [FromBits(r + Zeros(6 - |r|))]
    else
      SixBits(r[..6]);
      [FromBits(r[..6])] + CutSextets(r[6..])
  }

  lemma {:induction false} SixBits(r: seq<bool>)
    requires |r| == 6
    ensures FromBits(r) < 64
  {
    SmallPowers();
  }

  lemma {:induction false} EightBits(r: seq<bool>)
    requires |r| == 8
    ensures FromBits(r) < 256
  {
    SmallPowers();
  }

  /** Bytes followed by less than eight bits are recovered by cutting. */
  lemma {:induction false} CutOctetsExact(bs: seq<Byte>, r: seq<bool>)
    requires |r| < 8
    ensures CutOctets(BitsOf(bs, 8) + r) == bs
  {
    if bs != [] {
      BitsOfCons(bs[0], bs[1..], 8);
      assert bs == [bs[0]] + bs[1..];
      CutFirst(Low(bs[0], 8), BitsOf(bs[1..], 8), r);
      SmallPowers();
      FromBitsOfLow(bs[0], 8);
      CutOctetsExact(bs[1..], r);
    }
  }

  lemma {:induction false} CutFirst(x: seq<bool>, y: seq<bool>, r: seq<bool>)
    ensures ((x + y) + r)[..|x|] == x && ((x + y) + r)[|x|..] == y + r
  {
  }

  /** Cutting into bytes keeps all bits of whole bytes. */
  lemma {:induction false} BitsOfCutOctets(r: seq<bool>)
    ensures BitsOf(CutOctets(r), 8) == r[..8 * (|r| / 8)]
  {
    if |r| >= 8 {
      BitsOfCutOctets(r[8..]);
      BitsOfCons(FromBits(r[..8]), CutOctets(r[8..]), 8);
      LowOfFromBits(r[..8]);
      TakeRest(r);
    }
  }

  lemma {:induction false} TakeRest(r: seq<bool>)
    requires |r| >= 8
    ensures r[..8] + r[8..][..8 * (|r[8..]| / 8)] == r[..8 * (|r| / 8)]
  {
    assert 8 * (|r| / 8) == 8 + 8 * (|r[8..]| / 8);
  }

  /** Digit values lose nothing: their bits are the input bits and less than six zeros. */
  lemma {:induction false} BitsOfCutSextets(r: seq<bool>)
    ensures 0 <= 6 * |CutSextets(r)| - |r| < 6
    ensures BitsOf(CutSextets(r), 6) == r + Zeros(6 * |CutSextets(r)| - |r|)
  {
    if r == [] {
    } else if |r| < 6 {
      LastSextet(r + Zeros(6 - |r|));
    } else {
      BitsOfCutSextets(r[6..]);
      assert 6 * |CutSextets(r)| - |r| == 6 * |CutSextets(r[6..])| - |r[6..]|;
      BitsOfNextSextet(r, CutSextets(r[6..]), Zeros(6 * |CutSextets(r[6..])| - |r[6..]|));
    }
  }

  lemma {:induction false} LastSextet(r: seq<bool>)
    requires |r| == 6
    ensures BitsOf([FromBits(r)], 6) == r
  {
    BitsOfOne(FromBits(r), 6);
    LowOfFromBits(r);
  }

  lemma {:induction false} BitsOfNextSextet(r: seq<bool>, vs: seq<Byte>, z: seq<bool>)
    requires |r| >= 6 && BitsOf(vs, 6) == r[6..] + z
    ensures BitsOf([FromBits(r[..6])] + vs, 6) == r + z
  {
    BitsOfCons(FromBits(r[..6]), vs, 6);
    LowOfFromBits(r[..6]);
    Regroup(r, z);
  }

  lemma {:induction false} Regroup(r: seq<bool>, z: seq<bool>)
    requires |r| >= 6
    ensures r[..6] + (r[6..] + z) == r + z
  {
  }

  /** Bits made of digit values are cut into these digit values. */
  lemma {:induction false} CutSextetsConcat(vs: seq<Byte>, r: seq<bool>)
    requires Digits(vs)
    ensures CutSextets(BitsOf(vs, 6) + r) == vs + CutSextets(r)
  {
    if vs == [] {
      assert BitsOf(vs, 6) + r == r;
    } else {
      CutSextetsConcat(vs[1..], r);
      SmallPowers();
      CutNextSextet(vs[0], vs[1..], r);
      assert vs == [vs[0]] + vs[1..];
    }
  }

  lemma {:induction false} CutNextSextet(v: Byte, vs: seq<Byte>, r: seq<bool>)
    requires v < Pow2(6) && CutSextets(BitsOf(vs, 6) + r) == vs + CutSextets(r)
    ensures CutSextets(BitsOf([v] + vs, 6) + r) == ([v] + vs) + CutSextets(r)
  {
    BitsOfCons(v, vs, 6);
    FromBitsOfLow(v, 6);
    CutSextetsCons(Low(v, 6), BitsOf(vs, 6) + r);
    Associate(Low(v, 6), BitsOf(vs, 6), r);
    Associate([v], vs, CutSextets(r));
  }

  lemma {:induction false} CutSextetsCons(x: seq<bool>, y: seq<bool>)
    requires |x| == 6
    ensures CutSextets(x + y) == [FromBits(x)] + CutSextets(y)
  {
    assert (x + y)[..6] == x && (x + y)[6..] == y;
  }

  lemma {:induction false} SameCount(m: nat, k: nat, r: nat, p: nat)
    requires 6 * m == r + p && p < 6 && r <= 6 * k < r + 6
    ensures m == k && 6 * k - r == p
  {
  }

  /** The digit values of a bit string are the only ones whose bits are that string and less than six zeros. */
  lemma {:induction false} CutSextetsUnique(vs: seq<Byte>, r: seq<bool>, p: nat)
    requires Digits(vs) && p < 6 && BitsOf(vs, 6) == r + Zeros(p)
    ensures CutSextets(r) == vs
  {
    BitsOfCutSextets(r);
    DigitsFit(vs);
    DigitsFit(CutSextets(r));
    SameCount(|vs|, |CutSextets(r)|, |r|, p);
    BitsOfInjective(vs, CutSextets(r), 6);
  }
}
