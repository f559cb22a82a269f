/** The alphabets, the padding and the digits of base64, as RFC 4648 tabulates them. */
module Base64Tables {
  import opened Results
  import opened Shapes
  import opened Bytes
  import opened Bits
  import opened Base64

  // ----- the alphabets of sections 4 and 5

  /** A run of characters, one after the other, for the values from `lo` to `hi`. */
  predicate Runs(al: Alphabet, lo: nat, hi: nat, first: char, last: char)
    requires lo <= hi < 64
  {
    && DigitChar(al, lo) == first as int && DigitChar(al, hi) == last as int
    && forall v :: lo <= v < hi ==> DigitChar(al, v + 1) == DigitChar(al, v) + 1
  }

  /** Tables 1 and 2. */
  lemma {:induction false} Alphabets(al: Alphabet)
    ensures Runs(al, 0, 25, 'A', 'Z') && Runs(al, 26, 51, 'a', 'z') && Runs(al, 52, 61, '0', '9')
    ensures al == UrlSafe ==> DigitChar(al, 62) == '-' as int && DigitChar(al, 63) == '_' as int
    ensures al != UrlSafe ==> DigitChar(al, 62) == '+' as int && DigitChar(al, 63) == '/' as int
    ensures PAD == '=' as int
  {
  }

  /** Under a fixed alphabet, the characters that have a value are its digits, with the value of the digit. */
  lemma {:induction false} ValuesOfDigits(al: Alphabet, c: Byte, v: Byte)
    requires al != Auto
    ensures DigitValue(al, c) == Some((v, al)) <==> v < 64 && DigitChar(al, v) == c
    ensures DigitValue(al, c).Some? ==> DigitValue(al, c) == Some((DigitValue(al, c).value.0, al))
  {
  }

  // ----- groups of three bytes

  lemma {:induction false} LowRest(b: nat)
    ensures Low(b, 2) == Low(b % 4, 2) && Low(b, 4) == Low(b % 16, 4) && Low(b, 6) == Low(b % 64, 6)
    ensures ShiftRight(b, 2) == b / 4 && ShiftRight(b, 4) == b / 16 && ShiftRight(b, 6) == b / 64
  {
    LowRests(b, 2);
    LowRests(b, 4);
    LowRests(b, 6);
    SmallPowers();
    Shifted(b, 2);
    Shifted(b, 4);
    Shifted(b, 6);
  }

  lemma {:induction false} LowRests(b: nat, k: nat)
    ensures Low(b, k) == Low(b % Pow2(k), k)
    decreases k
  {
    if k > 0 {
      LowRests(b / 2, k - 1);
      Halved(b, Pow2(k - 1));
    }
  }

  lemma {:induction false} Halved(b: nat, m: nat)
    requires m > 0
    ensures b % (2 * m) / 2 == b / 2 % m && b % (2 * m) % 2 == b % 2
  {
    var q, r := b / 2 / m, b / 2 % m;
    assert b == 2 * (b / 2) + b % 2 && b / 2 == m * q + r;
    Multiple(m, q, r, b);
  }

  lemma {:induction false} Multiple(m: nat, q: nat, r: nat, b: nat)
    requires m > 0 && r < m && b / 2 == m * q + r
    ensures b % (2 * m) == 2 * r + b % 2
  {
    assert b == q * (2 * m) + (2 * r + b % 2);
    DivMod(q, 2 * m, 2 * r + b % 2);
  }

  lemma {:induction false} Shifted(b: nat, k: nat)
    ensures ShiftRight(b, k) == b / Pow2(k)
    decreases k, b
  {
    if k > 0 {
      Shifted(b / 2, k - 1);
      DivideTwice(b, Pow2(k - 1));
    }
  }

  lemma {:induction false} DivideTwice(b: nat, m: nat)
    requires m > 0
    ensures b / 2 / m == b / (2 * m)
  {
    var q, r := b / 2 / m, b / 2 % m;
    assert b == 2 * (b / 2) + b % 2 && b / 2 == m * q + r;
    assert b == q * (2 * m) + (2 * r + b % 2);
    DivMod(q, 2 * m, 2 * r + b % 2);
  }

  /** The four values of a group: six bits each, the highest first. */
  lemma {:induction false} DigitsOfGroup(b0: Byte, b1: Byte, b2: Byte)
    ensures First(b0) == b0 / 4 && Second(b0, b1) == b0 % 4 * 16 + b1 / 16
    ensures Third(b1, b2) == b1 % 16 * 4 + b2 / 64 && Fourth(b2) == b2 % 64
  {
    SmallPowers();
    LowRest(b0);
    LowRest(b1);
    LowRest(b2);
    LowJoin(b0 % 4, b1 / 16, 2, 4);
    LowJoin(b1 % 16, b2 / 64, 4, 2);
    LowInjective(First(b0), b0 / 4, 6);
    LowInjective(Second(b0, b1), b0 % 4 * 16 + b1 / 16, 6);
    LowInjective(Third(b1, b2), b1 % 16 * 4 + b2 / 64, 6);
    LowInjective(Fourth(b2), b2 % 64, 6);
  }

  lemma {:induction false} CharsOfFour(al: Alphabet, v0: Byte, v1: Byte, v2: Byte, v3: Byte)
    requires v0 < 64 && v1 < 64 && v2 < 64 && v3 < 64
    ensures DigitChars(al, [v0, v1]) == [DigitChar(al, v0), DigitChar(al, v1)]
    ensures DigitChars(al, [v0, v1, v2]) == [DigitChar(al, v0), DigitChar(al, v1), DigitChar(al, v2)]
    ensures DigitChars(al, [v0, v1, v2, v3]) == [DigitChar(al, v0), DigitChar(al, v1), DigitChar(al, v2), DigitChar(al, v3)]
  {
  }

  /** Encoding, three bytes at a time. */
  lemma {:induction false} EncodedThree(al: Alphabet, bs: seq<Byte>, b0: Byte, b1: Byte, b2: Byte, rest: seq<Byte>)
    requires bs == [b0, b1, b2] + rest
    ensures Encoded(al, bs) ==
            [DigitChar(al, b0 / 4), DigitChar(al, b0 % 4 * 16 + b1 / 16), DigitChar(al, b1 % 16 * 4 + b2 / 64), DigitChar(al, b2 % 64)]
            + Encoded(al, rest)
  {
    DigitsOfGroup(b0, b1, b2);
    EncodedGroup(al, b0, b1, b2, rest);
    CharsOfFour(al, First(b0), Second(b0, b1), Third(b1, b2), Fourth(b2));
  }

  /** The last two bytes, with padding. */
  lemma {:induction false} LastTwo(al: Alphabet, bs: seq<Byte>, b0: Byte, b1: Byte)
    requires bs == [b0, b1]
    ensures Encoded(al, bs) ==
            [DigitChar(al, b0 / 4), DigitChar(al, b0 % 4 * 16 + b1 / 16), DigitChar(al, b1 % 16 * 4), '=' as int]
  {
    DigitsOfGroup(b0, b1, 0);
    EncodedTwo(al, b0, b1);
    CharsOfFour(al, First(b0), Second(b0, b1), Third(b1, 0), 0);
  }

  /** The last byte, with padding. */
  lemma {:induction false} LastOne(al: Alphabet, bs: seq<Byte>, b0: Byte)
    requires bs == [b0]
    ensures Encoded(al, bs) == [DigitChar(al, b0 / 4), DigitChar(al, b0 % 4 * 16), '=' as int, '=' as int]
  {
    DigitsOfGroup(b0, 0, 0);
    EncodedOne(al, b0);
    CharsOfFour(al, First(b0), Second(b0, 0), 0, 0);
  }

  // ----- what is accepted

  /** The first `n` characters are digits, and the padding starts, or the text ends, behind them. */
  predicate DigitsThenPad(al: Alphabet, s: seq<Byte>, n: nat) {
    n <= |s| && (forall i :: 0 <= i < n ==> DigitValue(al, s[i]).Some? && s[i] != PAD) && (n < |s| ==> s[n] == PAD)
  }

  lemma {:induction false} NoDigits(al: Alphabet, s: seq<Byte>, n: nat)
    requires DigitsThenPad(al, s, n) && (|s| > 0 ==> s[0] == PAD || DigitValue(al, s[0]).None?)
    ensures n == 0
  {
  }

  lemma {:induction false} StopsAtPad(al: Alphabet, s: seq<Byte>)
    requires al != Auto
    ensures ScanDigits(al, s).stop != AtBad <==> DigitsThenPad(al, s, |ScanDigits(al, s).values|)
    ensures forall n: nat :: DigitsThenPad(al, s, n) ==> n == |ScanDigits(al, s).values| && ScanDigits(al, s).stop != AtBad
    decreases |s|
  {
    if |s| > 0 && s[0] != PAD && DigitValue(al, s[0]).Some? {
      StopsAtPad(al, s[1..]);
      var m := |ScanDigits(al, s[1..]).values|;
      if DigitsThenPad(al, s[1..], m) {
        forall i | 0 <= i < m + 1 ensures DigitValue(al, s[i]).Some? && s[i] != PAD {
          if i > 0 { assert s[i] == s[1..][i - 1]; }
        }
      }
      forall n: nat | DigitsThenPad(al, s, n) ensures n == |ScanDigits(al, s).values| && ScanDigits(al, s).stop != AtBad {
        assert DigitsThenPad(al, s[1..], n - 1);
      }
      if DigitsThenPad(al, s, m + 1) {
        assert DigitsThenPad(al, s[1..], m);
      }
    } else {
      forall n: nat | DigitsThenPad(al, s, n) ensures n == 0 {
        NoDigits(al, s, n);
      }
    }
  }

  /** Loose decoding succeeds exactly on digits up to the first padding; the values of the digits are decoded. */
  lemma {:induction false} LooseExactly(al: Alphabet, s: seq<Byte>)
    requires al != Auto
    ensures Decoded(al, Loose, s).Ok? <==> exists n: nat :: DigitsThenPad(al, s, n)
  {
    StopsAtPad(al, s);
  }
}
