/** What the base64 encoder and decoder promise together. */
module Base64Laws {
  import opened Results
  import opened Bits
  import opened Sequences
  import opened Bytes
  import opened Base64

  // ----- sizes

  /** Encoding writes exactly the announced number of characters. */
  lemma {:induction false} EncodedSize(al: Alphabet, bs: seq<Byte>)
    ensures |Encoded(al, bs)| == RequiredEncodeSize(|bs|)
  {
    var n := |bs|;
    var k := (8 * n + 5) / 6;
    assert |Encoded(al, bs)| == k + PadCount(k);
    var q, r := n / 3, n % 3;
    assert n == 3 * q + r;
    if r == 0 {
      assert k == 4 * q;
    } else if r == 1 {
      assert k == 4 * q + 2;
    } else {
      assert k == 4 * q + 3;
    }
  }

  /** Decoding `k` digits writes `3k/4` bytes, rounded down, and fits the announced bound. */
  lemma {:induction false} WrittenSize(al: Alphabet, s: seq<Byte>)
    ensures |Written(al, s)| == 3 * |ScanDigits(al, s).values| / 4 <= MaxDecodeSize(|s|)
  {
    var k := |ScanDigits(al, s).values|;
    assert |Written(al, s)| == 6 * k / 8;
    assert |s| == 4 * (|s| / 4) + |s| % 4;
  }

  // ----- round trip

  /** The alphabets under which text in alphabet `al` is read back. */
  predicate ReadsBack(al: Alphabet, reader: Alphabet) {
    reader == Auto || (if al == UrlSafe then reader == UrlSafe else reader == Standard)
  }

  lemma {:induction false} ValueOfDigit(al: Alphabet, reader: Alphabet, v: Byte)
    requires v < 64 && ReadsBack(al, reader)
    ensures DigitChar(al, v) != PAD && DigitValue(reader, DigitChar(al, v)).Some?
    ensures DigitValue(reader, DigitChar(al, v)).value.0 == v
    ensures ReadsBack(al, DigitValue(reader, DigitChar(al, v)).value.1)
  {
  }

  lemma {:induction false} ScanOfDigits(al: Alphabet, reader: Alphabet, vs: seq<Byte>, n: nat)
    requires Digits(vs) && ReadsBack(al, reader)
    ensures ScanDigits(reader, DigitChars(al, vs) + Pads(n)) ==
            Scan(vs, if n == 0 then AtEnd else AtPad(Pads(n - 1)))
    decreases |vs|
  {
    var s := DigitChars(al, vs) + Pads(n);
    if vs == [] {
      assert s == Pads(n);
      if n > 0 { assert s[1..] == Pads(n - 1); }
    } else {
      ValueOfDigit(al, reader, vs[0]);
      var next := DigitValue(reader, DigitChar(al, vs[0])).value.1;
      ScanOfDigits(al, next, vs[1..], n);
      assert s[1..] == DigitChars(al, vs[1..]) + Pads(n);
    }
  }

  lemma {:induction false} CutRoundTrip(bs: seq<Byte>)
    ensures CutOctets(BitsOf(CutSextets(BitsOf(bs, 8)), 6)) == bs
  {
    BitsOfCutSextets(BitsOf(bs, 8));
    CutOctetsExact(bs, Zeros(6 * |CutSextets(BitsOf(bs, 8))| - |BitsOf(bs, 8)|));
  }

  lemma {:induction false} ScanOfEncoded(al: Alphabet, reader: Alphabet, bs: seq<Byte>)
    requires ReadsBack(al, reader)
    ensures ScanDigits(reader, Encoded(al, bs)).values == CutSextets(BitsOf(bs, 8))
    ensures ScanDigits(reader, Encoded(al, bs)).stop != AtBad
    ensures ScanDigits(reader, Encoded(al, bs)).stop.AtPad? ==> AllPads(ScanDigits(reader, Encoded(al, bs)).stop.rest)
  {
    var vs := CutSextets(BitsOf(bs, 8));
    ScanOfDigits(al, reader, vs, PadCount(|vs|));
  }

  /** Decoding an encoding returns the input, under the alphabet used or automatic detection, whatever the error behaviour. */
  lemma {:induction false} RoundTrip(al: Alphabet, reader: Alphabet, behavior: Behavior, bs: seq<Byte>)
    requires ReadsBack(al, reader)
    ensures Decoded(reader, behavior, Encoded(al, bs)) == Ok(bs)
  {
    ScanOfEncoded(al, reader, bs);
    CutRoundTrip(bs);
  }

  lemma {:induction false} ThreeAndRest(x: seq<Byte>, y: seq<Byte>)
    requires |x| >= 3
    ensures x == [x[0], x[1], x[2]] + x[3..] && x + y == [x[0], x[1], x[2]] + (x[3..] + y)
  {
  }

  /** The characters of the first three bytes, whatever follows them. */
  lemma {:induction false} FirstGroup(al: Alphabet, x: seq<Byte>, y: seq<Byte>) returns (g: seq<Byte>)
    requires |x| >= 3
    ensures Encoded(al, x) == g + Encoded(al, x[3..])
    ensures Encoded(al, x + y) == g + Encoded(al, x[3..] + y)
  {
    EncodedGroup(al, x[0], x[1], x[2], x[3..]);
    EncodedGroup(al, x[0], x[1], x[2], x[3..] + y);
    ThreeAndRest(x, y);
    g := DigitChars(al, FourDigits(x[0], x[1], x[2]));
  }

  /** Encoding distributes over a split at a multiple of three bytes. */
  lemma {:induction false} EncodedSplit(al: Alphabet, x: seq<Byte>, y: seq<Byte>)
    requires |x| % 3 == 0
    ensures Encoded(al, x + y) == Encoded(al, x) + Encoded(al, y)
    decreases |x|
  {
    if x == [] {
      EncodedEmpty(al);
      assert x + y == y;
    } else {
      EncodedSplit(al, x[3..], y);
      SplitStep(al, x, y);
    }
  }

  lemma {:induction false} EncodedEmpty(al: Alphabet)
    ensures Encoded(al, []) == []
  {
  }

  lemma {:induction false} SplitStep(al: Alphabet, x: seq<Byte>, y: seq<Byte>)
    requires |x| >= 3 && Encoded(al, x[3..] + y) == Encoded(al, x[3..]) + Encoded(al, y)
    ensures Encoded(al, x + y) == Encoded(al, x) + Encoded(al, y)
  {
    var g := FirstGroup(al, x, y);
    Associate(g, Encoded(al, x[3..]), Encoded(al, y));
  }

  // ----- canonical form

  /** Bits after the last whole byte of `k` digits. */
  function UnusedBits(k: nat): (n: nat)
    ensures n < 8
  {
    6 * k % 8
  }

  /** Digits of the alphabet, then at most two padding characters up to a multiple of four, and no unused bit set. */
  predicate Canonical(al: Alphabet, s: seq<Byte>) {
    var vs := ScanDigits(al, s).values;
    && |s| % 4 == 0
    && |s| - |vs| <= 2
    && AllPads(s[|vs|..])
    && BitsOf(vs, 6)[6 * |vs| - UnusedBits(|vs|)..] == Zeros(UnusedBits(|vs|))
  }

  lemma {:induction false} ScanConsumed(al: Alphabet, s: seq<Byte>)
    ensures ScanDigits(al, s).stop == AtEnd ==> |ScanDigits(al, s).values| == |s|
    ensures ScanDigits(al, s).stop.AtPad? ==>
              |ScanDigits(al, s).values| < |s| && s[|ScanDigits(al, s).values|..] == [PAD] + ScanDigits(al, s).stop.rest
    ensures ScanDigits(al, s).stop == AtBad ==>
              |ScanDigits(al, s).values| < |s| && s[|ScanDigits(al, s).values|] != PAD
    decreases |s|
  {
    if s != [] && s[0] != PAD && DigitValue(al, s[0]).Some? {
      ScanConsumed(DigitValue(al, s[0]).value.1, s[1..]);
    }
  }

  lemma {:induction false} CharOfValue(al: Alphabet, c: Byte)
    requires al != Auto && DigitValue(al, c).Some?
    ensures DigitChar(al, DigitValue(al, c).value.0) == c
  {
  }

  /** Under a fixed alphabet the digits read spell the characters read. */
  lemma {:induction false} DigitsSpell(al: Alphabet, s: seq<Byte>)
    requires al != Auto
    ensures DigitChars(al, ScanDigits(al, s).values) == s[..|ScanDigits(al, s).values|]
    decreases |s|
  {
    if s != [] && s[0] != PAD && DigitValue(al, s[0]).Some? {
      DigitsSpell(al, s[1..]);
      CharOfValue(al, s[0]);
    }
  }

  lemma {:induction false} DigitCount(n: nat, k: nat)
    requires k == (8 * n + 5) / 6
    ensures k % 4 != 1 && UnusedBits(k) == 6 * k - 8 * n
  {
    var q, r := n / 3, n % 3;
    assert n == 3 * q + r;
  }

  /** What encoding produces is canonical. */
  lemma {:induction false} EncodedIsCanonical(al: Alphabet, bs: seq<Byte>)
    requires al != Auto
    ensures Canonical(al, Encoded(al, bs))
  {
    ScanOfEncoded(al, al, bs);
    EncodedTail(al, bs);
    NoUnusedBit(bs);
    CanonicalParts(al, Encoded(al, bs), CutSextets(BitsOf(bs, 8)));
  }

  lemma {:induction false} CanonicalParts(al: Alphabet, s: seq<Byte>, vs: seq<Byte>)
    requires ScanDigits(al, s).values == vs && |s| % 4 == 0 && |s| <= |vs| + 2
    requires AllPads(s[|vs|..])
    requires BitsOf(vs, 6)[6 * |vs| - UnusedBits(|vs|)..] == Zeros(UnusedBits(|vs|))
    ensures Canonical(al, s)
  {
  }

  lemma {:induction false} EncodedTail(al: Alphabet, bs: seq<Byte>)
    ensures |CutSextets(BitsOf(bs, 8))| <= |Encoded(al, bs)| <= |CutSextets(BitsOf(bs, 8))| + 2
    ensures |Encoded(al, bs)| % 4 == 0 && AllPads(Encoded(al, bs)[|CutSextets(BitsOf(bs, 8))|..])
  {
    var vs := CutSextets(BitsOf(bs, 8));
    DigitCount(|bs|, |vs|);
    PaddedTail(DigitChars(al, vs), PadCount(|vs|));
  }

  lemma {:induction false} PaddedTail(x: seq<Byte>, n: nat)
    requires n == PadCount(|x|) && |x| % 4 != 1
    ensures |x + Pads(n)| % 4 == 0 && n <= 2 && AllPads((x + Pads(n))[|x|..])
  {
    assert (x + Pads(n))[|x|..] == Pads(n);
  }

  lemma {:induction false} NoUnusedBit(bs: seq<Byte>)
    ensures var vs := CutSextets(BitsOf(bs, 8));
            BitsOf(vs, 6)[6 * |vs| - UnusedBits(|vs|)..] == Zeros(UnusedBits(|vs|))
  {
    var r := BitsOf(bs, 8);
    var vs := CutSextets(r);
    BitsOfCutSextets(r);
    DigitCount(|bs|, |vs|);
    assert (r + Zeros(6 * |vs| - |r|))[|r|..] == Zeros(6 * |vs| - |r|);
  }

  lemma {:induction false} CanonicalAccepted(al: Alphabet, s: seq<Byte>)
    requires Canonical(al, s)
    ensures Decoded(al, Moderate, s).Ok?
  {
    ScanConsumed(al, s);
    var r := ScanDigits(al, s);
    assert |r.values| < |s| ==> s[|r.values|..][0] == s[|r.values|];
    if r.stop.AtPad? {
      forall i | 0 <= i < |r.stop.rest| ensures r.stop.rest[i] == PAD {
        assert s[|r.values|..][i + 1] == r.stop.rest[i];
      }
    }
  }

  lemma {:induction false} CanonicalDigits(al: Alphabet, s: seq<Byte>)
    requires Canonical(al, s)
    ensures CutSextets(BitsOf(Written(al, s), 8)) == ScanDigits(al, s).values
  {
    var vs := ScanDigits(al, s).values;
    PaddingOfCanonical(|s|, |vs|);
    CutAndRecut(vs, BitsOf(vs, 6), UnusedBits(|vs|));
  }

  /** Digits whose unused last bits are zero come back from the whole bytes they hold. */
  lemma {:induction false} CutAndRecut(vs: seq<Byte>, r: seq<bool>, u: nat)
    requires Digits(vs) && r == BitsOf(vs, 6) && u == |r| % 8 && u < 6 && r[|r| - u..] == Zeros(u)
    ensures CutSextets(BitsOf(CutOctets(r), 8)) == vs
  {
    BitsOfCutOctets(r);
    assert r == r[..|r| - u] + r[|r| - u..];
    CutSextetsUnique(vs, BitsOf(CutOctets(r), 8), u);
  }

  lemma {:induction false} EightfoldPlus(x: int, y: nat)
    requires y < 8
    ensures (8 * x + y) % 8 == y
  {
  }

  lemma {:induction false} PaddingOfCanonical(n: nat, k: nat)
    requires n % 4 == 0 && k <= n <= k + 2
    ensures UnusedBits(k) < 6 && n - k == PadCount(k)
  {
    var m, p := n / 4, n - k;
    assert n == 4 * m;
    PadUnique(k, p, PadCount(k));
    if p == 0 {
      EightfoldPlus(3 * m, 0);
    } else if p == 1 {
      EightfoldPlus(3 * m - 1, 2);
    } else {
      EightfoldPlus(3 * m - 2, 4);
    }
  }

  lemma {:induction false} PadUnique(k: nat, p: nat, q: nat)
    requires p < 4 && q < 4 && (k + p) % 4 == 0 && (k + q) % 4 == 0
    ensures p == q
  {
  }

  lemma {:induction false} CanonicalEncoded(al: Alphabet, s: seq<Byte>)
    requires al != Auto && Canonical(al, s)
    ensures Encoded(al, Written(al, s)) == s
  {
    var k := |ScanDigits(al, s).values|;
    CanonicalDigits(al, s);
    PaddingOfCanonical(|s|, k);
    DigitsSpell(al, s);
    TailOfPads(s, k);
  }

  lemma {:induction false} TailOfPads(s: seq<Byte>, k: nat)
    requires k <= |s| && AllPads(s[k..])
    ensures s[..k] + Pads(|s| - k) == s
  {
    assert s[k..] == Pads(|s| - k);
  }

  /** Under a fixed alphabet, strict decoding followed by encoding is the identity exactly on canonical text. */
  lemma {:induction false} CanonicalExact(al: Alphabet, s: seq<Byte>)
    requires al != Auto
    ensures Canonical(al, s) <==> Decoded(al, Moderate, s).Ok? && Encoded(al, Decoded(al, Moderate, s).value) == s
  {
    if Canonical(al, s) {
      CanonicalAccepted(al, s);
      CanonicalEncoded(al, s);
    }
    if Decoded(al, Moderate, s).Ok? && Encoded(al, Decoded(al, Moderate, s).value) == s {
      EncodedIsCanonical(al, Decoded(al, Moderate, s).value);
    }
  }

  // ----- automatic detection and error behaviour

  lemma {:induction false} AutoScan(s: seq<Byte>)
    ensures ScanDigits(Auto, s) == ScanDigits(Standard, s) || ScanDigits(Auto, s) == ScanDigits(UrlSafe, s)
    ensures ScanDigits(Standard, s).stop != AtBad ==> ScanDigits(Auto, s) == ScanDigits(Standard, s)
    ensures ScanDigits(UrlSafe, s).stop != AtBad ==> ScanDigits(Auto, s) == ScanDigits(UrlSafe, s)
    decreases |s|
  {
    if s != [] && s[0] != PAD {
      AutoScan(s[1..]);
      AutoValue(s[0]);
    }
  }

  /** A digit common to both alphabets leaves detection open, any other one settles it. */
  lemma {:induction false} AutoValue(c: Byte)
    ensures DigitValue(Auto, c).Some? <==> DigitValue(Standard, c).Some? || DigitValue(UrlSafe, c).Some?
    ensures DigitValue(Standard, c).Some? && DigitValue(UrlSafe, c).Some? ==>
              && DigitValue(Auto, c).value.1 == Auto
              && DigitValue(Auto, c).value.0 == DigitValue(Standard, c).value.0 == DigitValue(UrlSafe, c).value.0
    ensures DigitValue(Standard, c).Some? && DigitValue(UrlSafe, c).None? ==> DigitValue(Auto, c) == DigitValue(Standard, c)
    ensures DigitValue(UrlSafe, c).Some? && DigitValue(Standard, c).None? ==> DigitValue(Auto, c) == DigitValue(UrlSafe, c)
  {
  }

  /** Automatic detection succeeds exactly when one of the two alphabets does, with the same bytes. */
  lemma {:induction false} AutoIsEither(behavior: Behavior, s: seq<Byte>)
    ensures Decoded(Auto, behavior, s).Ok? <==> Decoded(Standard, behavior, s).Ok? || Decoded(UrlSafe, behavior, s).Ok?
    ensures Decoded(Standard, behavior, s).Ok? ==> Decoded(Auto, behavior, s) == Decoded(Standard, behavior, s)
    ensures Decoded(UrlSafe, behavior, s).Ok? ==> Decoded(Auto, behavior, s) == Decoded(UrlSafe, behavior, s)
  {
    AutoScan(s);
  }

  /** Strict decoding succeeds exactly when loose decoding does and nothing but padding follows the digits; the bytes agree. */
  lemma {:induction false} ModerateIsStricter(al: Alphabet, s: seq<Byte>)
    ensures Decoded(al, Moderate, s).Ok? <==>
            Decoded(al, Loose, s).Ok? && AllPads(s[|ScanDigits(al, s).values|..])
    ensures Decoded(al, Moderate, s).Ok? ==> Decoded(al, Moderate, s) == Decoded(al, Loose, s)
  {
    ScanConsumed(al, s);
    var r := ScanDigits(al, s);
    if r.stop.AtPad? {
      var tail := s[|r.values|..];
      assert tail[0] == PAD && forall i :: 0 <= i < |r.stop.rest| ==> tail[i + 1] == r.stop.rest[i];
      assert AllPads(tail) <==> AllPads(r.stop.rest) by {
        if AllPads(r.stop.rest) {
          forall i | 0 <= i < |tail| ensures tail[i] == PAD {
            if i > 0 { assert tail[i] == r.stop.rest[i - 1]; }
          }
        }
      }
    }
  }
}
