/** The base64 encoder and decoder of sections 4 and 5 of RFC 4648. */
module Base64 {
  import opened Results
  import opened Bits
  import opened Sequences
  import opened Bytes

  datatype Alphabet = Auto | Standard | UrlSafe

  datatype Behavior = Moderate | Loose

  const PAD: Byte := 61

  // ----- digits

  /** Entry `v` of the digit table: A-Z, a-z, 0-9, then `-_` for the URL alphabet and `+/` otherwise. */
  function DigitChar(al: Alphabet, v: Byte): Byte
    requires v < 64
  {
    if v < 26 then v + 65
    else if v < 52 then v - 26 + 97
    else if v < 62 then v - 52 + 48
    else if v == 62 then (if al == UrlSafe then 45 else 43)
    else (if al == UrlSafe then 95 else 47)
  }

  /** `_base64_value`: the value of a digit and the alphabet from then on; None where it throws. */
  function DigitValue(al: Alphabet, c: Byte): (r: Option<(Byte, Alphabet)>)
    ensures r.Some? ==> r.value.0 < 64 && (al != Auto ==> r.value.1 == al)
  {
    if 65 <= c <= 90 then Some((c - 65, al))
    else if 97 <= c <= 122 then Some((c - 97 + 26, al))
    else if 48 <= c <= 57 then Some((c - 48 + 52, al))
    else match al
      case Standard => if c == 43 then Some((62, al)) else if c == 47 then Some((63, al)) else None
      case UrlSafe => if c == 45 then Some((62, al)) else if c == 95 then Some((63, al)) else None
      case Auto =>
        if c == 43 then Some((62, Standard))
        else if c == 47 then Some((63, Standard))
        else if c == 45 then Some((62, UrlSafe))
        else if c == 95 then Some((63, UrlSafe))
        else None
  }

  // ----- reference definition

  function DigitChars(al: Alphabet, vs: seq<Byte>): (s: seq<Byte>)
    requires Digits(vs)
    ensures |s| == |vs|
  {
    seq(|vs|, i requires 0 <= i < |vs| => DigitChar(al, vs[i]))
  }

  function Pads(n: nat): (s: seq<Byte>)
    ensures |s| == n
  {
    seq(n, _ => PAD)
  }

  /** The bits of the input cut into digits, and padding up to a multiple of four characters. */
  function Encoded(al: Alphabet, bs: seq<Byte>): (s: seq<Byte>) {
    var vs := CutSextets(BitsOf(bs, 8));
    DigitChars(al, vs) + Pads(PadCount(|vs|))
  }

  /** Characters missing to a multiple of four. */
  function PadCount(n: nat): (p: nat)
    ensures p < 4 && (n + p) % 4 == 0
  {
    (4 - n % 4) % 4
  }

  /** Where reading digits ends: at the end of the input, at a padding character with this after it, at a bad character. */
  datatype Stop = AtEnd | AtPad(rest: seq<Byte>) | AtBad

  datatype Scan = Scan(values: seq<Byte>, stop: Stop)

  function ScanDigits(al: Alphabet, s: seq<Byte>): (r: Scan)
    ensures Digits(r.values) && |r.values| <= |s|
    decreases |s|
  {
    if s == [] then Scan([], AtEnd)
    else if s[0] == PAD then Scan([], AtPad(s[1..]))
    else
      match DigitValue(al, s[0])
      case None => Scan([], AtBad)
      case Some((v, next)) =>
        var r := ScanDigits(next, s[1..]);
        Scan([v] + r.values, r.stop)
  }

  predicate AllPads(s: seq<Byte>) {
    forall i :: 0 <= i < |s| ==> s[i] == PAD
  }

  /** Whether decoding returns normally. */
  predicate Accepted(stop: Stop, behavior: Behavior) {
    match stop
    case AtEnd => true
    case AtPad(rest) => behavior == Loose || AllPads(rest)
    case AtBad => false
  }

  /** The whole bytes of the digits read, written even if decoding throws in the end. */
  function Written(al: Alphabet, s: seq<Byte>): seq<Byte> {
    CutOctets(BitsOf(ScanDigits(al, s).values, 6))
  }

  function Decoded(al: Alphabet, behavior: Behavior, s: seq<Byte>): Result<seq<Byte>> {
    if Accepted(ScanDigits(al, s).stop, behavior) then Ok(Written(al, s)) else Err("invalid base64 character.")
  }

  function MaxDecodeSize(size: nat): nat {
    (size / 4 + (if size % 4 != 0 then 1 else 0)) * 3
  }

  function RequiredEncodeSize(size: nat): nat {
    (size / 3 + (if size % 3 != 0 then 1 else 0)) * 4
  }

  // ----- one byte out of two digits

  /** A byte is the bits carried over from the last digit and the first bits of the next. */
  lemma {:induction false} CarryByte(last: Byte, part: Byte, bits: nat)
    requires 2 <= bits <= 8 && part < 64
    ensures Low(last, bits) + Low(part, 6) == Low(JoinDigits(last, part, bits), 8) + Low(part, bits - 2)
  {
    var rest := 8 - bits;
    var high := ShiftRight(part, bits - 2);
    SmallPowers();
    ShiftRightBound(part, rest, bits - 2);
    JoinedBits(last, high, bits, rest);
    LowSplit(part, rest, bits - 2);
    Passed(Low(last, bits), Low(high, rest), Low(part, bits - 2), Low(part, 6), Low(JoinDigits(last, part, bits), 8));
  }

  lemma {:induction false} JoinedBits(last: Byte, high: nat, bits: nat, rest: nat)
    requires bits + rest == 8 && high < Pow2(rest)
    ensures Low(Or(ShiftLeft(last, rest), high) % 256, 8) == Low(last, bits) + Low(high, rest)
  {
    OrDisjoint(last, high, rest);
    Truncated(last * Pow2(rest) + high);
    LowJoin(last, high, bits, rest);
  }

  lemma {:induction false} Passed(x: seq<bool>, y: seq<bool>, z: seq<bool>, p: seq<bool>, q: seq<bool>)
    requires p == y + z && q == x + y
    ensures x + p == q + z
  {
    Associate(x, y, z);
  }

  /** The byte that the decoding loop writes: `(last << (8 - bits)) | (part >> (bits - 2))`, truncated to eight bits. */
  function JoinDigits(last: Byte, part: Byte, bits: nat): Byte
    requires 2 <= bits <= 8
  {
    Or(ShiftLeft(last, 8 - bits), ShiftRight(part, bits - 2)) % 256
  }

  /** One step of the decoding loop that writes a byte. */
  lemma {:induction false} DecodeStep(out: seq<Byte>, vs: seq<Byte>, last: Byte, part: Byte, bits: nat)
    requires 2 <= bits <= 8 && part < 64
    requires BitsOf(out, 8) + Low(last, bits) == BitsOf(vs, 6)
    ensures BitsOf(out + [JoinDigits(last, part, bits)], 8) + Low(part, bits - 2) == BitsOf(vs + [part], 6)
  {
    CarryByte(last, part, bits);
    AppendByte(out, vs, Low(last, bits), part, JoinDigits(last, part, bits), Low(part, bits - 2));
  }

  lemma {:induction false} AppendByte(out: seq<Byte>, vs: seq<Byte>, carry: seq<bool>, part: Byte, b: Byte, left: seq<bool>)
    requires BitsOf(out, 8) + carry == BitsOf(vs, 6) && carry + Low(part, 6) == Low(b, 8) + left
    ensures BitsOf(out + [b], 8) + left == BitsOf(vs + [part], 6)
  {
    BitsOfSnoc(vs, part, 6);
    BitsOfSnoc(out, b, 8);
    Associate(BitsOf(out, 8), carry, Low(part, 6));
    Associate(BitsOf(out, 8), Low(b, 8), left);
  }

  /** One step of the decoding loop that only carries. */
  lemma {:induction false} CarryStep(out: seq<Byte>, vs: seq<Byte>, last: Byte, part: Byte)
    requires BitsOf(out, 8) + Low(last, 0) == BitsOf(vs, 6)
    ensures BitsOf(out, 8) + Low(part, 6) == BitsOf(vs + [part], 6)
  {
    BitsOfSnoc(vs, part, 6);
    assert BitsOf(out, 8) + Low(last, 0) == BitsOf(out, 8);
  }

  // ----- decoding

  /** The digits read so far and the scan of what is left make up the whole scan. */
  ghost predicate ScannedSoFar(al: Alphabet, s: seq<Byte>, vs: seq<Byte>, now: Alphabet, rest: seq<Byte>) {
    && ScanDigits(al, s).values == vs + ScanDigits(now, rest).values
    && ScanDigits(al, s).stop == ScanDigits(now, rest).stop
  }

  /** Reading one more digit. */
  lemma {:induction false} ScanStep(al: Alphabet, s: seq<Byte>, vs: seq<Byte>, now: Alphabet, i: nat)
    requires i < |s| && ScannedSoFar(al, s, vs, now, s[i..])
    requires s[i] != PAD && DigitValue(now, s[i]).Some?
    ensures ScannedSoFar(al, s, vs + [DigitValue(now, s[i]).value.0], DigitValue(now, s[i]).value.1, s[i + 1..])
  {
    assert s[i..][1..] == s[i + 1..];
  }

  /** Stopping in front of `s[i]`, or at the end. */
  lemma {:induction false} ScanStop(al: Alphabet, s: seq<Byte>, vs: seq<Byte>, now: Alphabet, i: nat)
    requires i <= |s| && ScannedSoFar(al, s, vs, now, s[i..])
    requires i < |s| ==> s[i] == PAD || DigitValue(now, s[i]).None?
    ensures ScanDigits(al, s).values == vs
    ensures ScanDigits(al, s).stop ==
            if i == |s| then AtEnd else if s[i] == PAD then AtPad(s[i + 1..]) else AtBad
  {
    if i < |s| {
      assert s[i..][1..] == s[i + 1..];
    }
  }

  /** What the loop has written is what cutting the digits read gives. */
  lemma {:induction false} WrittenSoFar(out: seq<Byte>, vs: seq<Byte>, last: Byte, bits: nat)
    requires bits <= 6 && BitsOf(out, 8) + Low(last, bits) == BitsOf(vs, 6)
    ensures CutOctets(BitsOf(vs, 6)) == out
  {
    CutOctetsExact(out, Low(last, bits));
  }

  /** Written so far: the whole bytes of the digits `vs`, with `bits` bits of the last digit carried over. */
  ghost predicate Carried(out: seq<Byte>, vs: seq<Byte>, last: Byte, bits: nat) {
    && last < 64 && (bits == 0 || bits == 2 || bits == 4 || bits == 6)
    && BitsOf(out, 8) + Low(last, bits) == BitsOf(vs, 6)
  }

  /** One digit of the decoding loop: a byte to write, if there are enough bits for one, and the bits left. */
  method TakeDigit(last: Byte, bits: nat, part: Byte, ghost out: seq<Byte>, ghost vs: seq<Byte>)
    returns (byte: Option<Byte>, left: nat)
    requires Carried(out, vs, last, bits) && part < 64
    ensures byte.Some? <==> bits + 6 >= 8
    ensures Carried(if byte.Some? then out + [byte.value] else out, vs + [part], part, left)
  {
    if bits + 6 >= 8 {
      DecodeStep(out, vs, last, part, bits);
      return Some(JoinDigits(last, part, bits)), bits - 2;
    } else {
      CarryStep(out, vs, last, part);
      return None, bits + 6;
    }
  }

  /** `s[..i]` has been read and `out` written. */
  ghost predicate Reading(s: seq<Byte>, al: Alphabet, vs: seq<Byte>, now: Alphabet, last: Byte, bits: nat, i: nat,
                          out: seq<Byte>)
  {
    i <= |s| && ScannedSoFar(al, s, vs, now, s[i..]) && Carried(out, vs, last, bits)
  }

  /** Where reading stops: in front of `s[i]`, because of a bad character, or of padding, or at the end. */
  function StopAt(s: seq<Byte>, i: nat, bad: bool): Stop
    requires i <= |s|
  {
    if bad then AtBad else if i == |s| then AtEnd else AtPad(s[i + 1..])
  }

  lemma {:induction false} ReadStop(s: seq<Byte>, al: Alphabet, vs: seq<Byte>, now: Alphabet, last: Byte, bits: nat, i: nat, out: seq<Byte>,
                 bad: bool)
    requires Reading(s, al, vs, now, last, bits, i, out)
    requires if bad then i < |s| && s[i] != PAD && DigitValue(now, s[i]).None? else i < |s| ==> s[i] == PAD
    ensures out == Written(al, s)
    ensures ScanDigits(al, s).stop == StopAt(s, i, bad)
  {
    ScanStop(al, s, vs, now, i);
    WrittenSoFar(out, vs, last, bits);
  }

  /** One round of the digit loop. */
  method TakeNext(ghost s: seq<Byte>, ghost al: Alphabet, ghost vs: seq<Byte>, ghost now: Alphabet, last: Byte, bits: nat,
                  ghost i: nat, out: seq<Byte>, part: Byte, ghost next: Alphabet)
    returns (left: nat, written: seq<Byte>)
    requires i < |s| && Reading(s, al, vs, now, last, bits, i, out)
    requires s[i] != PAD && DigitValue(now, s[i]) == Some((part, next))
    ensures Reading(s, al, vs + [part], next, part, left, i + 1, written)
  {
    ScanStep(al, s, vs, now, i);
    var byte;
    byte, left := TakeDigit(last, bits, part, out, vs);
    written := if byte.Some? then out + [byte.value] else out;
  }

  /** The digit loop of `decode`; stops at `i`, where `bad` tells a bad character. */
  method ReadDigits(s: seq<Byte>, alphabet: Alphabet) returns (bad: bool, i: nat, out: seq<Byte>)
    ensures i <= |s| && out == Written(alphabet, s)
    ensures ScanDigits(alphabet, s).stop == StopAt(s, i, bad)
  {
    var al := alphabet;
    var last: Byte := 0;
    var bits := 0;
    i, out := 0, [];
    ghost var vs: seq<Byte> := [];
    while i < |s| && s[i] != PAD
      invariant Reading(s, alphabet, vs, al, last, bits, i, out)
    {
      var digit := DigitValue(al, s[i]);
      if digit.None? {
        ReadStop(s, alphabet, vs, al, last, bits, i, out, true);
        return true, i, out;
      }
      var part, next := digit.value.0, digit.value.1;
      bits, out := TakeNext(s, alphabet, vs, al, last, bits, i, out, part, next);
      i := i + 1;
      vs, last, al := vs + [part], part, next;
    }
    ReadStop(s, alphabet, vs, al, last, bits, i, out, false);
    return false, i, out;
  }

  /** `decode`: `ok` is false where the original throws, `out` is what was written until then. */
  method Decode(s: seq<Byte>, alphabet: Alphabet, behavior: Behavior) returns (ok: bool, out: seq<Byte>)
    ensures out == Written(alphabet, s)
    ensures ok <==> Decoded(alphabet, behavior, s) == Ok(out)
  {
    var bad, i;
    bad, i, out := ReadDigits(s, alphabet);
    if bad {
      return false, out;
    }
    ok := PaddingAccepted(s, if i < |s| then i + 1 else i, behavior);
  }

  /** The check of the characters after the first padding character. */
  method PaddingAccepted(s: seq<Byte>, from: nat, behavior: Behavior) returns (ok: bool)
    requires from <= |s|
    ensures ok <==> behavior == Loose || AllPads(s[from..])
  {
    if behavior != Loose {
      var i := from;
      while i < |s|
        invariant from <= i <= |s|
        invariant forall j :: from <= j < i ==> s[j] == PAD
      {
        if s[i] != PAD {
          assert s[from..][i - from] != PAD;
          return false;
        }
        i := i + 1;
      }
    }
    return true;
  }

  /** The buffer `b` holds `size` bytes written and, from there on, what it held at first, after reading `s[..i]`. */
  ghost predicate InPlace(b: seq<Byte>, s: seq<Byte>, al: Alphabet, vs: seq<Byte>, now: Alphabet, last: Byte, bits: nat,
                          i: nat, size: nat)
  {
    && size <= i <= |s| == |b| && |vs| == i
    && b[size..] == s[size..]
    && ScannedSoFar(al, s, vs, now, s[i..])
    && Carried(b[..size], vs, last, bits)
  }

  /** The next unread character is still the one of the input. */
  lemma {:induction false} UnreadKept(b: seq<Byte>, s: seq<Byte>, size: nat, i: nat)
    requires size <= i <= |s| == |b| && b[size..] == s[size..]
    ensures b[i..] == s[i..]
    ensures i < |s| ==> b[i] == s[i]
  {
    assert b[size..][i - size..] == b[i..] && s[size..][i - size..] == s[i..];
    if i < |s| {
      assert b[i] == b[i..][0] && s[i] == s[i..][0];
    }
  }

  /** A write lands in front of the next unread character. */
  lemma {:induction false} WriteBehindRead(out: seq<Byte>, vs: seq<Byte>, last: Byte, bits: nat, part: Byte, byte: Byte, left: nat)
    requires Carried(out, vs, last, bits) && Carried(out + [byte], vs + [part], part, left)
    ensures |out| < |vs| + 1
  {
    assert 8 * |out + [byte]| + left == 6 * |vs + [part]|;
  }

  /** One digit taken, with or without a write. */
  lemma {:induction false} InPlaceStep(b: seq<Byte>, s: seq<Byte>, al: Alphabet, vs: seq<Byte>, now: Alphabet, last: Byte, bits: nat,
                    i: nat, size: nat, part: Byte, next: Alphabet, byte: Option<Byte>, left: nat)
    requires i < |s| && InPlace(b, s, al, vs, now, last, bits, i, size)
    requires s[i] != PAD && DigitValue(now, s[i]) == Some((part, next))
    requires Carried(if byte.Some? then b[..size] + [byte.value] else b[..size], vs + [part], part, left)
    ensures byte.Some? ==>
              && size < i + 1
              && InPlace(b[size := byte.value], s, al, vs + [part], next, part, left, i + 1, size + 1)
    ensures byte.None? ==> InPlace(b, s, al, vs + [part], next, part, left, i + 1, size)
  {
    ScanStep(al, s, vs, now, i);
    if byte.Some? {
      WriteBehindRead(b[..size], vs, last, bits, part, byte.value, left);
      Overwrite(b, s, size, byte.value);
    }
  }

  lemma {:induction false} Overwrite(b: seq<Byte>, s: seq<Byte>, size: nat, byte: Byte)
    requires size < |b| == |s| && b[size..] == s[size..]
    ensures b[size := byte][..size + 1] == b[..size] + [byte]
    ensures b[size := byte][size + 1..] == s[size + 1..]
  {
    assert b[size..][1..] == b[size + 1..] && s[size..][1..] == s[size + 1..];
  }

  /** The loop has stopped: what is written is `Written`. */
  lemma {:induction false} InPlaceStop(b: seq<Byte>, s: seq<Byte>, al: Alphabet, vs: seq<Byte>, now: Alphabet, last: Byte, bits: nat,
                    i: nat, size: nat, bad: bool)
    requires InPlace(b, s, al, vs, now, last, bits, i, size)
    requires if bad then i < |s| && s[i] != PAD && DigitValue(now, s[i]).None? else i < |s| ==> s[i] == PAD
    ensures b[..size] == Written(al, s) && b[size..] == s[size..]
    ensures ScanDigits(al, s).stop == StopAt(s, i, bad)
  {
    ScanStop(al, s, vs, now, i);
    WrittenSoFar(b[..size], vs, last, bits);
  }

  /** One round of the digit loop: a byte is written if there are enough bits for one. */
  method TakeInPlace(a: array<Byte>, ghost s: seq<Byte>, ghost al: Alphabet, ghost vs: seq<Byte>, ghost now: Alphabet,
                     last: Byte, bits: nat, ghost i: nat, size: nat, part: Byte, ghost next: Alphabet)
    returns (left: nat, written: nat)
    requires i < |s| && InPlace(a[..], s, al, vs, now, last, bits, i, size)
    requires s[i] != PAD && DigitValue(now, s[i]) == Some((part, next))
    modifies a
    ensures InPlace(a[..], s, al, vs + [part], next, part, left, i + 1, written)
  {
    var byte;
    byte, left := TakeDigit(last, bits, part, a[..size], vs);
    InPlaceStep(a[..], s, al, vs, now, last, bits, i, size, part, next, byte, left);
    written := size;
    if byte.Some? {
      WriteByte(a, size, byte.value);
      written := size + 1;
    }
  }

  /** The digit loop of `decode_inplace`; stops at `i`, where `bad` tells a bad character. */
  method DigitsInPlace(a: array<Byte>, alphabet: Alphabet) returns (bad: bool, i: nat, size: nat)
    modifies a
    ensures size <= i <= a.Length
    ensures a[..size] == Written(alphabet, old(a[..])) && a[size..] == old(a[..])[size..]
    ensures ScanDigits(alphabet, old(a[..])).stop == StopAt(old(a[..]), i, bad)
  {
    ghost var s := a[..];
    var al := alphabet;
    var last: Byte := 0;
    var bits := 0;
    i, size, bad := 0, 0, false;
    ghost var vs: seq<Byte> := [];
    while i < a.Length && a[i] != PAD && !bad
      invariant InPlace(a[..], s, alphabet, vs, al, last, bits, i, size)
      invariant bad ==> i < |s| && s[i] != PAD && DigitValue(al, s[i]).None?
      decreases a.Length - i, !bad
    {
      UnreadKept(a[..], s, size, i);
      var digit := DigitValue(al, a[i]);
      if digit.None? {
        bad := true;
      } else {
        var part, next := digit.value.0, digit.value.1;
        bits, size := TakeInPlace(a, s, alphabet, vs, al, last, bits, i, size, part, next);
        i := i + 1;
        vs, last, al := vs + [part], part, next;
      }
    }
    UnreadKept(a[..], s, size, i);
    InPlaceStop(a[..], s, alphabet, vs, al, last, bits, i, size, bad);
  }

  /** `decode_inplace`: the same result in the buffer that held the input, and nothing behind the bytes written changes. */
  method DecodeInPlace(a: array<Byte>, alphabet: Alphabet, behavior: Behavior) returns (ok: bool, size: nat)
    modifies a
    ensures size <= a.Length && a[..size] == Written(alphabet, old(a[..])) && a[size..] == old(a[..])[size..]
    ensures ok <==> Decoded(alphabet, behavior, old(a[..])).Ok?
  {
    ghost var s := a[..];
    var bad, i, n := DigitsInPlace(a, alphabet);
    size := n;
    if bad {
      return false, size;
    }
    var from := if i < a.Length then i + 1 else i;
    UnreadKept(a[..], s, size, from);
    ok := PaddingAccepted(a[..], from, behavior);
  }

  method WriteByte(a: array<Byte>, k: nat, b: Byte)
    requires k < a.Length
    modifies a
    ensures a[..] == old(a[..])[k := b]
  {
    a[k] := b;
  }

  // ----- encoding

  /** The digit values of three input bytes. */
  function First(b0: Byte): (v: nat)
    ensures v < 64 && Low(v, 6) == Low(ShiftRight(b0, 2), 6)
  {
    SmallPowers();
    Masked(ShiftRight(b0, 2), 6);
    And(ShiftRight(b0, 2), 0x3f)
  }

  function Second(b0: Byte, b1: Byte): (v: nat)
    ensures v < 64 && Low(v, 6) == Low(b0, 2) + Low(ShiftRight(b1, 4), 4)
  {
    SmallPowers();
    JoinMasked(b0, 2, ShiftRight(b1, 4), 4);
    Or(ShiftLeft(And(b0, 0x3), 4), And(ShiftRight(b1, 4), 0x0f))
  }

  function Third(b1: Byte, b2: Byte): (v: nat)
    ensures v < 64 && Low(v, 6) == Low(b1, 4) + Low(ShiftRight(b2, 6), 2)
  {
    SmallPowers();
    JoinMasked(b1, 4, ShiftRight(b2, 6), 2);
    Or(ShiftLeft(And(b1, 0xf), 2), And(ShiftRight(b2, 6), 0x03))
  }

  function Fourth(b2: Byte): (v: nat)
    ensures v < 64 && Low(v, 6) == Low(b2, 6)
  {
    SmallPowers();
    Masked(b2, 6);
    And(b2, 0x3f)
  }

  /** `j` bits of one number in front of `k` bits of another. */
  lemma {:induction false} JoinMasked(x: nat, j: nat, y: nat, k: nat)
    ensures Low(Or(ShiftLeft(And(x, Pow2(j) - 1), k), And(y, Pow2(k) - 1)), j + k) == Low(x, j) + Low(y, k)
    ensures Or(ShiftLeft(And(x, Pow2(j) - 1), k), And(y, Pow2(k) - 1)) < Pow2(j) * Pow2(k)
  {
    var p, q := And(x, Pow2(j) - 1), And(y, Pow2(k) - 1);
    Masked(x, j);
    Masked(y, k);
    OrDisjoint(p, q, k);
    LowJoin(p, q, j, k);
    JoinBound(p, q, Pow2(j), Pow2(k));
  }

  lemma {:induction false} JoinBound(p: nat, q: nat, m: nat, n: nat)
    requires p < m && q < n
    ensures p * n + q < m * n
  {
    assert (p + 1) * n <= m * n;
  }

  function FourDigits(b0: Byte, b1: Byte, b2: Byte): (vs: seq<Byte>)
    ensures |vs| == 4 && Digits(vs)
  {
    [First(b0), Second(b0, b1), Third(b1, b2), Fourth(b2)]
  }

  /** Four digits hold the bits of three bytes. */
  lemma {:induction false} GroupBits(b0: Byte, b1: Byte, b2: Byte)
    ensures BitsOf(FourDigits(b0, b1, b2), 6) == BitsOf([b0, b1, b2], 8)
  {
    LowSplit(b0, 6, 2);
    LowSplit(b1, 4, 4);
    LowSplit(b2, 2, 6);
    GroupOf(b0, b1, b2, First(b0), Second(b0, b1), Third(b1, b2), Fourth(b2),
            Low(ShiftRight(b0, 2), 6), Low(ShiftRight(b1, 4), 4), Low(ShiftRight(b2, 6), 2));
  }

  lemma {:induction false} GroupOf(b0: Byte, b1: Byte, b2: Byte, v0: Byte, v1: Byte, v2: Byte, v3: Byte,
                x: seq<bool>, y: seq<bool>, z: seq<bool>)
    requires Low(v0, 6) == x && Low(v1, 6) == Low(b0, 2) + y && Low(v2, 6) == Low(b1, 4) + z && Low(v3, 6) == Low(b2, 6)
    requires Low(b0, 8) == x + Low(b0, 2) && Low(b1, 8) == y + Low(b1, 4) && Low(b2, 8) == z + Low(b2, 6)
    ensures BitsOf([v0, v1, v2, v3], 6) == BitsOf([b0, b1, b2], 8)
  {
    BitsOfFour(v0, v1, v2, v3);
    BitsOfThree(b0, b1, b2);
    Regrouped(x, Low(b0, 2), y, Low(b1, 4), z, Low(b2, 6));
  }

  lemma {:induction false} Regrouped(a: seq<bool>, b: seq<bool>, c: seq<bool>, d: seq<bool>, e: seq<bool>, f: seq<bool>)
    ensures a + (b + c) + (d + e) + f == (a + b) + (c + d) + (e + f)
  {
  }

  lemma {:induction false} BitsOfThree(x: Byte, y: Byte, z: Byte)
    ensures BitsOf([x, y, z], 8) == Low(x, 8) + Low(y, 8) + Low(z, 8)
  {
    BitsOfOne(x, 8);
    BitsOfSnoc([x], y, 8);
    BitsOfSnoc([x, y], z, 8);
    assert [x] + [y] == [x, y] && [x, y] + [z] == [x, y, z];
  }

  lemma {:induction false} BitsOfFour(x: Byte, y: Byte, z: Byte, w: Byte)
    ensures BitsOf([x, y, z, w], 6) == Low(x, 6) + Low(y, 6) + Low(z, 6) + Low(w, 6)
  {
    BitsOfOne(x, 6);
    BitsOfSnoc([x], y, 6);
    BitsOfSnoc([x, y], z, 6);
    BitsOfSnoc([x, y, z], w, 6);
    assert [x] + [y] == [x, y] && [x, y] + [z] == [x, y, z] && [x, y, z] + [w] == [x, y, z, w];
  }

  lemma {:induction false} EncodedOf(al: Alphabet, bs: seq<Byte>, vs: seq<Byte>)
    requires CutSextets(BitsOf(bs, 8)) == vs
    ensures Digits(vs) && Encoded(al, bs) == DigitChars(al, vs) + Pads(PadCount(|vs|))
  {
  }

  /** Three bytes are encoded on their own. */
  lemma {:induction false} EncodedGroup(al: Alphabet, b0: Byte, b1: Byte, b2: Byte, rest: seq<Byte>)
    ensures Encoded(al, [b0, b1, b2] + rest) == DigitChars(al, FourDigits(b0, b1, b2)) + Encoded(al, rest)
  {
    var four := FourDigits(b0, b1, b2);
    var vs := CutSextets(BitsOf(rest, 8));
    GroupBits(b0, b1, b2);
    BitsOfConcat([b0, b1, b2], rest, 8);
    CutSextetsConcat(four, BitsOf(rest, 8));
    GroupInFront(al, [b0, b1, b2] + rest, rest, four, vs);
  }

  lemma {:induction false} GroupInFront(al: Alphabet, all: seq<Byte>, rest: seq<Byte>, four: seq<Byte>, vs: seq<Byte>)
    requires |four| == 4 && Digits(four) && CutSextets(BitsOf(rest, 8)) == vs && CutSextets(BitsOf(all, 8)) == four + vs
    ensures Encoded(al, all) == DigitChars(al, four) + Encoded(al, rest)
  {
    EncodedOf(al, all, four + vs);
    EncodedOf(al, rest, vs);
    PadsBehind(al, four, vs);
  }

  lemma {:induction false} PadsBehind(al: Alphabet, four: seq<Byte>, vs: seq<Byte>)
    requires |four| == 4 && Digits(four) && Digits(vs)
    ensures DigitChars(al, four + vs) + Pads(PadCount(|four + vs|)) ==
            DigitChars(al, four) + (DigitChars(al, vs) + Pads(PadCount(|vs|)))
  {
    DigitsOfConcat(al, four, vs);
    assert PadCount(4 + |vs|) == PadCount(|vs|);
    Associate(DigitChars(al, four), DigitChars(al, vs), Pads(PadCount(|vs|)));
  }

  lemma {:induction false} DigitsOfConcat(al: Alphabet, x: seq<Byte>, y: seq<Byte>)
    requires Digits(x) && Digits(y)
    ensures DigitChars(al, x + y) == DigitChars(al, x) + DigitChars(al, y)
  {
  }

  /** A last byte gives two digits. */
  lemma {:induction false} EncodedOne(al: Alphabet, b0: Byte)
    ensures Encoded(al, [b0]) == DigitChars(al, [First(b0), Second(b0, 0)]) + Pads(2)
  {
    GroupBits(b0, 0, 0);
    var four := FourDigits(b0, 0, 0);
    ZeroOctets([b0], 2);
    assert four[..2] == [First(b0), Second(b0, 0)] && [b0] + Blank(2) == [b0, 0, 0];
    HeadBits(four, [b0], 16, 2);
    CutSextetsUnique(four[..2], BitsOf([b0], 8), 4);
  }

  /** Two last bytes give three digits. */
  lemma {:induction false} EncodedTwo(al: Alphabet, b0: Byte, b1: Byte)
    ensures Encoded(al, [b0, b1]) == DigitChars(al, [First(b0), Second(b0, b1), Third(b1, 0)]) + Pads(1)
  {
    GroupBits(b0, b1, 0);
    var four := FourDigits(b0, b1, 0);
    ZeroOctets([b0, b1], 1);
    assert four[..3] == [First(b0), Second(b0, b1), Third(b1, 0)] && [b0, b1] + Blank(1) == [b0, b1, 0];
    HeadBits(four, [b0, b1], 8, 3);
    CutSextetsUnique(four[..3], BitsOf([b0, b1], 8), 2);
  }

  lemma {:induction false} ZeroOctets(bs: seq<Byte>, n: nat)
    ensures BitsOf(bs + Blank(n), 8) == BitsOf(bs, 8) + Zeros(8 * n)
  {
    if n == 0 {
      NothingBehind(bs);
    } else {
      ZeroOctets(bs, n - 1);
      BlankSnoc(bs, n);
      ZeroOctetBehind(bs + Blank(n - 1), BitsOf(bs, 8), 8 * (n - 1));
    }
  }

  lemma {:induction false} BlankSnoc(bs: seq<Byte>, n: nat)
    requires n > 0
    ensures bs + Blank(n) == (bs + Blank(n - 1)) + [0]
  {
  }

  lemma {:induction false} NothingBehind(bs: seq<Byte>)
    ensures BitsOf(bs + Blank(0), 8) == BitsOf(bs, 8) + Zeros(0)
  {
    assert bs + Blank(0) == bs;
  }

  lemma {:induction false} ZeroOctetBehind(bs: seq<Byte>, r: seq<bool>, m: nat)
    requires BitsOf(bs, 8) == r + Zeros(m)
    ensures BitsOf(bs + [0], 8) == r + Zeros(m + 8)
  {
    BitsOfSnoc(bs, 0, 8);
    ZeroBits(8);
    ZerosBehind(r, m, 8);
  }

  lemma {:induction false} ZerosBehind(r: seq<bool>, m: nat, n: nat)
    ensures (r + Zeros(m)) + Zeros(n) == r + Zeros(m + n)
  {
  }

  lemma {:induction false} ZeroBits(k: nat)
    ensures Low(0, k) == Zeros(k)
  {
    if k > 0 {
      ZeroBits(k - 1);
    }
  }

  /** The first `k` digits hold the first `6k` bits. */
  lemma {:induction false} HeadBits(vs: seq<Byte>, bs: seq<Byte>, z: nat, k: nat)
    requires BitsOf(vs, 6) == BitsOf(bs, 8) + Zeros(z) && k <= |vs| && 8 * |bs| <= 6 * k
    ensures BitsOf(vs[..k], 6) == BitsOf(bs, 8) + Zeros(6 * k - 8 * |bs|)
  {
    BitsOfSplit(vs, k, 6);
    HeadOfPadded(BitsOf(vs[..k], 6), BitsOf(vs[k..], 6), BitsOf(bs, 8), z);
  }

  lemma {:induction false} HeadOfPadded(x: seq<bool>, y: seq<bool>, r: seq<bool>, z: nat)
    requires x + y == r + Zeros(z) && |r| <= |x|
    ensures x == r + Zeros(|x| - |r|)
  {
    assert x == (x + y)[..|x|];
  }

  /** The branch of `encode` that has one byte left. */
  method EncodeOne(alphabet: Alphabet, i0: Byte) returns (s: seq<Byte>)
    ensures s == Encoded(alphabet, [i0])
  {
    EncodedOne(alphabet, i0);
    var vs := [First(i0), Second(i0, 0)];
    s := [DigitChar(alphabet, vs[0]), DigitChar(alphabet, vs[1]), PAD, PAD];
  }

  /** The branch of `encode` that has two bytes left. */
  method EncodeTwo(alphabet: Alphabet, i0: Byte, i1: Byte) returns (s: seq<Byte>)
    ensures s == Encoded(alphabet, [i0, i1])
  {
    EncodedTwo(alphabet, i0, i1);
    var vs := [First(i0), Second(i0, i1), Third(i1, 0)];
    s := [DigitChar(alphabet, vs[0]), DigitChar(alphabet, vs[1]), DigitChar(alphabet, vs[2]), PAD];
  }

  /** A whole round of `encode`. */
  method EncodeGroup(alphabet: Alphabet, i0: Byte, i1: Byte, i2: Byte, ghost rest: seq<Byte>) returns (s: seq<Byte>)
    ensures Encoded(alphabet, [i0, i1, i2] + rest) == s + Encoded(alphabet, rest)
  {
    EncodedGroup(alphabet, i0, i1, i2, rest);
    var vs := FourDigits(i0, i1, i2);
    s := [DigitChar(alphabet, vs[0]), DigitChar(alphabet, vs[1]), DigitChar(alphabet, vs[2]), DigitChar(alphabet, vs[3])];
    assert s == DigitChars(alphabet, vs);
  }

  /** `encode`. */
  method Encode(bs: seq<Byte>, alphabet: Alphabet) returns (out: seq<Byte>)
    ensures out == Encoded(alphabet, bs)
  {
    out := [];
    var i := 0;
    while i < |bs|
      invariant i <= |bs| && out + Encoded(alphabet, bs[i..]) == Encoded(alphabet, bs)
    {
      if i + 1 == |bs| {
        assert bs[i..] == [bs[i]];
        var last := EncodeOne(alphabet, bs[i]);
        return out + last;
      }
      if i + 2 == |bs| {
        assert bs[i..] == [bs[i], bs[i + 1]];
        var last := EncodeTwo(alphabet, bs[i], bs[i + 1]);
        return out + last;
      }
      var four := EncodeGroup(alphabet, bs[i], bs[i + 1], bs[i + 2], bs[i + 3..]);
      assert bs[i..] == [bs[i], bs[i + 1], bs[i + 2]] + bs[i + 3..];
      Associate(out, four, Encoded(alphabet, bs[i + 3..]));
      out := out + four;
      i := i + 3;
    }
    assert bs[i..] == [] && Encoded(alphabet, []) == [];
  }
}
