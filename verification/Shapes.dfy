/** Row-major index arithmetic over tensor shapes. */
module Shapes {
  /** The number of elements a shape holds. */
  function Size(s: seq<nat>): nat {
    if |s| == 0 then 1 else Size(s[..|s| - 1]) * s[|s| - 1]
  }

  predicate InBounds(s: seq<nat>, c: seq<nat>) {
    |c| == |s| && forall d :: 0 <= d < |s| ==> c[d] < s[d]
  }

  /** Position of the element at coordinates `c` in the flat row-major data. */
  function Offset(s: seq<nat>, c: seq<nat>): (k: nat)
    requires InBounds(s, c)
    ensures k < Size(s)
  {
    if |s| == 0 then 0
    else
      var k := Offset(s[..|s| - 1], c[..|s| - 1]);
      Horner(k, Size(s[..|s| - 1]), c[|s| - 1], s[|s| - 1]);
      k * s[|s| - 1] + c[|s| - 1]
  }

  lemma {:induction false} Horner(k: nat, m: nat, i: nat, n: nat)
    requires k < m && i < n
    ensures k * n + i < m * n
  {
    assert (k + 1) * n <= m * n;
  }

  /** The coordinates of flat position `k`. */
  function CoordsOf(s: seq<nat>, k: nat): (c: seq<nat>)
    requires k < Size(s)
    ensures InBounds(s, c)
  {
    if |s| == 0 then []
    else
      var n := s[|s| - 1];
      Quotient(k, Size(s[..|s| - 1]), n);
      CoordsOf(s[..|s| - 1], k / n) + [k % n]
  }

  lemma {:induction false} Quotient(k: nat, m: nat, n: nat)
    requires k < m * n
    ensures n > 0 && k / n < m && k % n < n && k == k / n * n + k % n
  {
  }

  lemma {:induction false} DivMod(q: nat, n: nat, i: nat)
    requires i < n
    ensures (q * n + i) / n == q && (q * n + i) % n == i
  {
    var k := q * n + i;
    assert (q - k / n) * n == k % n - i;
    SmallMultiple(q - k / n, n);
  }

  lemma {:induction false} SmallMultiple(d: int, n: int)
    requires -n < d * n < n
    ensures d == 0
  {
  }

  lemma {:induction false} OffsetOfCoords(s: seq<nat>, k: nat)
    requires k < Size(s)
    ensures Offset(s, CoordsOf(s, k)) == k
  {
    if s != [] {
      var n := s[|s| - 1];
      Quotient(k, Size(s[..|s| - 1]), n);
      OffsetOfCoords(s[..|s| - 1], k / n);
      assert CoordsOf(s, k)[..|s| - 1] == CoordsOf(s[..|s| - 1], k / n);
    }
  }

  lemma {:induction false} CoordsOfOffset(s: seq<nat>, c: seq<nat>)
    requires InBounds(s, c)
    ensures CoordsOf(s, Offset(s, c)) == c
  {
    if s != [] {
      var n := s[|s| - 1];
      var q := Offset(s[..|s| - 1], c[..|s| - 1]);
      DivMod(q, n, c[|s| - 1]);
      CoordsOfOffset(s[..|s| - 1], c[..|s| - 1]);
    }
  }

  /** Appending an axis multiplies the size; the last coordinate is the remainder. */
  lemma {:induction false} SizeSnoc(s: seq<nat>, n: nat)
    ensures Size(s + [n]) == Size(s) * n
  {
    assert (s + [n])[..|s|] == s;
  }

  lemma {:induction false} OffsetSnoc(s: seq<nat>, c: seq<nat>, n: nat, j: nat)
    requires InBounds(s, c) && j < n
    ensures InBounds(s + [n], c + [j]) && Offset(s + [n], c + [j]) == Offset(s, c) * n + j
  {
    assert (s + [n])[..|s|] == s && (c + [j])[..|c|] == c;
  }

  lemma {:induction false} SizeOfTwo(x: nat, y: nat)
    ensures Size([x, y]) == x * y
  {
    SizeSnoc([], x);
    SizeSnoc([x], y);
    assert [] + [x] == [x] && [x] + [y] == [x, y];
  }

  lemma {:induction false} SizeOfThree(x: nat, y: nat, z: nat)
    ensures Size([x, y, z]) == x * y * z
  {
    SizeOfTwo(x, y);
    SizeSnoc([x, y], z);
    assert [x, y] + [z] == [x, y, z];
  }

  lemma {:induction false} SizeConcat(s: seq<nat>, t: seq<nat>)
    ensures Size(s + t) == Size(s) * Size(t)
  {
    if t == [] {
      assert s + t == s;
    } else {
      var t' := t[..|t| - 1];
      SizeConcat(s, t');
      assert (s + t)[..|s + t| - 1] == s + t';
      assert Size(s + t) == Size(s + t') * t[|t| - 1];
      Associate(Size(s), Size(t'), t[|t| - 1]);
    }
  }

  lemma {:induction false} Associate(x: int, y: int, z: int)
    ensures x * y * z == x * (y * z)
  {
  }

  function Ones(n: nat): (s: seq<nat>)
    ensures |s| == n
  {
    seq(n, _ => 1)
  }

  lemma {:induction false} SizeOnes(s: seq<nat>)
    requires forall d :: 0 <= d < |s| ==> s[d] == 1
    ensures Size(s) == 1
  {
    if s != [] {
      SizeOnes(s[..|s| - 1]);
    }
  }

  /** A shape of size one has only unit axes. */
  lemma {:induction false} SizeOneIsOnes(s: seq<nat>)
    requires Size(s) == 1
    ensures forall d :: 0 <= d < |s| ==> s[d] == 1
  {
    if s != [] {
      UnitProduct(Size(s[..|s| - 1]), s[|s| - 1]);
      SizeOneIsOnes(s[..|s| - 1]);
    }
  }

  lemma {:induction false} UnitProduct(x: nat, y: nat)
    requires x * y == 1
    ensures x == 1 && y == 1
  {
  }

  lemma {:induction false} SizeCons(n: nat, s: seq<nat>)
    ensures Size([n] + s) == n * Size(s)
  {
    SizeConcat([n], s);
    SizeSnoc([], n);
    assert [] + [n] == [n];
  }

  /** A new first axis is the most significant one. */
  lemma {:induction false} OffsetCons(n: nat, s: seq<nat>, i: nat, c: seq<nat>)
    requires i < n && InBounds(s, c)
    ensures InBounds([n] + s, [i] + c)
    ensures Offset([n] + s, [i] + c) == i * Size(s) + Offset(s, c)
  {
    var m := |s|;
    if m == 0 {
      assert ([n] + s)[..0] == [] && ([i] + c)[..0] == [];
    } else {
      OffsetCons(n, s[..m - 1], i, c[..m - 1]);
      assert ([n] + s)[..m] == [n] + s[..m - 1] && ([i] + c)[..m] == [i] + c[..m - 1];
      Spread(i, Size(s[..m - 1]), Offset(s[..m - 1], c[..m - 1]), s[m - 1]);
    }
  }

  lemma {:induction false} Spread(i: int, z: int, k: int, y: int)
    ensures (i * z + k) * y == i * (z * y) + k * y
  {
  }
}
