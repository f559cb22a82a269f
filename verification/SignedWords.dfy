/** Numbers of 64 bits with a sign, which wrap. */
module SignedWords {
  const MODULUS := 0x1_0000_0000_0000_0000

  /** A number as a signed one of 64 bits. */
  function Wrap64(n: int): (r: int)
    ensures -0x8000_0000_0000_0000 <= r < 0x8000_0000_0000_0000
  {
    (n + 0x8000_0000_0000_0000) % 0x1_0000_0000_0000_0000 - 0x8000_0000_0000_0000
  }

  lemma {:induction false} WrapInside(n: int)
    ensures Wrap64(n) == n <==> -(MODULUS / 2) <= n < MODULUS / 2
  {
  }

  lemma {:induction false} WrapOver(n: int)
    requires MODULUS / 2 <= n < MODULUS / 2 + MODULUS
    ensures Wrap64(n) == n - MODULUS
  {
    WrapShift(n, 1);
    WrapInside(n - MODULUS);
  }

  lemma {:induction false} WrapShift(n: int, m: int)
    ensures Wrap64(n - MODULUS * m) == Wrap64(n)
  {
    ModShift(n + MODULUS / 2, m, MODULUS);
  }

  lemma {:induction false} ModShift(n: int, m: int, d: int)
    requires d > 0
    ensures (n - d * m) % d == n % d
  {
    var x, y := n - d * m, n;
    assert x == d * (x / d) + x % d && y == d * (y / d) + y % d;
    SmallMultipleIsZero(x / d + m - y / d, y % d - x % d, d);
  }

  lemma {:induction false} SmallMultipleIsZero(k: int, r: int, d: int)
    requires d > 0 && d * k == r && -d < r < d
    ensures k == 0
  {
    assert k >= 1 ==> d * k >= d;
    assert k <= -1 ==> d * k <= -d;
  }

  lemma {:induction false} WrapProduct(n: int, m: int)
    ensures Wrap64(Wrap64(n) * m) == Wrap64(n * m)
  {
    var q := (n + MODULUS / 2) / MODULUS;
    assert Wrap64(n) == n - MODULUS * q;
    Distribute(n, q, m, MODULUS);
    WrapShift(n * m, q * m);
  }

  lemma {:induction false} Distribute(n: int, q: int, m: int, d: int)
    ensures (n - d * q) * m == n * m - d * (q * m)
  {
  }

  /** Going from `x` to `y` by a wrapped difference. */
  lemma {:induction false} WrapStep(x: int, y: int)
    ensures Wrap64(x + Wrap64(y - x)) == Wrap64(y)
  {
    var q := (y - x + MODULUS / 2) / MODULUS;
    assert Wrap64(y - x) == y - x - MODULUS * q;
    WrapShift(y, q);
  }

  lemma {:induction false} WrapTwice(n: int)
    ensures Wrap64(Wrap64(n)) == Wrap64(n)
  {
    WrapInside(Wrap64(n));
  }

  lemma {:induction false} WrapSmaller(n: nat)
    ensures Wrap64(n) == n <==> n < MODULUS / 2
    ensures n >= MODULUS / 2 ==> Wrap64(n) <= n - MODULUS
  {
  }
}
