// Modular arithmetic and sequence facts shared by the ring models.
module Arith {

  const U16: int := 0x1_0000
  const U32: int := 0x1_0000_0000
  const U64: int := 0x1_0000_0000_0000_0000

  function Pow2(k: nat): (p: nat)
    ensures p >= 1
  {
    if k == 0 then 1 else 2 * Pow2(k - 1)
  }

  lemma {:induction false} Pow2Add(a: nat, b: nat)
    ensures Pow2(a + b) == Pow2(a) * Pow2(b)
  {
    if a > 0 {
      Pow2Add(a - 1, b);
      assert a - 1 + b == a + b - 1;
      MulAssoc(2, Pow2(a - 1), Pow2(b));
    }
  }

  lemma PowerValues()
    ensures Pow2(15) == 0x8000 && Pow2(16) == U16 && Pow2(31) == 0x8000_0000 && Pow2(32) == U32
  {
    Pow2Add(8, 7);
    Pow2Add(8, 8);
    Pow2Add(16, 15);
    Pow2Add(16, 16);
  }

  lemma {:induction false} Pow2Monotone(a: nat, b: nat)
    requires a <= b
    ensures Pow2(a) <= Pow2(b)
  {
    if a < b {
      Pow2Monotone(a, b - 1);
    }
  }

  lemma MulAssoc(a: int, b: int, c: int)
    ensures (a * b) * c == a * (b * c)
  {
  }

  /** A power of two divides every larger power of two. */
  lemma Pow2Divides(a: nat, b: nat)
    requires a <= b
    ensures Pow2(b) % Pow2(a) == 0
  {
    Pow2Add(b - a, a);
    MulMod(Pow2(b - a), Pow2(a));
  }

  lemma MulMod(q: nat, n: nat)
    requires n > 0
    ensures (q * n) % n == 0
  {
    DivModUnique(q * n, n, q, 0);
  }

  /** Quotient and remainder are the only pair with the division equation. */
  lemma DivModUnique(x: int, n: int, q: int, r: int)
    requires n > 0 && x == q * n + r && 0 <= r < n
    ensures x / n == q && x % n == r
  {
    NoGap(q - x / n, n, x % n - r);
  }

  lemma Distribute(a: int, b: int, n: int)
    ensures (a + b) * n == a * n + b * n
  {
  }

  /** The only multiple of n strictly between -n and n is zero. */
  lemma NoGap(k: int, n: int, d: int)
    requires n > 0 && k * n == d && -n < d < n
    ensures k == 0 && d == 0
  {
    if k >= 1 {
      MulAtLeast(k, n);
    } else if k <= -1 {
      MulAtLeast(-k, n);
    }
  }

  lemma MulMonotone(a: nat, b: nat, n: nat)
    requires a <= b
    ensures a * n <= b * n
  {
    Distribute(b - a, a, n);
  }

  lemma MulAtLeast(k: int, n: int)
    requires k >= 1 && n > 0
    ensures k * n >= n
  {
  }

  /** Reducing first modulo a multiple of n changes nothing modulo n. */
  lemma ModMod(x: int, m: int, n: int)
    requires n > 0 && m > 0 && m % n == 0
    ensures (x % m) % n == x % n
  {
    var q, c, r := x / m, m / n, x % m;
    var q', s := r / n, r % n;
    MulAssoc(q, c, n);
    Distribute(q * c, q', n);
    DivModUnique(x, n, q * c + q', s);
  }

  lemma ModAdd(a: int, b: int, n: int)
    requires n > 0
    ensures (a % n + b) % n == (a + b) % n
  {
    var q, r := (a % n + b) / n, (a % n + b) % n;
    assert a + b == (a / n + q) * n + r;
    DivModUnique(a + b, n, a / n + q, r);
  }

  /** Counters closer than n that agree modulo n are equal. */
  lemma ModInjective(a: int, b: int, n: int)
    requires n > 0 && a % n == b % n && -n < a - b < n
    ensures a == b
  {
    NoGap(a / n - b / n, n, a - b);
  }

  /** The distance between two wrapped counters, when the real distance fits. */
  lemma WrappedDistance(a: int, b: int, m: int)
    requires m > 0 && 0 <= a - b < m
    ensures (a % m - b % m) % m == a - b
  {
    var k := a / m - b / m;
    assert a % m - b % m == (-k) * m + (a - b);
    DivModUnique(a % m - b % m, m, -k, a - b);
  }

  lemma ModSmall(a: int, n: int)
    requires 0 <= a < n
    ensures a % n == a
  {
    DivModUnique(a, n, 0, a);
  }

  lemma ModAddMultiple(a: int, n: int)
    requires n > 0
    ensures (a + n) % n == a % n
  {
    DivModUnique(a + n, n, a / n + 1, a % n);
  }
}
