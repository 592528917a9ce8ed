/** Facts about integer division that the solver does not find alone. */
module Arithmetic {

  /** Integer division is determined by quotient and remainder. */
  lemma DivUnique(x: nat, d: nat, q: nat, r: nat)
    requires d > 0 && 0 <= r < d && x == d * q + r
    ensures x / d == q && x % d == r
  {
    var q0, r0 := x / d, x % d;
    assert x == d * q0 + r0;
    if q > q0 {
      MulStep(d, q0, q);
    } else if q < q0 {
      MulStep(d, q, q0);
    }
  }

  /** A larger multiplier adds at least one more `d`. */
  lemma MulStep(d: nat, a: nat, b: nat)
    requires a < b
    ensures d * a + d <= d * b
  {
    var k: nat := b - a - 1;
    assert d * b == d * a + d * k + d;
    assert d * k >= 0;
  }

  /** Subtracting the divisor once does not change the remainder. */
  lemma ModSubDivisor(n: nat, k: nat)
    requires k > 0 && n >= k
    ensures (n - k) % k == n % k
  {
    var q, r := (n - k) / k, (n - k) % k;
    assert n == k * (q + 1) + r;
    DivUnique(n, k, q + 1, r);
  }

  /** A multiple of d leaves no remainder. */
  lemma MultipleMod(k: nat, d: nat)
    requires d > 0
    ensures (k * d) % d == 0
  {
    DivUnique(k * d, d, k, 0);
  }

  /** Adding c multiples of the divisor adds c to the quotient. */
  lemma DivAddMultiple(a: nat, p: nat, c: nat)
    requires p > 0
    ensures (p * c + a) / p == c + a / p
  {
    assert a == p * (a / p) + a % p;
    assert p * c + a == p * (c + a / p) + a % p;
    DivUnique(p * c + a, p, c + a / p, a % p);
  }

  /** An even addend leaves the parity unchanged. */
  lemma ModEvenAdd(e: nat, t: nat)
    ensures (2 * e + t) % 2 == t % 2
  {
    assert 2 * e + t == 2 * (e + t / 2) + t % 2;
    DivUnique(2 * e + t, 2, e + t / 2, t % 2);
  }

  /** Dividing by a, then by b, is dividing by a * b. */
  lemma DivDiv(x: nat, a: nat, b: nat)
    requires a > 0 && b > 0
    ensures x / (a * b) == x / a / b
  {
    var q1, r1 := x / a, x % a;
    var q2, r2 := q1 / b, q1 % b;
    assert x == a * q1 + r1;
    assert q1 == b * q2 + r2;
    MulAssoc(a, b, q2);
    MulDistrib(a, b * q2, r2);
    assert x == (a * b) * q2 + (a * r2 + r1);
    MulStep(a, r2, b);
    MulStep(a, 0, b);
    MulNonneg(a, r2);
    DivUnique(x, a * b, q2, a * r2 + r1);
  }

  lemma MulNonneg(a: nat, b: nat)
    ensures a * b >= 0
  {
  }

  lemma MulAssoc(a: int, b: int, c: int)
    ensures a * (b * c) == (a * b) * c
  {
  }

  lemma MulDistrib(a: int, b: int, c: int)
    ensures a * (b + c) == a * b + a * c
  {
  }

  /** 2 to the power `n`. */
  function Pow2(n: nat): (p: nat)
    ensures p >= 1
  {
    if n == 0 then 1 else 2 * Pow2(n - 1)
  }

  lemma Pow2Eight()
    ensures Pow2(8) == 0x100
  {
  }

  /** Powers of two multiply by adding exponents. */
  lemma {:induction false} PowSplit(a: nat, b: nat)
    ensures Pow2(a + b) == Pow2(a) * Pow2(b)
  {
    if a > 0 {
      PowSplit(a - 1, b);
    }
  }

  lemma MulAtLeastTwice(p: nat, q: nat)
    requires p >= 1 && q >= 2
    ensures p * q >= 2 * p
  {
  }
}
