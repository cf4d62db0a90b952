// Facts about division the other modules use.
module Arithmetic {
  function Min(x: nat, y: nat): nat { if x <= y then x else y }

  /** Quotient and remainder are unique. */
  lemma DivIs(n: int, d: int, q: int, r: int)
    requires 0 <= r < d && n == q * d + r
    ensures n / d == q && n % d == r
  {
    var e := n / d - q;
    assert n == (n / d) * d + n % d;
    assert (n / d) * d - q * d == e * d;
    assert e >= 1 ==> e * d >= d;
    assert e <= -1 ==> e * d <= -d;
  }

  lemma DivMonotonic(n: nat, m: nat, d: nat)
    requires n <= m && d > 0
    ensures n / d <= m / d
  {
    var e := n / d - m / d;
    assert (n / d) * d - (m / d) * d == e * d;
    assert e >= 1 ==> e * d >= d;
  }

  lemma MulMonotonic(a: nat, x: int, y: int)
    requires x <= y
    ensures a * x <= a * y
  {
  }

  lemma RealMul(a: real, x: real, y: real)
    requires a > 0.0 && x < y
    ensures a * x < a * y
  {
  }

  /** Comparing a ratio is comparing with the multiple of its denominator. */
  lemma RatioIs(b: real, a: real, c: real)
    requires a > 0.0
    ensures b / a < c <==> b < a * c
    ensures b / a > c <==> b > a * c
  {
    var x := b / a;
    assert a * x == b;
    if x < c {
      RealMul(a, x, c);
    } else if c < x {
      RealMul(a, c, x);
    }
  }

  lemma Reciprocal(x: real, n: real)
    requires 1.0 <= x <= n
    ensures 0.0 < 1.0 / x <= 1.0 && 1.0 <= 1.0 / x * n
  {
    var y := 1.0 / x;
    assert y * x == 1.0;
    if x < n {
      RealMul(y, x, n);
    }
  }

  /** The quotient grows by one exactly at the multiples. */
  lemma DivNext(d: nat, n: nat)
    requires d > 0
    ensures (n + 1) / d == n / d + (if (n + 1) % d == 0 then 1 else 0)
  {
    var q, r := n / d, n % d;
    assert n == q * d + r;
    if r == d - 1 {
      assert n + 1 == (q + 1) * d;
      DivIs(n + 1, d, q + 1, 0);
    } else {
      assert n + 1 == q * d + (r + 1);
      DivIs(n + 1, d, q, r + 1);
    }
  }

  /** The largest multiple of d up to m. */
  lemma LastMultiple(n: nat, m: nat, d: nat)
    requires n <= m && d > 0
    ensures n % d == 0 ==> n <= m / d * d
    ensures (m / d * d) % d == 0 && m / d * d <= m
  {
    DivMonotonic(n, m, d);
    assert n == n / d * d + n % d;
    MulMonotonic(d, n / d, m / d);
    DivIs(m / d * d, d, m / d, 0);
  }
}
