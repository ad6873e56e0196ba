/** Facts about multiplication and division that several modules use. */
module Arithmetic {
  lemma MulMono(a: int, b: int, c: int, d: int)
    requires 0 <= a <= b && 0 <= c <= d
    ensures 0 <= a * c <= b * d
  {
    assert a * c <= b * c;
    assert b * c <= b * d;
  }

  lemma MulAssociates(a: int, b: int, c: int)
    ensures a * (b * c) == (a * b) * c
  {
  }

  /** Quotient and remainder are determined. */
  lemma ModUnique(v: int, m: int, q: int, r: int)
    requires m > 0 && v == q * m + r && 0 <= r < m
    ensures v / m == q && v % m == r
  {
    var d := v / m - q;
    assert v == (v / m) * m + v % m;
    assert d * m == r - v % m;
    assert d >= 1 ==> d * m >= m;
    assert d <= -1 ==> d * m <= -m;
  }

  lemma DivUnique(x: int, k: int, q: int)
    requires k > 0 && q * k <= x < q * k + k
    ensures x / k == q
  {
    ModUnique(x, k, q, x - q * k);
  }

  /** The one remainder below the divisor. */
  lemma RemainderUnique(n: int, d: int, r: int)
    requires d > 0 && 0 <= r < d && (n - r) % d == 0
    ensures r == n % d
  {
    var q := (n - r) / d;
    assert n - r == q * d + (n - r) % d;
    ModUnique(n, d, q, r);
  }
}
