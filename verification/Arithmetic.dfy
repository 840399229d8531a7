/** Products and quotients of integers, one fact at a time. */
module Arithmetic {
  lemma DivideMonotone(a: int, b: int, d: int)
    requires a <= b && d > 0
    ensures a / d <= b / d
  {
    var q, r := a / d, b / d;
    assert a == q * d + a % d && b == r * d + b % d;
    assert (q - r) * d == q * d - r * d;
    if q > r { TimesAtLeast(q - r, d); }
  }

  lemma TimesAtLeast(k: int, d: int)
    requires k >= 1 && d > 0
    ensures k * d >= d
  {
    assert k * d == d + (k - 1) * d;
    TimesNonNegative(k - 1, d);
  }

  lemma TimesNonNegative(a: int, b: int)
    requires a >= 0 && b >= 0
    ensures a * b >= 0
  {
  }

  lemma TimesMonotone(a: int, b: int, c: int)
    requires a <= b && c >= 0
    ensures a * c <= b * c
  {
    TimesNonNegative(b - a, c);
    assert (b - a) * c == b * c - a * c;
  }

  lemma DivideCancels(a: int, d: int, m: int)
    requires d > 0 && m > 0
    ensures (m * a) / (m * d) == a / d
  {
    var q, r := a / d, a % d;
    TimesMonotone(r + 1, d, m);
    TimesNonNegative(m, r);
    assert m * a == q * (m * d) + m * r by {
      assert a == q * d + r;
      assert m * (q * d + r) == q * (m * d) + m * r;
    }
    assert 0 <= m * r < m * d by {
      assert (r + 1) * m == m * r + m;
      assert d * m == m * d;
    }
    QuotientIs(m * a, m * d, q, m * r);
  }

  lemma QuotientIs(a: int, d: int, q: int, r: int)
    requires d > 0 && a == q * d + r && 0 <= r < d
    ensures a / d == q && a % d == r
  {
    var p, s := a / d, a % d;
    assert (p - q) * d == r - s by {
      assert p * d + s == q * d + r;
      assert (p - q) * d == p * d - q * d;
    }
    assert (q - p) * d == -((p - q) * d);
    if p > q { TimesAtLeast(p - q, d); }
    if q > p { TimesAtLeast(q - p, d); }
  }

  lemma DividesNonNegative(a: int, d: int)
    requires a >= 0 && d > 0
    ensures a / d >= 0
  {
  }

  lemma SmallRemainder(x: nat, n: nat)
    requires x < n
    ensures x % n == x
  {
    QuotientIs(x, n, 0, x);
  }

  lemma RemainderInRange(x: int, n: nat)
    requires n > 0
    ensures 0 <= x % n < n && x % n % n == x % n
  {
    SmallRemainder(x % n, n);
  }

  /** Reducing a summand first does not change the sum's remainder. */
  lemma RemainderOfSum(s: nat, h: nat, n: nat)
    requires n > 0
    ensures (s + h % n) % n == (s + h) % n
  {
    var a := s + h % n;
    var p, q, r := a / n, h / n, a % n;
    assert a == p * n + r && h == q * n + h % n;
    assert s + h == (p + q) * n + r by {
      assert (p + q) * n == p * n + q * n;
    }
    QuotientIs(s + h, n, p + q, r);
  }
}
