// Quotients of reals against a bound.
module Ratios {
  lemma Positive(a: real, r: real)
    requires r > 0.0 && a > 0.0
    ensures a * r > 0.0
  {}

  // Products by a positive number keep the order.
  lemma Times(a: real, b: real, r: real, p: real, q: real)
    requires r > 0.0 && a * r == p && b * r == q
    ensures a <= b <==> p <= q
  {
    if a > b {
      Positive(a - b, r);
    }
    if a < b {
      Positive(b - a, r);
    }
  }

  lemma QuotientBack(t: real, n: real)
    requires n > 0.0
    ensures (t / n) * n == t
  {}

  lemma QuotientAtLeast(t: real, n: real, bound: real)
    requires n > 0.0
    ensures t / n >= bound <==> t >= bound * n
  {
    var q := t / n;
    assert q * n == t;
    Times(bound, q, n, bound * n, t);
  }

  lemma QuotientAtMost(t: real, n: real, bound: real)
    requires n > 0.0
    ensures t / n <= bound <==> t <= bound * n
  {
    var q := t / n;
    assert q * n == t;
    Times(q, bound, n, t, bound * n);
  }

  lemma QuotientsApart(p: real, q: real, r: real)
    requires r > 0.0 && p - q <= 2.0 * r
    ensures p / r - q / r <= 2.0
  {
    var x, y := p / r, q / r;
    assert x * r == p;
    assert y * r == q;
    assert (y + 2.0) * r == q + 2.0 * r;
    Times(x, y + 2.0, r, p, q + 2.0 * r);
  }

  lemma QuotientPositive(t: real, n: real)
    requires t > 0.0 && n > 0.0
    ensures t / n > 0.0
  {
    QuotientAtMost(t, n, 0.0);
  }
}
