// Remainders of integers.
module Modular {
  lemma LeByMul(a: int, b: int, n: int)
    requires n >= 1 && a * n < (b + 1) * n
    ensures a <= b
  {}

  lemma SameRemainder(a: int, b: int, n: int, q: int)
    requires n > 0 && b == a + q * n
    ensures b % n == a % n
  {
    var r, t := a % n, a / n;
    assert a == t * n + r;
    assert b == (t + q) * n + r by { assert (t + q) * n == t * n + q * n; }
    Remainder(b, n, t + q, r);
  }

  lemma Remainder(b: int, n: int, t: int, r: int)
    requires n > 0 && b == t * n + r && 0 <= r < n
    ensures b % n == r && b / n == t
  {
    var u, v := b / n, b % n;
    assert u * n + v == t * n + r;
    LeByMul(u, t, n);
    LeByMul(t, u, n);
  }
}
