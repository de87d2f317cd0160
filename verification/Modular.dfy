/** The few facts about remainders that the ring buffers need. */
module Modular {

  lemma AtLeastOneTimes(n: int, k: int)
    requires n >= 0 && k >= 1
    ensures n * k >= n
  {
    assert n * k == n * (k - 1) + n;
    assert n * (k - 1) >= 0;
  }

  /** Quotient and remainder are the only ones. */
  lemma Unique(x: int, n: int, q: int, r: int)
    requires n > 0 && x == n * q + r && 0 <= r < n
    ensures x / n == q && x % n == r
  {
    var q', r' := x / n, x % n;
    assert x == n * q' + r';
    var d := q - q';
    assert n * d == r' - r by {
      assert n * d == n * q - n * q';
    }
    if d >= 1 { AtLeastOneTimes(n, d); }
    if d <= -1 { AtLeastOneTimes(n, -d); }
    assert d == 0;
  }

  /** Two numbers less than n apart never have the same remainder. */
  lemma Distinct(p: int, q: int, n: int)
    requires n > 0 && p % n == q % n && -n < p - q < n
    ensures p == q
  {
    var d := p / n - q / n;
    assert p - q == n * d by {
      assert p == n * (p / n) + p % n;
      assert q == n * (q / n) + q % n;
    }
    if d >= 1 { AtLeastOneTimes(n, d); }
    if d <= -1 { AtLeastOneTimes(n, -d); }
  }

  /** Remainders do not see multiples of n. */
  lemma AddMultiple(x: int, n: int, k: int)
    requires n > 0
    ensures (x + n * k) % n == x % n
  {
    assert x == n * (x / n) + x % n;
    assert x + n * k == n * (x / n + k) + x % n;
    Unique(x + n * k, n, x / n + k, x % n);
  }

  /** A remainder may be taken early. */
  lemma AddInside(x: int, k: int, n: int)
    requires n > 0
    ensures (x % n + k) % n == (x + k) % n
  {
    assert x == n * (x / n) + x % n;
    assert x % n + k == x + k + n * -(x / n);
    AddMultiple(x + k, n, -(x / n));
  }
}
