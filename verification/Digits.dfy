/** Positional notation: the digits of a number in a base, most significant first, and back. */
module Digits {

  /** `n / base` and `n % base` with what the solver needs to know about them. */
  lemma Quotient(n: nat, base: nat)
    requires base >= 2
    ensures n == n / base * base + n % base && 0 <= n % base < base
    ensures 0 <= n / base && (n >= base ==> 1 <= n / base < n)
  {
    var q, r := n / base, n % base;
    assert n == base * q + r;
    if q < 0 { ProductAtMost(base, q, -1); }
    if q == 0 { assert base * q == 0; }
    if q >= 1 { ProductAtLeast(base, q, 2); }
  }

  lemma ProductAtMost(a: int, b: int, c: int)
    requires a >= 0 && b <= c
    ensures a * b <= a * c
  {
    assert a * c == a * b + a * (c - b);
    assert a * (c - b) >= 0;
  }

  lemma ProductAtLeast(a: int, b: int, c: int)
    requires a >= c && b >= 0
    ensures a * b >= c * b
  {
    assert a * b == c * b + (a - c) * b;
    assert (a - c) * b >= 0;
  }

  function Of(n: nat, base: nat): (d: seq<nat>)
    requires base >= 2
    ensures |d| >= 1
  {
    if n < base then [n] else
    Quotient(n, base);
    Of(n / base, base) + [n % base]
  }

  function Value(d: seq<nat>, base: nat): nat {
    if d == [] then 0 else Push(Value(d[..|d| - 1], base), d[|d| - 1], base)
  }

  /** One more digit at the end. */
  function Push(v: nat, x: nat, base: nat): nat {
    v * base + x
  }

  lemma ValuePush(d: seq<nat>, x: nat, base: nat)
    ensures Value(d + [x], base) == Push(Value(d, base), x, base)
  {
    assert (d + [x])[..|d|] == d;
  }

  /** Reading the digits back gives the number; they are digits, and the first one is 0 only for 0. */
  lemma {:induction false} ValueOf(n: nat, base: nat)
    requires base >= 2
    ensures Value(Of(n, base), base) == n
    ensures forall i | 0 <= i < |Of(n, base)| :: Of(n, base)[i] < base
    ensures Of(n, base)[0] == 0 ==> n == 0
  {
    Quotient(n, base);
    if n >= base {
      var q := n / base;
      ValueOf(q, base);
      ValuePush(Of(q, base), n % base, base);
    } else {
      assert Value([n], base) == Push(Value([n][..0], base), n, base);
      assert Push(0, n, base) == n;
    }
  }

  function Power(base: nat, k: nat): (p: nat)
    requires base >= 1
    ensures p >= 1
  {
    if k == 0 then 1 else
    var p := Power(base, k - 1);
    ProductAtLeast(base, p, 1);
    base * p
  }

  /** n has at most k digits exactly when it is below base to the k. */
  lemma {:induction false} DigitCount(n: nat, base: nat, k: nat)
    requires base >= 2 && k >= 1
    ensures |Of(n, base)| <= k <==> n < Power(base, k)
  {
    if k == 1 {
      assert Power(base, 1) == base * Power(base, 0);
    } else if n >= base {
      Quotient(n, base);
      DigitCount(n / base, base, k - 1);
      QuotientBelow(n, base, Power(base, k - 1));
    } else {
      var p := Power(base, k - 1);
      ProductAtMost(base, 1, p);
    }
  }

  lemma QuotientBelow(n: nat, base: nat, p: nat)
    requires base >= 2
    ensures n / base < p <==> n < base * p
  {
    Quotient(n, base);
    var q := n / base;
    if q < p {
      ProductAtMost(base, q + 1, p);
      assert base * (q + 1) == base * q + base;
    } else {
      ProductAtMost(base, p, q);
    }
  }
}
