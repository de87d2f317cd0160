/** Bitwise arithmetic on unsigned numbers, and the rounding of include/thirdparty/readerwriterqueue.h:519-531.

  `Or`, `And`, `Bit` and `Shr` read a number by its binary digits.
 */
module PowersOfTwo {
  import Modular

  function Pow2(k: nat): (p: nat)
    ensures p >= 1
  {
    if k == 0 then 1 else 2 * Pow2(k - 1)
  }

  ghost predicate IsPow2(n: nat) {
    exists k: nat :: n == Pow2(k)
  }

  function Or(a: nat, b: nat): nat {
    if a == 0 && b == 0 then 0
    else 2 * Or(a / 2, b / 2) + (if a % 2 == 1 || b % 2 == 1 then 1 else 0)
  }

  function And(a: nat, b: nat): nat {
    if a == 0 || b == 0 then 0
    else 2 * And(a / 2, b / 2) + (if a % 2 == 1 && b % 2 == 1 then 1 else 0)
  }

  predicate Bit(x: nat, i: nat) {
    if i == 0 then x % 2 == 1 else Bit(x / 2, i - 1)
  }

  function Shr(x: nat, k: nat): nat {
    if k == 0 then x else Shr(x / 2, k - 1)
  }

  // ---------- masks ----------

  lemma HalveRemainder(x: nat, p: nat)
    requires p > 0
    ensures x % (2 * p) == 2 * (x / 2 % p) + x % 2 && x / (2 * p) == x / 2 / p
  {
    var q, r := x / 2 / p, x / 2 % p;
    assert x / 2 == p * q + r;
    assert 2 * (p * q) == (2 * p) * q;
    Modular.Unique(x, 2 * p, q, 2 * r + x % 2);
  }

  /** Masking with one less than a power of two takes the remainder. */
  lemma {:induction false} MaskIsRemainder(x: nat, k: nat)
    ensures And(x, Pow2(k) - 1) == x % Pow2(k)
  {
    if k > 0 {
      var p := Pow2(k - 1);
      MaskIsRemainder(x / 2, k - 1);
      HalveRemainder(x, p);
      AndOdd(x, p - 1);
      assert Pow2(k) == 2 * p && 2 * (p - 1) + 1 == 2 * p - 1;
    }
  }

  lemma AndOdd(x: nat, m: nat)
    ensures And(x, 2 * m + 1) == 2 * And(x / 2, m) + x % 2
  {
    assert (2 * m + 1) / 2 == m && (2 * m + 1) % 2 == 1;
  }

  lemma {:induction false} AndSelf(n: nat)
    ensures And(n, n) == n
  {
    if n > 0 { AndSelf(n / 2); }
  }

  /** A number without common digits with its predecessor is a power of two, and the other way round. */
  lemma {:induction false} PowerTest(n: nat)
    requires n >= 1
    ensures And(n, n - 1) == 0 <==> IsPow2(n)
  {
    var m := n / 2;
    if n == 1 {
      assert Pow2(0) == 1;
    } else if n % 2 == 0 {
      PowerTest(m);
      assert (n - 1) / 2 == m - 1;
      PowerHalf(n);
    } else {
      AndSelf(m);
      PowerOdd(n);
    }
  }

  lemma PowerHalf(n: nat)
    requires n >= 2 && n % 2 == 0
    ensures IsPow2(n) <==> IsPow2(n / 2)
  {
    if k: nat :| n == Pow2(k) {
      assert Pow2(k - 1) == n / 2;
    }
    if k: nat :| n / 2 == Pow2(k) {
      assert Pow2(k + 1) == n;
    }
  }

  lemma PowerOdd(n: nat)
    requires n >= 2 && n % 2 == 1
    ensures !IsPow2(n)
  {
    forall k: nat ensures n != Pow2(k) {
      if k > 0 { assert Pow2(k) == 2 * Pow2(k - 1); }
    }
  }

  /** Shifting right divides. */
  lemma {:induction false} ShrDivides(x: nat, k: nat)
    ensures Shr(x, k) == x / Pow2(k)
  {
    if k > 0 {
      ShrDivides(x / 2, k - 1);
      HalveRemainder(x, Pow2(k - 1));
    }
  }

  /** Or-ing in bits below a multiple of a power of two adds them. */
  lemma {:induction false} OrAdds(m: nat, x: nat, k: nat)
    requires x < Pow2(k)
    ensures Or(m * Pow2(k), x) == m * Pow2(k) + x
  {
    if k == 0 {
      OrZero(m);
      assert m * Pow2(k) == m;
    } else {
      var p := Pow2(k - 1);
      assert m * Pow2(k) == 2 * (m * p);
      OrAdds(m, x / 2, k - 1);
      OrEven(m * p, x);
    }
  }

  lemma OrEven(a: nat, x: nat)
    ensures Or(2 * a, x) == 2 * Or(a, x / 2) + x % 2
  {
  }

  lemma {:induction false} OrZero(m: nat)
    ensures Or(m, 0) == m
  {
    if m > 0 { OrZero(m / 2); }
  }

  // ---------- digits ----------

  lemma {:induction false} OrBit(a: nat, b: nat, i: nat)
    ensures Bit(Or(a, b), i) <==> Bit(a, i) || Bit(b, i)
  {
    if a == 0 && b == 0 {
      ZeroBit(i);
    } else if i > 0 {
      OrBit(a / 2, b / 2, i - 1);
    }
  }

  lemma {:induction false} ZeroBit(i: nat)
    ensures !Bit(0, i)
  {
    if i > 0 { ZeroBit(i - 1); }
  }

  lemma {:induction false} ShrBit(x: nat, k: nat, i: nat)
    ensures Bit(Shr(x, k), i) <==> Bit(x, i + k)
  {
    if k > 0 {
      ShrBit(x / 2, k - 1, i);
      assert Bit(x, i + k) == Bit(x / 2, i + (k - 1));
    }
  }

  /** A number below 2^k has no digit at k or above. */
  lemma {:induction false} NoBitAbove(x: nat, k: nat, i: nat)
    requires x < Pow2(k) && i >= k
    ensures !Bit(x, i)
  {
    if k == 0 {
      ZeroBit(i);
    } else {
      NoBitAbove(x / 2, k - 1, i - 1);
    }
  }

  lemma {:induction false} BitsBelow(x: nat, k: nat)
    requires forall i: nat | i >= k :: !Bit(x, i)
    ensures x < Pow2(k)
  {
    if k == 0 {
      if x > 0 { TopBit(x); }
    } else {
      forall i: nat | i >= k - 1 ensures !Bit(x / 2, i) { assert !Bit(x, i + 1); }
      BitsBelow(x / 2, k - 1);
    }
  }

  lemma {:induction false} TopBit(x: nat)
    requires x > 0
    ensures exists i: nat :: Bit(x, i)
  {
    if x % 2 == 1 {
      assert Bit(x, 0);
    } else {
      TopBit(x / 2);
      var i: nat :| Bit(x / 2, i);
      assert Bit(x, i + 1);
    }
  }

  lemma {:induction false} MoreBits(x: nat, y: nat)
    requires forall i: nat | Bit(x, i) :: Bit(y, i)
    ensures x <= y
  {
    if x > 0 {
      forall i: nat | Bit(x / 2, i) ensures Bit(y / 2, i) { assert Bit(x, i + 1) ==> Bit(y, i + 1); }
      if y > 0 { MoreBits(x / 2, y / 2); } else { TopBit(x); var i: nat :| Bit(x, i); ZeroBit(i); }
      assert Bit(x, 0) ==> Bit(y, 0);
    }
  }

  /** Digits that are all ones from some place down make one less than a power of two. */
  lemma {:induction false} AllOnes(y: nat)
    requires forall i: nat | Bit(y, i + 1) :: Bit(y, i)
    ensures IsPow2(y + 1)
  {
    if y == 0 {
      assert Pow2(0) == 1;
    } else {
      Downward(y);
      forall i: nat | Bit(y / 2, i + 1) ensures Bit(y / 2, i) { assert Bit(y, i + 1 + 1) ==> Bit(y, i + 1); }
      AllOnes(y / 2);
      var k: nat :| y / 2 + 1 == Pow2(k);
      assert y + 1 == Pow2(k + 1);
    }
  }

  lemma Downward(y: nat)
    requires y > 0 && forall i: nat | Bit(y, i + 1) :: Bit(y, i)
    ensures y % 2 == 1
  {
    TopBit(y);
    var i: nat :| Bit(y, i);
    while i > 0
      invariant Bit(y, i)
    {
      assert Bit(y, i - 1 + 1);
      i := i - 1;
    }
  }

  // ---------- ceilToPow2 ----------

  const WORD: nat := 64
  const WORD_SIZE: nat := 0x1_0000_0000_0000_0000

  lemma WordSize()
    ensures Pow2(WORD) == WORD_SIZE && Pow2(WORD - 1) == WORD_SIZE / 2
  {
    Times256(0); Times256(8); Times256(16); Times256(24);
    Times256(32); Times256(40); Times256(48); Times256(56);
    assert Pow2(WORD) == 2 * Pow2(WORD - 1);
  }

  lemma Times256(k: nat)
    ensures Pow2(k + 8) == 256 * Pow2(k)
  {
    assert Pow2(k + 4) == 16 * Pow2(k) by {
      assert Pow2(k + 2) == 4 * Pow2(k);
      assert Pow2(k + 4) == 4 * Pow2(k + 2);
    }
    assert Pow2(k + 6) == 4 * Pow2(k + 4);
    assert Pow2(k + 8) == 4 * Pow2(k + 6);
  }

  ghost predicate LeastPow2(x: nat, r: nat) {
    IsPow2(r) && x <= r && forall p: nat | IsPow2(p) && x <= p :: r <= p
  }

  /** Digit i of y is set when one of the digits i to i + w - 1 of x is. */
  ghost predicate Smeared(y: nat, x: nat, w: nat) {
    forall i: nat :: Bit(y, i) <==> SomeBit(x, i, w)
  }

  ghost predicate SomeBit(x: nat, i: nat, w: nat) {
    exists j: nat :: i <= j < i + w && Bit(x, j)
  }

  lemma SmearMore(y: nat, x: nat, w: nat)
    requires Smeared(y, x, w)
    ensures Smeared(Or(y, Shr(y, w)), x, 2 * w)
  {
    var z := Or(y, Shr(y, w));
    forall i: nat ensures Bit(z, i) <==> SomeBit(x, i, 2 * w) {
      OrBit(y, Shr(y, w), i);
      ShrBit(y, w, i);
      assert Bit(y, i) <==> SomeBit(x, i, w);
      assert Bit(y, i + w) <==> SomeBit(x, i + w, w);
      if SomeBit(x, i, 2 * w) {
        var j: nat :| i <= j < i + 2 * w && Bit(x, j);
        if j < i + w { assert SomeBit(x, i, w); } else { assert SomeBit(x, i + w, w); }
      }
    }
  }

  lemma Smearing1(x: nat)
    ensures Smeared(x, x, 1)
  {
    forall i: nat ensures Bit(x, i) <==> SomeBit(x, i, 1) {
      if Bit(x, i) { assert i <= i < i + 1 && Bit(x, i); }
    }
  }

  lemma SmearedAll(y: nat, x: nat)
    requires x < Pow2(WORD) && Smeared(y, x, WORD)
    ensures LeastPow2(x + 1, y + 1)
  {
    forall i: nat | Bit(y, i + 1) ensures Bit(y, i) {
      assert SomeBit(x, i + 1, WORD);
      var j: nat :| i + 1 <= j < i + 1 + WORD && Bit(x, j);
      if j >= WORD { NoBitAbove(x, WORD, j); }
      assert i <= j < i + WORD;
      assert SomeBit(x, i, WORD);
    }
    AllOnes(y);
    forall i: nat | Bit(x, i) ensures Bit(y, i) {
      assert i <= i < i + WORD && Bit(x, i);
      assert SomeBit(x, i, WORD);
    }
    MoreBits(x, y);
    forall p: nat | IsPow2(p) && x + 1 <= p ensures y + 1 <= p {
      var k: nat :| p == Pow2(k);
      SmearedBelow(y, x, k);
    }
  }

  lemma SmearedBelow(y: nat, x: nat, k: nat)
    requires x < Pow2(k) && Smeared(y, x, WORD)
    ensures y < Pow2(k)
  {
    forall i: nat | i >= k ensures !Bit(y, i) {
      if Bit(y, i) {
        assert SomeBit(x, i, WORD);
        var j: nat :| i <= j < i + WORD && Bit(x, j);
        NoBitAbove(x, k, j);
      }
    }
    BitsBelow(y, k);
  }

  /** `x |= x >> w`. */
  method SmearBy(x: nat, w: nat, ghost start: nat) returns (z: nat)
    requires Smeared(x, start, w)
    ensures Smeared(z, start, 2 * w)
  {
    SmearMore(x, start, w);
    z := Or(x, Shr(x, w));
  }

  /** `ceilToPow2` on 64-bit words: the least power of two that is at least x. For x above 2^63 that power
      does not fit and the result wraps to 0; zero itself goes to 0 as well. */
  method CeilToPow2(x0: nat) returns (r: nat)
    requires x0 < WORD_SIZE
    ensures 0 < x0 <= WORD_SIZE / 2 ==> LeastPow2(x0, r)
    ensures x0 == 0 || x0 > WORD_SIZE / 2 ==> r == 0
  {
    var x: nat := if x0 == 0 then WORD_SIZE - 1 else x0 - 1;
    ghost var start := x;
    Smearing1(x);
    x := SmearBy(x, 1, start);
    x := SmearBy(x, 2, start);
    x := SmearBy(x, 4, start);
    var i: nat := 1;
    while i < 8
      invariant i == 1 || i == 2 || i == 4 || i == 8
      invariant Smeared(x, start, 8 * i)
    {
      x := SmearBy(x, 8 * i, start);
      i := 2 * i;
    }
    Rounded(x, start, x0);
    r := if x + 1 == WORD_SIZE then 0 else x + 1;
  }

  /** What the smeared word says about the original one. */
  lemma Rounded(x: nat, start: nat, x0: nat)
    requires x0 < WORD_SIZE && start == (if x0 == 0 then WORD_SIZE - 1 else x0 - 1) && Smeared(x, start, WORD)
    ensures LeastPow2(start + 1, x + 1) && x < WORD_SIZE
    ensures x0 == 0 || x0 > WORD_SIZE / 2 ==> x == WORD_SIZE - 1
    ensures 0 < x0 <= WORD_SIZE / 2 ==> start + 1 == x0 && x + 1 <= WORD_SIZE / 2
  {
    WordSize();
    SmearedAll(x, start);
    SmearedBelow(x, start, WORD);
    if 0 < x0 <= WORD_SIZE / 2 {
      assert IsPow2(WORD_SIZE / 2);
    } else {
      var k: nat :| x + 1 == Pow2(k);
      if k < WORD { Monotone(k, WORD - 1); }
      if k > WORD { Monotone(WORD + 1, k); }
    }
  }

  lemma {:induction false} Monotone(j: nat, k: nat)
    requires j <= k
    ensures Pow2(j) <= Pow2(k)
  {
    if j < k { Monotone(j, k - 1); }
  }
}
