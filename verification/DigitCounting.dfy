/** `count_digits` of include/thirdparty/spdlog/details/format.h:641-680: the form with a bit trick, the loop it
  replaces, and what both are for.
 */
module DigitCounting {
  import opened PowersOfTwo
  import Digits
  import Modular

  const POWERS_OF_10: seq<nat> := [
    0, 10, 100, 1000, 10000, 100000, 1000000, 10000000, 100000000, 1000000000, 10000000000, 100000000000,
    1000000000000, 10000000000000, 100000000000000, 1000000000000000, 10000000000000000, 100000000000000000,
    1000000000000000000, 10000000000000000000]

  /** `64 - __builtin_clzll(m)` for m > 0: how many binary digits m has. */
  function BitLength(m: nat): nat {
    if m == 0 then 0 else 1 + BitLength(m / 2)
  }

  lemma {:induction false} BitLengthIs(m: nat, b: nat)
    requires m > 0
    ensures BitLength(m) <= b <==> m < Pow2(b)
  {
    if b == 0 {
    } else if m == 1 {
      assert BitLength(1) == 1 && Pow2(b) == 2 * Pow2(b - 1);
    } else {
      BitLengthIs(m / 2, b - 1);
      assert Pow2(b) == 2 * Pow2(b - 1);
    }
  }

  /** `(64 - clz(n | 1)) * 1233 >> 12`. */
  function Estimate(n: nat): nat {
    BitLength(Or(n, 1)) * 1233 / 4096
  }

  lemma OrOne(n: nat)
    ensures Or(n, 1) == (if n % 2 == 0 then n + 1 else n)
  {
    OrZero(n / 2);
  }

  /** Setting the last bit does not make a number longer, except 0. */
  lemma EstimateBits(n: nat)
    ensures BitLength(Or(n, 1)) == if n == 0 then 1 else BitLength(n)
  {
    OrOne(n);
    assert Or(n, 1) / 2 == n / 2;
    assert BitLength(Or(n, 1)) == 1 + BitLength(n / 2);
  }

  // ---------- the table of both kinds of powers ----------

  /** The largest number of bits for which the estimate is still t. */
  function LastBits(t: nat): nat
    requires t <= 19
  {
    if t == 19 then 64 else (4096 * (t + 1) + 1232) / 1233 - 1
  }

  lemma Eight(k: nat)
    ensures Pow2(k + 3) == 8 * Pow2(k) && Pow2(k + 4) == 16 * Pow2(k)
  {
    assert Pow2(k + 2) == 4 * Pow2(k);
    assert Pow2(k + 3) == 2 * Pow2(k + 2);
  }

  /** The powers of two at the ends of the ranges, up to 2^33. */
  lemma LowPowers()
    ensures Pow2(3) == 8 && Pow2(6) == 64 && Pow2(9) == 512 && Pow2(13) == 8192 && Pow2(16) == 65536
    ensures Pow2(19) == 524288 && Pow2(23) == 8388608 && Pow2(26) == 67108864 && Pow2(29) == 536870912
    ensures Pow2(33) == 8589934592
  {
    Eight(3); Eight(6); Eight(9); Eight(13); Eight(16); Eight(19); Eight(23); Eight(26); Eight(29);
  }

  /** And from there to 2^64. */
  lemma HighPowers()
    ensures Pow2(36) == 68719476736 && Pow2(39) == 549755813888 && Pow2(43) == 8796093022208
    ensures Pow2(46) == 70368744177664 && Pow2(49) == 562949953421312 && Pow2(53) == 9007199254740992
    ensures Pow2(56) == 72057594037927936 && Pow2(59) == 576460752303423488
    ensures Pow2(63) == 9223372036854775808 && Pow2(64) == 18446744073709551616
  {
    LowPowers();
    Eight(33); Eight(36); Eight(39); Eight(43); Eight(46); Eight(49); Eight(53); Eight(56); Eight(59);
    assert Pow2(64) == 2 * Pow2(63);
  }

  /** The ends of the ranges. */
  lemma LastBitsTable(t: nat)
    requires t <= 19
    ensures LastBits(t) == [3, 6, 9, 13, 16, 19, 23, 26, 29, 33, 36, 39, 43, 46, 49, 53, 56, 59, 63, 64][t]
  {
    if t < 5 {
      assert t == 0 || t == 1 || t == 2 || t == 3 || t == 4;
    } else if t < 10 {
      assert t == 5 || t == 6 || t == 7 || t == 8 || t == 9;
    } else if t < 15 {
      assert t == 10 || t == 11 || t == 12 || t == 13 || t == 14;
    } else {
      assert t == 15 || t == 16 || t == 17 || t == 18 || t == 19;
    }
  }

  /** Below 2 to the LastBits(t) there are at most t + 1 decimal digits. */
  lemma UpperEnd(t: nat)
    requires t <= 19
    ensures t < 19 ==> Pow2(LastBits(t)) <= POWERS_OF_10[t + 1]
    ensures t == 19 ==> Pow2(LastBits(t)) <= 10 * POWERS_OF_10[19]
  {
    if t <= 4 { UpperEnd0(t); } else if t <= 9 { UpperEnd5(t); } else if t <= 14 { UpperEnd10(t); } else { UpperEnd15(t); }
  }

  lemma UpperEnd0(t: nat)
    requires 0 <= t <= 4
    ensures Pow2(LastBits(t)) <= POWERS_OF_10[t + 1]
  {
    LastBitsTable(t);
    LowPowers();
    assert t == 0 || t == 1 || t == 2 || t == 3 || t == 4;
  }

  lemma UpperEnd5(t: nat)
    requires 5 <= t <= 9
    ensures Pow2(LastBits(t)) <= POWERS_OF_10[t + 1]
  {
    LastBitsTable(t);
    LowPowers();
    assert t == 5 || t == 6 || t == 7 || t == 8 || t == 9;
  }

  lemma UpperEnd10(t: nat)
    requires 10 <= t <= 14
    ensures Pow2(LastBits(t)) <= POWERS_OF_10[t + 1]
  {
    LastBitsTable(t);
    HighPowers();
    assert t == 10 || t == 11 || t == 12 || t == 13 || t == 14;
  }

  lemma UpperEnd15(t: nat)
    requires 15 <= t <= 19
    ensures t < 19 ==> Pow2(LastBits(t)) <= POWERS_OF_10[t + 1]
    ensures t == 19 ==> Pow2(LastBits(t)) <= 10 * POWERS_OF_10[19]
  {
    LastBitsTable(t);
    HighPowers();
    assert t == 15 || t == 16 || t == 17 || t == 18 || t == 19;
  }

  /** From 2 to the LastBits(t - 1) on there are at least t decimal digits. */
  lemma LowerEnd(t: nat)
    requires 2 <= t <= 19
    ensures Pow2(LastBits(t - 1)) >= POWERS_OF_10[t - 1]
  {
    if t <= 5 { LowerEnd2(t); } else if t <= 10 { LowerEnd6(t); } else if t <= 15 { LowerEnd11(t); } else { LowerEnd16(t); }
  }

  lemma LowerEnd2(t: nat)
    requires 2 <= t <= 5
    ensures Pow2(LastBits(t - 1)) >= POWERS_OF_10[t - 1]
  {
    LastBitsTable(t - 1);
    LowPowers();
    assert t == 2 || t == 3 || t == 4 || t == 5;
  }

  lemma LowerEnd6(t: nat)
    requires 6 <= t <= 10
    ensures Pow2(LastBits(t - 1)) >= POWERS_OF_10[t - 1]
  {
    LastBitsTable(t - 1);
    LowPowers();
    assert t == 6 || t == 7 || t == 8 || t == 9 || t == 10;
  }

  lemma LowerEnd11(t: nat)
    requires 11 <= t <= 15
    ensures Pow2(LastBits(t - 1)) >= POWERS_OF_10[t - 1]
  {
    LastBitsTable(t - 1);
    HighPowers();
    assert t == 11 || t == 12 || t == 13 || t == 14 || t == 15;
  }

  lemma LowerEnd16(t: nat)
    requires 16 <= t <= 19
    ensures Pow2(LastBits(t - 1)) >= POWERS_OF_10[t - 1]
  {
    LastBitsTable(t - 1);
    HighPowers();
    assert t == 16 || t == 17 || t == 18 || t == 19;
  }

  /** The table holds the powers of ten, and 0 for the first. */
  lemma {:induction false} TableIsPowers(t: nat)
    requires 1 <= t <= 19
    ensures POWERS_OF_10[t] == Digits.Power(10, t)
  {
    if t == 1 {
      assert Digits.Power(10, 1) == 10 * Digits.Power(10, 0);
    } else {
      TableIsPowers(t - 1);
      TableSteps(t);
      assert Digits.Power(10, t) == 10 * Digits.Power(10, t - 1);
    }
  }

  lemma TableSteps(t: nat)
    requires 2 <= t <= 19
    ensures POWERS_OF_10[t] == 10 * POWERS_OF_10[t - 1]
  {
  }

  // ---------- the two functions ----------

  /** The number of bits picks the estimate. */
  lemma EstimateRange(b: nat)
    requires 1 <= b <= 64
    ensures var t := b * 1233 / 4096;
            t <= 19 && b <= LastBits(t) && (t >= 1 ==> b > LastBits(t - 1))
  {
  }

  /** `count_digits`, with the bit trick: the number of decimal digits, for every 64-bit number. */
  function CountDigits(n: nat): (count: nat)
    requires n < WORD_SIZE
    ensures count == |Digits.Of(n, 10)|
  {
    EstimateIsClose(n);
    var t := Estimate(n);
    t - (if n < POWERS_OF_10[t] then 1 else 0) + 1
  }

  lemma EstimateIsClose(n: nat)
    requires n < WORD_SIZE
    ensures Estimate(n) <= 19
    ensures var t := Estimate(n); t - (if n < POWERS_OF_10[t] then 1 else 0) + 1 == |Digits.Of(n, 10)|
  {
    EstimateBits(n);
    if n > 0 {
      var b := BitLength(n);
      HighPowers();
      BitLengthIs(n, 64);
      BitLengthIs(n, 0);
      EstimateRange(b);
      var t := Estimate(n);
      BitLengthIs(n, LastBits(t));
      UpperEnd(t);
      if t >= 1 { BitLengthIs(n, LastBits(t - 1)); }
      if t >= 2 { LowerEnd(t); }
      DigitsBetween(n, t);
    }
  }

  /** From one power of ten to two further the next one decides. */
  lemma DigitsBetween(n: nat, t: nat)
    requires 0 < n && t <= 19
    requires t >= 2 ==> n >= POWERS_OF_10[t - 1]
    requires n < if t < 19 then POWERS_OF_10[t + 1] else 10 * POWERS_OF_10[19]
    ensures t - (if n < POWERS_OF_10[t] then 1 else 0) + 1 == |Digits.Of(n, 10)|
  {
    if t >= 1 {
      TableIsPowers(t);
      Digits.DigitCount(n, 10, t);
    }
    if t >= 2 {
      TableIsPowers(t - 1);
      Digits.DigitCount(n, 10, t - 1);
    }
    if t < 19 { TableIsPowers(t + 1); } else { assert Digits.Power(10, 20) == 10 * Digits.Power(10, 19); }
    Digits.DigitCount(n, 10, t + 1);
  }

  lemma FourDigits(n: nat)
    ensures n >= 10000 ==> |Digits.Of(n, 10)| == |Digits.Of(n / 10000, 10)| + 4
    ensures 1000 <= n < 10000 ==> |Digits.Of(n, 10)| == 4
    ensures 100 <= n < 1000 ==> |Digits.Of(n, 10)| == 3
    ensures 10 <= n < 100 ==> |Digits.Of(n, 10)| == 2
    ensures n < 10 ==> |Digits.Of(n, 10)| == 1
  {
    var n1 := n / 10;
    var n2 := n1 / 10;
    var n3 := n2 / 10;
    assert n / 10000 == n3 / 10;
    if n >= 10 { assert |Digits.Of(n, 10)| == |Digits.Of(n1, 10)| + 1; }
    if n >= 100 { assert |Digits.Of(n1, 10)| == |Digits.Of(n2, 10)| + 1; }
    if n >= 1000 { assert |Digits.Of(n2, 10)| == |Digits.Of(n3, 10)| + 1; }
    if n >= 10000 { assert |Digits.Of(n3, 10)| == |Digits.Of(n3 / 10, 10)| + 1; }
  }

  /** The loop used where the compiler has no such builtin. */
  method CountDigitsLoop(value: nat) returns (count: nat)
    ensures count == |Digits.Of(value, 10)|
  {
    var n := value;
    count := 1;
    while true
      invariant count + |Digits.Of(n, 10)| == 1 + |Digits.Of(value, 10)|
      decreases n
    {
      FourDigits(n);
      if n < 10 { return count; }
      if n < 100 { return count + 1; }
      if n < 1000 { return count + 2; }
      if n < 10000 { return count + 3; }
      n := n / 10000;
      count := count + 4;
    }
  }

  /** Both forms agree. */
  method BothForms(n: nat) returns (trick: nat, loop: nat)
    requires n < WORD_SIZE
    ensures trick == loop
  {
    trick := CountDigits(n);
    loop := CountDigitsLoop(n);
  }
}
