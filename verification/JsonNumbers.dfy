/** Which texts are numbers, and what they mean, spelled out: a sign, digits, a point and an exponent. The parser of
  include/thirdparty/picojson.h:768-798 asks `strtoimax` first and `strtod` after it, so besides the numbers of
  section 6 of RFC 8259 it takes leading zeros, and a point with digits on one side only.
 */
module JsonNumbers {
  import Digits
  import opened JsonText
  import opened JsonParser

  type Digit = d: nat | d < 10

  datatype Sign = NoSign | PlusSign | MinusSign

  datatype Exponent = NoExponent | Exponent(upper: bool, sign: Sign, digits: seq<Digit>)

  datatype Number = Number(minus: bool, whole: seq<Digit>, point: bool, fraction: seq<Digit>, exponent: Exponent)

  /** It starts with a digit or a minus sign, and there is a digit wherever one is needed. */
  predicate NumberOk(n: Number) {
    && (n.minus || n.whole != [])
    && (!n.point ==> n.fraction == [])
    && (n.whole != [] || n.fraction != [])
    && (n.exponent.Exponent? ==> n.exponent.digits != [])
  }

  function SignText(sign: Sign): Bytes {
    match sign
    case NoSign => []
    case PlusSign => [0x2b]
    case MinusSign => [0x2d]
  }

  function ExponentText(e: Exponent): Bytes {
    match e
    case NoExponent => []
    case Exponent(upper, sign, digits) => [if upper then 0x45 else 0x65] + (SignText(sign) + Ascii(digits))
  }

  /** What stands behind the whole digits. */
  function FractionText(n: Number): Bytes {
    (if n.point then [0x2e] + Ascii(n.fraction) else []) + ExponentText(n.exponent)
  }

  function NumberText(n: Number): Bytes {
    (if n.minus then [0x2d] else []) + (Ascii(n.whole) + FractionText(n))
  }

  function Magnitude(n: Number): nat {
    Digits.Value(n.whole, 10)
  }

  function Signed(n: Number): int {
    var m: int := Magnitude(n);
    if n.minus then -m else m
  }

  /** Digits only, of a number that fits 64 bits. */
  predicate Integral(n: Number) {
    !n.point && n.exponent == NoExponent && -0x8000_0000_0000_0000 <= Signed(n) <= 0x7fff_ffff_ffff_ffff
  }

  function NumberMeaning(n: Number): Json {
    if Integral(n) then Int(Signed(n)) else Double(NumberText(n))
  }

  // ---------- every such text is accepted ----------

  lemma {:induction false} DigitsEndAt(t: Bytes, i: nat, k: nat)
    requires i <= k <= |t| && (forall j | i <= j < k :: IsDigit(t[j])) && (k == |t| || !IsDigit(t[k]))
    ensures DigitsEnd(t, i) == k
    decreases k - i
  {
    if i < k { DigitsEndAt(t, i + 1, k); }
  }

  predicate DigitsIn(t: Bytes, i: nat, k: nat)
    requires k <= |t|
  {
    forall j | i <= j < k :: IsDigit(t[j])
  }

  predicate NumberBytes(t: Bytes) {
    forall j | 0 <= j < |t| :: IsNumberByte(t[j])
  }

  /** An exponent from `end` to the end of the text. */
  predicate ExponentAt(t: Bytes, end: nat) {
    && end < |t| && (t[end] == LOWER_E || t[end] == UPPER_E)
    && var exp := if end + 1 < |t| && (t[end + 1] == MINUS || t[end + 1] == PLUS) then end + 2 else end + 1;
       exp < |t| && DigitsEnd(t, exp) == |t|
  }

  /** `strtod` reads the text to its end, if its parts end at these places. */
  lemma DoubleFrom(t: Bytes, start: nat, whole: nat, end: nat)
    requires t != [] && start == if t[0] == MINUS || t[0] == PLUS then 1 else 0
    requires whole == DigitsEnd(t, start) && end == if whole < |t| && t[whole] == POINT then DigitsEnd(t, whole + 1) else whole
    ensures IsDoubleText(t) <==> (whole > start || end > whole + 1) && (end == |t| || ExponentAt(t, end))
  {
  }

  lemma DigitsBehind(before: Bytes, d: seq<Digit>, after: Bytes)
    ensures var t := before + (Ascii(d) + after);
            DigitsIn(t, |before|, |before| + |d|) && t[|before| + |d|..] == after && t[|before|..|before| + |d|] == Ascii(d)
  {
    var t := before + (Ascii(d) + after);
    forall j | |before| <= j < |before| + |d| ensures IsDigit(t[j]) {
      assert t[j] == Ascii(d)[j - |before|];
    }
  }

  lemma ExponentEnds(e: Exponent, t: Bytes, end: nat)
    requires end <= |t| && t[end..] == ExponentText(e) && (e.Exponent? ==> e.digits != [])
    ensures if e == NoExponent then end == |t| else ExponentAt(t, end)
  {
    if e.Exponent? {
      var text := ExponentText(e);
      var before := t[..end] + [text[0]] + SignText(e.sign);
      assert t == t[..end] + t[end..];
      assert t == before + (Ascii(e.digits) + []);
      DigitsBehind(before, e.digits, []);
      assert t[end] == text[0];
      assert e.sign == NoSign ==> IsDigit(t[end + 1]);
      assert e.sign != NoSign ==> t[end + 1] == SignText(e.sign)[0];
      DigitsEndAt(t, |before|, |t|);
    }
  }

  /** Where the digits before the point end. */
  lemma WholePart(n: Number, t: Bytes)
    requires NumberOk(n) && t == NumberText(n)
    ensures var start := if n.minus then 1 else 0;
            var whole := start + |n.whole|;
            && t != [] && (if n.minus then t[0] == MINUS else IsDigit(t[0])) && whole <= |t|
            && t[whole..] == FractionText(n)
            && DigitsEnd(t, start) == whole && (n.point <==> whole < |t| && t[whole] == POINT)
  {
    var sign := if n.minus then [0x2d] else [];
    var whole := |sign| + |n.whole|;
    var more := FractionText(n);
    DigitsBehind(sign, n.whole, more);
    assert n.point ==> more != [] && more[0] == POINT;
    assert !n.point ==> more == ExponentText(n.exponent) by { assert [] + ExponentText(n.exponent) == ExponentText(n.exponent); }
    assert |more| == |t| - whole && (whole < |t| ==> t[whole] == more[0]);
    DigitsEndAt(t, |sign|, whole);
  }

  lemma Shift(a: Bytes, b: Bytes, c: Bytes, d: Bytes)
    ensures a + (b + c + d) == a + b + (c + d)
  {
  }

  lemma PartEnds(t: Bytes, i: nat, end: nat, e: Exponent)
    requires i <= end <= |t| && DigitsIn(t, i, end) && t[end..] == ExponentText(e)
    ensures DigitsEnd(t, i) == end
  {
    assert end < |t| ==> t[end] == t[end..][0];
    DigitsEndAt(t, i, end);
  }

  /** Where those behind it end. */
  lemma PointPart(n: Number, t: Bytes, whole: nat)
    requires n.point && whole < |t| && t[whole..] == FractionText(n)
    ensures whole + 1 + |n.fraction| <= |t| && DigitsEnd(t, whole + 1) == whole + 1 + |n.fraction|
    ensures t[whole + 1 + |n.fraction|..] == ExponentText(n.exponent)
  {
    var before, more := t[..whole] + [0x2e], ExponentText(n.exponent);
    var end := whole + 1 + |n.fraction|;
    assert t == t[..whole] + t[whole..];
    Shift(t[..whole], [0x2e], Ascii(n.fraction), more);
    DigitsBehind(before, n.fraction, more);
    PartEnds(t, whole + 1, end, n.exponent);
  }

  lemma TextParts(n: Number, t: Bytes)
    requires NumberOk(n) && t == NumberText(n)
    ensures var start := if n.minus then 1 else 0;
            var whole := start + |n.whole|;
            var end := if n.point then whole + 1 + |n.fraction| else whole;
            && t != [] && (if n.minus then t[0] == MINUS else IsDigit(t[0])) && whole <= end <= |t|
            && DigitsEnd(t, start) == whole && (n.point <==> whole < |t| && t[whole] == POINT)
            && (n.point ==> DigitsEnd(t, whole + 1) == end)
            && t[end..] == ExponentText(n.exponent)
  {
    WholePart(n, t);
    var whole := (if n.minus then 1 else 0) + |n.whole|;
    if n.point {
      PointPart(n, t, whole);
    } else {
      assert [] + ExponentText(n.exponent) == ExponentText(n.exponent);
    }
  }

  lemma IsDouble(n: Number, t: Bytes)
    requires NumberOk(n) && t == NumberText(n)
    ensures IsDoubleText(t) && t != [] && (IsDigit(t[0]) || t[0] == MINUS)
  {
    var start := if n.minus then 1 else 0;
    var whole := start + |n.whole|;
    var end := if n.point then whole + 1 + |n.fraction| else whole;
    TextParts(n, t);
    ExponentEnds(n.exponent, t, end);
    DoubleFrom(t, start, whole, end);
  }

  lemma AllNumberBytes(n: Number)
    ensures NumberBytes(NumberText(n))
  {
    assert NumberBytes(Ascii(n.whole)) && NumberBytes(Ascii(n.fraction)) && NumberBytes(ExponentText(n.exponent)) by {
      if n.exponent.Exponent? { assert NumberBytes(SignText(n.exponent.sign) + Ascii(n.exponent.digits)); }
    }
    assert NumberBytes([0x2e] + Ascii(n.fraction));
    assert NumberBytes(FractionText(n));
    assert NumberBytes(Ascii(n.whole) + FractionText(n));
  }

  /** `strtoimax` reads a text of digits, unless the number does not fit. */
  lemma DigitsAreInt(n: Number)
    requires NumberOk(n) && !n.point && n.exponent == NoExponent
    ensures IntOf(NumberText(n)) == if Integral(n) then Some(Signed(n)) else None
  {
    var digits := Ascii(n.whole);
    AsciiReadsBack(n.whole);
    assert NumberText(n) == if n.minus then [MINUS] + digits else digits;
    assert IsDigit(digits[0]);
    if n.minus { assert NumberText(n)[1..] == digits; }
  }

  /** And it stops at a point or an exponent. */
  lemma NotInt(n: Number)
    requires NumberOk(n) && (n.point || n.exponent != NoExponent)
    ensures IntOf(NumberText(n)) == None
  {
    var t, more := NumberText(n), FractionText(n);
    var digits := Ascii(n.whole);
    var u := digits + more;
    assert u[|digits|] == more[0] && !IsDigit(more[0]);
    if n.minus {
      assert t[1..] == u;
    } else {
      assert t == u && IsDigit(t[0]) by { assert t == [] + u; assert digits[0] == u[0]; }
    }
  }

  lemma WholeIsInt(n: Number)
    requires NumberOk(n)
    ensures IntOf(NumberText(n)) == if Integral(n) then Some(Signed(n)) else None
  {
    if n.point || n.exponent != NoExponent {
      NotInt(n);
    } else {
      DigitsAreInt(n);
    }
  }

  lemma NumberAccepted(n: Number)
    requires NumberOk(n)
    ensures var t := NumberText(n);
            && NumberValue(t) == Some(NumberMeaning(n))
            && t != [] && (IsDigit(t[0]) || t[0] == MINUS) && NumberBytes(t)
  {
    WholeIsInt(n);
    IsDouble(n, NumberText(n));
    AllNumberBytes(n);
  }

  // ---------- and no other ----------

  /** The digits from i to k. */
  function Cut(t: Bytes, i: nat, k: nat): (d: seq<Digit>)
    requires i <= k <= |t| && DigitsIn(t, i, k)
    ensures Ascii(d) == t[i..k]
  {
    if i == k then [] else
    var d := Cut(t, i, k - 1) + [t[k - 1] - ZERO];
    assert t[i..k] == t[i..k - 1] + [t[k - 1]];
    d
  }

  lemma {:induction false} DigitsTo(t: Bytes, i: nat)
    requires i <= |t|
    ensures forall j | i <= j < DigitsEnd(t, i) :: IsDigit(t[j])
    decreases |t| - i
  {
    if i < |t| && IsDigit(t[i]) { DigitsTo(t, i + 1); }
  }

  lemma CutExponent(t: Bytes, end: nat) returns (e: Exponent)
    requires ExponentAt(t, end)
    ensures e.Exponent? && e.digits != [] && ExponentText(e) == t[end..]
  {
    var sign := if t[end + 1] == MINUS then MinusSign else if t[end + 1] == PLUS then PlusSign else NoSign;
    var exp := end + 1 + |SignText(sign)|;
    DigitsTo(t, exp);
    e := Exponent(t[end] == UPPER_E, sign, Cut(t, exp, |t|));
    assert t[end..] == [t[end]] + (t[end + 1..exp] + t[exp..]);
    assert t[end + 1..exp] == SignText(sign);
  }

  /** The part behind the whole digits. */
  lemma CutFraction(t: Bytes, whole: nat, end: nat) returns (point: bool, fraction: seq<Digit>, e: Exponent)
    requires whole <= |t| && (end == |t| || ExponentAt(t, end))
    requires end == if whole < |t| && t[whole] == POINT then DigitsEnd(t, whole + 1) else whole
    ensures (point <==> whole < |t| && t[whole] == POINT) && (if point then whole + 1 + |fraction| == end else fraction == [])
    ensures e.Exponent? ==> e.digits != []
    ensures t[whole..] == (if point then [0x2e] + Ascii(fraction) else []) + ExponentText(e)
  {
    point, fraction, e := whole < |t| && t[whole] == POINT, [], NoExponent;
    if end < |t| { e := CutExponent(t, end); }
    if point {
      DigitsTo(t, whole + 1);
      fraction := Cut(t, whole + 1, end);
      assert t[whole..] == [t[whole]] + t[whole + 1..end] + t[end..];
    } else {
      assert t[whole..] == [] + t[end..];
    }
  }

  lemma ThreeParts(t: Bytes, i: nat, k: nat)
    requires i <= k <= |t|
    ensures t == t[..i] + (t[i..k] + t[k..])
    ensures i == 1 ==> t[..i] == [t[0]]
    ensures i == 0 ==> t[..i] == []
  {
  }

  lemma CutDouble(t: Bytes) returns (n: Number)
    requires IsDoubleText(t) && t != [] && (IsDigit(t[0]) || t[0] == MINUS)
    ensures NumberOk(n) && NumberText(n) == t
  {
    var start := if t[0] == MINUS then 1 else 0;
    var whole := DigitsEnd(t, start);
    var end := if whole < |t| && t[whole] == POINT then DigitsEnd(t, whole + 1) else whole;
    DoubleFrom(t, start, whole, end);
    DigitsTo(t, start);
    var point, fraction, e := CutFraction(t, whole, end);
    n := Number(t[0] == MINUS, Cut(t, start, whole), point, fraction, e);
    ThreeParts(t, start, whole);
  }

  lemma CutInt(t: Bytes) returns (n: Number)
    requires IntOf(t).Some? && t != [] && (IsDigit(t[0]) || t[0] == MINUS)
    ensures NumberOk(n) && NumberText(n) == t
  {
    var start := if t[0] == MINUS then 1 else 0;
    assert AllDigits(t[start..]);
    assert DigitsIn(t, start, |t|) by {
      forall j | start <= j < |t| ensures IsDigit(t[j]) { assert t[j] == t[start..][j - start]; }
    }
    n := Number(t[0] == MINUS, Cut(t, start, |t|), false, [], NoExponent);
    assert FractionText(n) == [];
    ThreeParts(t, start, |t|);
  }

  /** A text that is read as a number is one, with that meaning. */
  lemma CutNumber(t: Bytes, v: Json) returns (n: Number)
    requires NumberValue(t) == Some(v) && t != [] && (IsDigit(t[0]) || t[0] == MINUS)
    ensures NumberOk(n) && NumberText(n) == t && NumberMeaning(n) == v
  {
    if IntOf(t).Some? {
      n := CutInt(t);
    } else {
      n := CutDouble(t);
    }
    NumberAccepted(n);
  }
}
