/** Bytes, JSON values and the number syntax of include/thirdparty/picojson.h. */
module JsonText {
  import Digits

  type Byte = b: int | 0 <= b < 256

  type Bytes = seq<Byte>

  datatype Option<+T> = None | Some(value: T)

  const NEWLINE: Byte := '\n' as int
  const SPACE: Byte := ' ' as int
  const TAB: Byte := '\t' as int
  const RETURN: Byte := '\r' as int
  const BACKSPACE: Byte := 8
  const FORM_FEED: Byte := 12
  const QUOTE: Byte := '"' as int
  const BACKSLASH: Byte := '\\' as int
  const SLASH: Byte := '/' as int
  const COMMA: Byte := ',' as int
  const COLON: Byte := ':' as int
  const OPEN_BRACKET: Byte := '[' as int
  const CLOSE_BRACKET: Byte := ']' as int
  const OPEN_BRACE: Byte := '{' as int
  const CLOSE_BRACE: Byte := '}' as int
  const MINUS: Byte := '-' as int
  const PLUS: Byte := '+' as int
  const POINT: Byte := '.' as int
  const LOWER_U: Byte := 'u' as int
  const ZERO: Byte := '0' as int
  const NINE: Byte := '9' as int
  const UPPER_A: Byte := 'A' as int
  const LOWER_A: Byte := 'a' as int
  const UPPER_E: Byte := 'E' as int
  const LOWER_E: Byte := 'e' as int
  const DELETE: Byte := 0x7f

  const NULL_TEXT: Bytes := ['n' as int, 'u' as int, 'l' as int, 'l' as int]
  const TRUE_TEXT: Bytes := ['t' as int, 'r' as int, 'u' as int, 'e' as int]
  const FALSE_TEXT: Bytes := ['f' as int, 'a' as int, 'l' as int, 's' as int, 'e' as int]

  /** A double is kept as the text that `strtod` reads it from. An object is a `std::map`: its members are in
      the order of their keys. */
  datatype Json =
    | Null
    | Bool(b: bool)
    | Int(n: int)
    | Double(text: Bytes)
    | String(s: Bytes)
    | Array(items: seq<Json>)
    | Object(members: seq<Member>)

  datatype Member = Member(key: Bytes, value: Json)

  const INT64_MIN: int := -0x8000_0000_0000_0000
  const INT64_MAX: int := 0x7fff_ffff_ffff_ffff

  /** The order of `std::string`. */
  predicate Less(a: Bytes, b: Bytes) {
    b != [] && (a == [] || a[0] < b[0] || (a[0] == b[0] && Less(a[1..], b[1..])))
  }

  lemma {:induction false} LessTrichotomy(a: Bytes, b: Bytes)
    ensures Less(a, b) || Less(b, a) || a == b
    ensures !(Less(a, b) && Less(b, a)) && !Less(a, a)
  {
    if a != [] && b != [] && a[0] == b[0] {
      LessTrichotomy(a[1..], b[1..]);
      assert a == [a[0]] + a[1..] && b == [b[0]] + b[1..];
    }
    if a != [] { LessTrichotomy(a[1..], a[1..]); }
  }

  lemma {:induction false} LessTransitive(a: Bytes, b: Bytes, c: Bytes)
    requires Less(a, b) && Less(b, c)
    ensures Less(a, c)
  {
    if a != [] && a[0] == b[0] && b[0] == c[0] { LessTransitive(a[1..], b[1..], c[1..]); }
  }

  // ---------- numbers ----------

  predicate IsDigit(b: int) {
    ZERO <= b <= NINE
  }

  /** The bytes `_parse_number` collects. */
  predicate IsNumberByte(b: int) {
    IsDigit(b) || b == PLUS || b == MINUS || b == LOWER_E || b == UPPER_E || b == POINT
  }

  predicate AllDigits(t: Bytes) {
    forall i | 0 <= i < |t| :: IsDigit(t[i])
  }

  function Ascii(d: seq<nat>): (t: Bytes)
    requires forall i | 0 <= i < |d| :: d[i] < 10
    ensures |t| == |d| && forall i | 0 <= i < |d| :: t[i] == ZERO + d[i]
  {
    seq(|d|, i requires 0 <= i < |d| => ZERO + d[i])
  }

  function DigitValues(t: Bytes): (d: seq<nat>)
    requires AllDigits(t)
    ensures |d| == |t| && forall i | 0 <= i < |t| :: d[i] == t[i] - ZERO
  {
    seq(|t|, i requires 0 <= i < |t| => t[i] - ZERO)
  }

  /** `printf` of an `int64_t`. */
  function IntText(n: int): Bytes {
    Digits.ValueOf(if n < 0 then -n else n, 10);
    if n < 0 then [MINUS] + Ascii(Digits.Of(-n, 10)) else Ascii(Digits.Of(n, 10))
  }

  /** `strtoimax` on a text that starts with a digit or a minus sign: the number, if the whole text is one and
      it fits. */
  function IntOf(text: Bytes): Option<int> {
    var negative := text != [] && text[0] == MINUS;
    var t := if negative then text[1..] else text;
    if t == [] || !AllDigits(t) then None else
    var magnitude: int := Digits.Value(DigitValues(t), 10);
    var n := if negative then -magnitude else magnitude;
    if INT64_MIN <= n <= INT64_MAX then Some(n) else None
  }

  function DigitsEnd(t: Bytes, i: nat): (j: nat)
    requires i <= |t|
    ensures i <= j <= |t|
    decreases |t| - i
  {
    if i < |t| && IsDigit(t[i]) then DigitsEnd(t, i + 1) else i
  }

  /** Whether `strtod` reads the whole text, which consists of number bytes. */
  predicate IsDoubleText(t: Bytes) {
    var start := if t != [] && (t[0] == MINUS || t[0] == PLUS) then 1 else 0;
    var whole := DigitsEnd(t, start);
    var end := if whole < |t| && t[whole] == POINT then DigitsEnd(t, whole + 1) else whole;
    && (whole > start || end > whole + 1)
    && (|| end == |t|
        || (&& (t[end] == LOWER_E || t[end] == UPPER_E)
            && var exp := if end + 1 < |t| && (t[end + 1] == MINUS || t[end + 1] == PLUS) then end + 2 else end + 1;
               exp < |t| && DigitsEnd(t, exp) == |t|))
  }

  lemma AsciiReadsBack(d: seq<nat>)
    requires forall i | 0 <= i < |d| :: d[i] < 10
    ensures AllDigits(Ascii(d)) && DigitValues(Ascii(d)) == d
  {
  }

  lemma IntOfDigits(t: Bytes, magnitude: int)
    requires t != [] && AllDigits(t) && magnitude == Digits.Value(DigitValues(t), 10)
    ensures INT64_MIN <= magnitude <= INT64_MAX ==> IntOf(t) == Some(magnitude)
    ensures INT64_MIN <= -magnitude <= INT64_MAX ==> IntOf([MINUS] + t) == Some(-magnitude)
  {
    assert ([MINUS] + t)[1..] == t;
    assert IsDigit(t[0]);
  }

  /** The printed form of an integer is made of number bytes, starts like a number and reads back. */
  lemma IntTextReadsBack(n: int)
    requires INT64_MIN <= n <= INT64_MAX
    ensures IntOf(IntText(n)) == Some(n)
    ensures var t := IntText(n); |t| >= 1 && (IsDigit(t[0]) || t[0] == MINUS)
    ensures forall i | 0 <= i < |IntText(n)| :: IsNumberByte(IntText(n)[i])
  {
    var m: nat := if n < 0 then -n else n;
    Digits.ValueOf(m, 10);
    MagnitudeReadsBack(m, Digits.Of(m, 10));
  }

  lemma MagnitudeReadsBack(m: nat, d: seq<nat>)
    requires |d| >= 1 && Digits.Value(d, 10) == m && forall i | 0 <= i < |d| :: d[i] < 10
    ensures m <= INT64_MAX ==> IntOf(Ascii(d)) == Some(m)
    ensures m <= -INT64_MIN ==> IntOf([MINUS] + Ascii(d)) == Some(-(m as int))
    ensures forall i | 0 <= i < |d| :: IsDigit(Ascii(d)[i])
  {
    AsciiReadsBack(d);
    IntOfDigits(Ascii(d), m);
  }

  /** It is a minus for negative numbers, and then the decimal digits without leading zeros. */
  lemma IntTextSpelled(n: int) returns (digits: Bytes)
    ensures IntText(n) == if n < 0 then [0x2d] + digits else digits
    ensures digits != [] && AllDigits(digits) && Digits.Value(DigitValues(digits), 10) == if n < 0 then -n else n
    ensures digits[0] == 0x30 ==> n == 0
  {
    var m: nat := if n < 0 then -n else n;
    Digits.ValueOf(m, 10);
    digits := Ascii(Digits.Of(m, 10));
    AsciiReadsBack(Digits.Of(m, 10));
  }
}
