/** Integer formatting of include/thirdparty/spdlog/details/format.h: `format_decimal` (682-706),
  `prepare_int_buffer` and `write_int` (2023-2203), and `FormatInt` (2619-2712).

  A pointer into the writer's buffer is an index. Shifts and masks of digits are quotients and remainders.
 */
module IntFormat {
  import Digits
  import DigitCounting
  import Modular

  const WORD_SIZE: nat := 0x1_0000_0000_0000_0000

  // ---------- texts of numbers ----------

  function DigitChar(d: nat, upper: bool): (c: char)
    requires d < 16
  {
    if d < 10 then ('0' as int + d) as char else ((if upper then 'A' else 'a') as int + d - 10) as char
  }

  function CharDigit(c: char): nat {
    if '0' <= c <= '9' then c as int - '0' as int
    else if 'A' <= c <= 'F' then c as int - 'A' as int + 10
    else if 'a' <= c <= 'f' then c as int - 'a' as int + 10
    else 0
  }

  predicate AllBelow(d: seq<nat>, n: nat) {
    forall i | 0 <= i < |d| :: d[i] < n
  }

  function Chars(d: seq<nat>, upper: bool): (s: string)
    requires AllBelow(d, 16)
    ensures |s| == |d| && forall i | 0 <= i < |d| :: s[i] == DigitChar(d[i], upper)
  {
    seq(|d|, i requires 0 <= i < |d| => DigitChar(d[i], upper))
  }

  /** Reading a text of digits in a base. */
  function Read(s: string, base: nat): nat {
    Digits.Value(seq(|s|, i requires 0 <= i < |s| => CharDigit(s[i])), base)
  }

  /** The digits of n, as text. */
  function Numeral(n: nat, base: nat, upper: bool): (s: string)
    requires 2 <= base <= 16
    ensures |s| == |Digits.Of(n, base)|
  {
    Digits.ValueOf(n, base);
    Chars(Digits.Of(n, base), upper)
  }

  function Repeat(n: nat, c: char): (s: string)
    ensures |s| == n
  {
    seq(n, _ => c)
  }

  /** The text of a number reads back as the number, also behind zeros, and its first digit is 0 only for 0. */
  lemma NumeralReadsBack(n: nat, base: nat, upper: bool, zeros: nat)
    requires 2 <= base <= 16
    ensures Read(Repeat(zeros, '0') + Numeral(n, base, upper), base) == n
    ensures |Numeral(n, base, upper)| >= 1 && (Numeral(n, base, upper)[0] == '0' ==> n == 0)
  {
    Digits.ValueOf(n, base);
    var d := Digits.Of(n, base);
    var z := seq(zeros, _ => 0);
    LeadingZeros(zeros, z, d, base);
    ReadChars(z, d, upper, base);
    assert Repeat(zeros, '0') == Chars(z, upper);
  }

  lemma CharDigitOf(d: nat, upper: bool)
    requires d < 16
    ensures CharDigit(DigitChar(d, upper)) == d && (DigitChar(d, upper) == '0' <==> d == 0)
  {
  }

  lemma ReadChars(z: seq<nat>, d: seq<nat>, upper: bool, base: nat)
    requires AllBelow(z, 16) && AllBelow(d, 16)
    ensures Read(Chars(z, upper) + Chars(d, upper), base) == Digits.Value(z + d, base)
    ensures d != [] ==> (Chars(d, upper)[0] == '0' <==> d[0] == 0)
  {
    var s := Chars(z, upper) + Chars(d, upper);
    var read := seq(|s|, i requires 0 <= i < |s| => CharDigit(s[i]));
    forall i | 0 <= i < |s| ensures read[i] == (z + d)[i] { CharDigitOf((z + d)[i], upper); }
    assert read == z + d;
    if d != [] { CharDigitOf(d[0], upper); }
  }

  lemma {:induction false} LeadingZeros(zeros: nat, z: seq<nat>, d: seq<nat>, base: nat)
    requires |z| == zeros && forall i | 0 <= i < zeros :: z[i] == 0
    ensures Digits.Value(z + d, base) == Digits.Value(d, base)
    decreases |d|, zeros
  {
    if d != [] {
      var n := |d| - 1;
      LeadingZeros(zeros, z, d[..n], base);
      assert z + d == (z + d[..n]) + [d[n]];
      Digits.ValuePush(z + d[..n], d[n], base);
    } else if zeros > 0 {
      LeadingZeros(zeros - 1, z[..zeros - 1], d, base);
      assert z + d == z[..zeros - 1] + d + [0];
      Digits.ValuePush(z[..zeros - 1] + d, 0, base);
      assert Digits.Push(0, 0, base) == 0;
    } else {
      assert z + d == d;
    }
  }

  // ---------- the table of two-digit texts ----------

  const ROW_0: string := "0001020304050607080910111213141516171819"
  const ROW_1: string := "2021222324252627282930313233343536373839"
  const ROW_2: string := "4041424344454647484950515253545556575859"
  const ROW_3: string := "6061626364656667686970717273747576777879"
  const ROW_4: string := "8081828384858687888990919293949596979899"

  const DIGITS: string := ROW_0 + ROW_1 + ROW_2 + ROW_3 + ROW_4

  /** The texts of ten numbers with the same first digit. */
  function Decade(c: char): (s: string)
    ensures |s| == 20
  {
    [c, '0', c, '1', c, '2', c, '3', c, '4', c, '5', c, '6', c, '7', c, '8', c, '9']
  }

  function Decades(n: nat): (s: string)
    requires n <= 10
    ensures |s| == 20 * n
  {
    if n == 0 then [] else Decades(n - 1) + Decade(DigitChar(n - 1, false))
  }

  lemma DecadeEntry(c: char, k: nat)
    requires k < 10
    ensures Decade(c)[2 * k] == c && Decade(c)[2 * k + 1] == DigitChar(k, false)
  {
    if k < 5 {
      assert k == 0 || k == 1 || k == 2 || k == 3 || k == 4;
    } else {
      assert k == 5 || k == 6 || k == 7 || k == 8 || k == 9;
    }
  }

  lemma {:induction false} DecadesEntry(n: nat, v: nat)
    requires n <= 10 && v < 10 * n
    ensures Decades(n)[2 * v] == DigitChar(v / 10, false) && Decades(n)[2 * v + 1] == DigitChar(v % 10, false)
  {
    if v / 10 == n - 1 {
      DecadeEntry(DigitChar(n - 1, false), v % 10);
      assert v == 10 * (n - 1) + v % 10;
    } else {
      DecadesEntry(n - 1, v);
    }
  }

  lemma Row0()
    ensures ROW_0 == Decade('0') + Decade('1')
  {
  }

  lemma Row1()
    ensures ROW_1 == Decade('2') + Decade('3')
  {
  }

  lemma Row2()
    ensures ROW_2 == Decade('4') + Decade('5')
  {
  }

  lemma Row3()
    ensures ROW_3 == Decade('6') + Decade('7')
  {
  }

  lemma Row4()
    ensures ROW_4 == Decade('8') + Decade('9')
  {
  }

  lemma NextRow(n: nat, t: string, row: string, a: string, b: string)
    requires n + 2 <= 10 && t == Decades(n) && row == a + b
    requires a == Decade(DigitChar(n, false)) && b == Decade(DigitChar(n + 1, false))
    ensures t + row == Decades(n + 2)
  {
    Associate(t, a, b);
    assert Decades(n + 1) == t + a;
  }

  lemma Associate(a: string, b: string, c: string)
    ensures a + b + c == a + (b + c)
  {
  }

  /** Entry v of the table is the text of v. */
  lemma TableEntry(v: nat)
    requires v < 100
    ensures |DIGITS| == 200
    ensures DIGITS[2 * v] == DigitChar(v / 10, false) && DIGITS[2 * v + 1] == DigitChar(v % 10, false)
  {
    TableIsDecades();
    DecadesEntry(10, v);
  }

  lemma TableIsDecades()
    ensures DIGITS == Decades(10)
  {
    Row0();
    Row1();
    Row2();
    Row3();
    Row4();
    NextRow(0, [], ROW_0, Decade('0'), Decade('1'));
    NextRow(2, ROW_0, ROW_1, Decade('2'), Decade('3'));
    NextRow(4, ROW_0 + ROW_1, ROW_2, Decade('4'), Decade('5'));
    NextRow(6, ROW_0 + ROW_1 + ROW_2, ROW_3, Decade('6'), Decade('7'));
    NextRow(8, ROW_0 + ROW_1 + ROW_2 + ROW_3, ROW_4, Decade('8'), Decade('9'));
  }

  /** The text of v < 100, as the table has it. */
  function PairText(v: nat): (s: string)
    requires v < 100
    ensures |s| == 2
  {
    TableEntry(v);
    [DIGITS[2 * v], DIGITS[2 * v + 1]]
  }

  lemma PairIs(v: nat)
    requires v < 100
    ensures PairText(v) == [DigitChar(v / 10, false), DigitChar(v % 10, false)]
  {
    TableEntry(v);
  }

  lemma CharsPush(d: seq<nat>, x: nat, y: nat)
    requires AllBelow(d, 10) && x < 10 && y < 10
    ensures AllBelow(d + [x, y], 16)
    ensures Chars(d + [x, y], false) == Chars(d, false) + [DigitChar(x, false), DigitChar(y, false)]
  {
  }

  /** Two digits at a time. */
  lemma NumeralStep(v: nat)
    requires v >= 100
    ensures Numeral(v, 10, false) == Numeral(v / 100, 10, false) + PairText(v % 100)
  {
    Digits.ValueOf(v / 100, 10);
    Digits.ValueOf(v, 10);
    TwoDigits(v);
    PairIs(v % 100);
    CharsPush(Digits.Of(v / 100, 10), v % 100 / 10, v % 100 % 10);
  }

  /** The last one or two. */
  lemma NumeralTop(v: nat)
    requires v < 100
    ensures v < 10 ==> Numeral(v, 10, false) == [DigitChar(v, false)]
    ensures v >= 10 ==> Numeral(v, 10, false) == PairText(v)
  {
    if v >= 10 {
      PairIs(v);
      assert Digits.Of(v, 10) == Digits.Of(v / 10, 10) + [v % 10] == [v / 10, v % 10];
    } else {
      assert Digits.Of(v, 10) == [v];
    }
  }

  lemma TwoDigits(v: nat)
    requires v >= 100
    ensures Digits.Of(v, 10) == Digits.Of(v / 100, 10) + [v % 100 / 10, v % 100 % 10]
  {
    var q := v / 10;
    assert q / 10 == v / 100 && q % 10 == v % 100 / 10 && v % 10 == v % 100 % 10;
    assert Digits.Of(v, 10) == Digits.Of(q, 10) + [v % 10];
    assert Digits.Of(q, 10) == Digits.Of(q / 10, 10) + [q % 10];
  }

  /** A 64-bit number has at most 20 decimal digits, and half of them at most 19. */
  lemma AtMostTwenty(n: nat)
    ensures n < WORD_SIZE ==> |Numeral(n, 10, false)| <= 20
    ensures n <= WORD_SIZE / 2 ==> |Numeral(n, 10, false)| <= 19
  {
    DigitCounting.TableIsPowers(19);
    assert Digits.Power(10, 20) == 10 * Digits.Power(10, 19);
    Digits.DigitCount(n, 10, 19);
    Digits.DigitCount(n, 10, 20);
  }

  // ---------- FormatInt ----------

  /** The text of a signed number in plain decimal. */
  function DecimalText(value: int): string {
    if value < 0 then "-" + Numeral(-value, 10, false) else Numeral(value, 10, false)
  }

  /** Formats into a buffer of its own, from the end. */
  class FormatInt {
    const buffer: array<char>
    var str: nat

    /** `digits10` of an unsigned 64-bit number is 19. */
    static const BUFFER_SIZE: nat := 19 + 3

    ghost predicate Valid()
      reads this
    {
      buffer.Length == BUFFER_SIZE && str < BUFFER_SIZE
    }

    /** `str()`: from `str_` to before the place of the terminating null. */
    function Text(): string
      requires Valid()
      reads this, buffer
    {
      buffer[str..BUFFER_SIZE - 1]
    }

    constructor Unsigned(value: nat)
      requires value < WORD_SIZE
      ensures Valid() && Text() == DecimalText(value)
    {
      buffer := new char[BUFFER_SIZE];
      str := 0;
      new;
      str := FormatDecimal(value);
    }

    constructor Signed(value: int)
      requires -(WORD_SIZE / 2) <= value < WORD_SIZE / 2
      ensures Valid() && Text() == DecimalText(value)
    {
      buffer := new char[BUFFER_SIZE];
      str := 0;
      new;
      FormatSigned(value);
    }

    method FormatSigned(value: int)
      requires Valid() && -(WORD_SIZE / 2) <= value < WORD_SIZE / 2
      modifies this, buffer
      ensures Valid() && Text() == DecimalText(value)
    {
      var absValue := Absolute(value);
      AtMostTwenty(absValue);
      str := FormatDecimal(absValue);
      if value < 0 {
        ghost var digits := Text();
        str := str - 1;
        buffer[str] := '-';
        assert buffer[str + 1..BUFFER_SIZE - 1] == digits;
        assert Text() == ['-'] + digits;
      }
    }

    method FormatDecimal(value0: nat) returns (end: nat)
      requires Valid() && value0 < WORD_SIZE
      modifies buffer
      ensures end + |Numeral(value0, 10, false)| == BUFFER_SIZE - 1
      ensures buffer[end..BUFFER_SIZE - 1] == Numeral(value0, 10, false)
    {
      var value := value0;
      ghost var text := Numeral(value0, 10, false);
      AtMostTwenty(value0);
      end := BUFFER_SIZE - 1;
      while value >= 100
        invariant end <= BUFFER_SIZE - 1 && end - |Numeral(value, 10, false)| == BUFFER_SIZE - 1 - |text|
        invariant text == Numeral(value, 10, false) + buffer[end..BUFFER_SIZE - 1]
        decreases value
      {
        NumeralStep(value);
        Associate(Numeral(value / 100, 10, false), PairText(value % 100), buffer[end..BUFFER_SIZE - 1]);
        end := PushPair(end, value % 100);
        value := value / 100;
      }
      NumeralTop(value);
      if value < 10 {
        end := PushChar(end, ('0' as int + value) as char);
      } else {
        end := PushPair(end, value);
      }
    }

    /** `*--buffer_end = c`. */
    method PushChar(end0: nat, c: char) returns (end: nat)
      requires Valid() && 1 <= end0 < BUFFER_SIZE
      modifies buffer
      ensures end == end0 - 1 && buffer[end..BUFFER_SIZE - 1] == [c] + old(buffer[end0..BUFFER_SIZE - 1])
    {
      ghost var after := buffer[end0..BUFFER_SIZE - 1];
      end := end0 - 1;
      buffer[end] := c;
      assert buffer[end + 1..BUFFER_SIZE - 1] == after;
    }

    /** The text of v < 100 from the table, last digit first. */
    method PushPair(end0: nat, v: nat) returns (end: nat)
      requires Valid() && 2 <= end0 < BUFFER_SIZE && v < 100
      modifies buffer
      ensures end == end0 - 2 && buffer[end..BUFFER_SIZE - 1] == PairText(v) + old(buffer[end0..BUFFER_SIZE - 1])
    {
      var pair := PairText(v);
      ghost var after := buffer[end0..BUFFER_SIZE - 1];
      end := PushChar(end0, pair[1]);
      end := PushChar(end, pair[0]);
      assert pair + after == [pair[0]] + ([pair[1]] + after);
    }
  }

  /** The conversion to unsigned and `0 - abs_value`, both modulo 2^64, give the magnitude. */
  function Absolute(value: int): (a: nat)
    requires -(WORD_SIZE / 2) <= value < WORD_SIZE
    ensures a == if value < 0 then -value else value
  {
    var converted := value % WORD_SIZE;
    if value < 0 then (0 - converted) % WORD_SIZE else converted
  }

  // ---------- the writer ----------

  datatype Alignment = DefaultAlign | LeftAlign | RightAlign | CenterAlign | NumericAlign

  /** `kind` is `type_`, with '\0' for none; a negative precision means that none was given. */
  datatype FormatSpec = FormatSpec(
    width: nat, align: Alignment, fill: char, precision: int, sign: bool, plus: bool, hash: bool, kind: char)

  /** Where a number goes: left and right padding, the prefix (sign and base), what stands between the prefix
      and the digits. */
  datatype Layout = Layout(left: nat, prefix: string, inner: nat, innerFill: char, right: nat)

  function LayoutOf(numDigits: nat, spec: FormatSpec, prefix: string): Layout {
    if spec.precision > numDigits then
      var kept := if prefix != [] && prefix[|prefix| - 1] == '0' then prefix[..|prefix| - 1] else prefix;
      var size := |kept| + spec.precision;
      var pad := if spec.width > size then spec.width - size else 0;
      Layout(if spec.align != LeftAlign then pad else 0, kept, spec.precision - numDigits, '0',
             if spec.align == LeftAlign then pad else 0)
    else
      var size := |prefix| + numDigits;
      var pad := if spec.width > size then spec.width - size else 0;
      match spec.align
      case LeftAlign => Layout(0, prefix, 0, spec.fill, pad)
      case CenterAlign => Layout(pad / 2, prefix, 0, spec.fill, pad - pad / 2)
      case NumericAlign => Layout(0, prefix, pad, spec.fill, 0)
      case _ => Layout(pad, prefix, 0, spec.fill, 0)
  }

  function BeforeDigits(l: Layout, fill: char): (s: string)
    ensures |s| == l.left + |l.prefix| + l.inner
  {
    Repeat(l.left, fill) + l.prefix + Repeat(l.inner, l.innerFill)
  }

  function SignPrefix(value: int, spec: FormatSpec): string {
    if value < 0 then "-" else if spec.sign then (if spec.plus then "+" else " ") else ""
  }

  predicate KnownKind(c: char) {
    c == 0 as char || c == 'd' || c == 'x' || c == 'X' || c == 'b' || c == 'B' || c == 'o'
  }

  function BaseOf(kind: char): (base: nat)
    requires KnownKind(kind)
    ensures base == 2 || base == 8 || base == 10 || base == 16
  {
    if kind == 'x' || kind == 'X' then 16 else if kind == 'b' || kind == 'B' then 2 else if kind == 'o' then 8 else 10
  }

  function Prefix(value: int, spec: FormatSpec): (p: string)
    requires KnownKind(spec.kind)
    ensures |p| <= 3
  {
    SignPrefix(value, spec) +
    if !spec.hash || BaseOf(spec.kind) == 10 then ""
    else if spec.kind == 'o' then "0"
    else ['0', spec.kind]
  }

  /** The text `write_int` appends. */
  function Written(value: int, spec: FormatSpec): string
    requires KnownKind(spec.kind)
  {
    var magnitude := if value < 0 then -value else value;
    var digits := Numeral(magnitude, BaseOf(spec.kind), spec.kind == 'X');
    var l := LayoutOf(|digits|, spec, Prefix(value, spec));
    BeforeDigits(l, spec.fill) + digits + Repeat(l.right, spec.fill)
  }

  /** t with s written over it from place k on. */
  function Put(t: string, k: nat, s: string): (r: string)
    requires k + |s| <= |t|
    ensures |r| == |t|
  {
    t[..k] + s + t[k + |s|..]
  }

  /** The layout when no precision is given, case by case. */
  lemma AlignedLayout(numDigits: nat, width: nat, align: Alignment, fill: char, prefix: string)
    ensures var l := LayoutOf(numDigits, FormatSpec(width, align, fill, -1, false, false, false, 'd'), prefix);
            var before, after, size := BeforeDigits(l, fill), Repeat(l.right, fill), |prefix| + numDigits;
            if width <= size then before == prefix && after == []
            else if align == LeftAlign then before == prefix && after == Repeat(width - size, fill)
            else if align == CenterAlign then
              && before == Repeat((width - size) / 2, fill) + prefix
              && after == Repeat(width - size - (width - size) / 2, fill)
            else if align == NumericAlign then before == prefix + Repeat(width - size, fill) && after == []
            else before == Repeat(width - size, fill) + prefix && after == []
  {
    assert Repeat(0, fill) == [];
    assert [] + prefix == prefix && prefix + [] == prefix;
  }

  /** The layout when there is a precision that matters. */
  lemma PreciseLayout(numDigits: nat, spec: FormatSpec, prefix: string, kept: string, fillSize: nat)
    requires spec.precision > numDigits
    requires kept == if prefix != [] && prefix[|prefix| - 1] == '0' then prefix[..|prefix| - 1] else prefix
    requires fillSize == if |kept| + spec.precision >= spec.width then 0 else spec.width - (|kept| + spec.precision)
    ensures var l := LayoutOf(numDigits, spec, prefix);
            && BeforeDigits(l, spec.fill) ==
               Repeat(if spec.align != LeftAlign then fillSize else 0, spec.fill) +
               (kept + Repeat(spec.precision - numDigits, '0'))
            && l.right == if spec.align == LeftAlign then fillSize else 0
  {
    var l := LayoutOf(numDigits, spec, prefix);
    Associate(Repeat(l.left, spec.fill), kept, Repeat(spec.precision - numDigits, '0'));
  }

  lemma PrecisePrepared(start: string, left: nat, c: char, before: string, hole: string, right: nat, buffer: string)
    requires buffer == start + Repeat(left, c) + before + hole + [] + Repeat(right, c)
    ensures buffer == start + (Repeat(left, c) + before) + hole + Repeat(right, c)
  {
  }

  class Writer {
    var buffer: string

    constructor ()
      ensures buffer == ""
    {
      buffer := "";
    }

    /** `grow_buffer`: n more places, with no particular contents. */
    method Grow(n: nat) returns (p: nat)
      modifies this
      ensures p == |old(buffer)| && |buffer| == p + n && buffer[..p] == old(buffer)
    {
      p := |buffer|;
      assert |Repeat(n, ' ')| == n;
      var junk: string :| |junk| == n;
      buffer := buffer + junk;
    }

    /** `std::copy` to place k after p. */
    method Copy(p: nat, k: nat, s: string)
      requires p + k + |s| <= |buffer|
      modifies this
      ensures |buffer| == |old(buffer)| && buffer[..p] == old(buffer)[..p] && buffer[p..] == Put(old(buffer)[p..], k, s)
    {
      ghost var start, rest := buffer[..p], buffer[p..];
      buffer := buffer[..p + k] + s + buffer[p + k + |s|..];
      assert buffer == start + Put(rest, k, s);
    }

    /** `std::fill` of n places from place k after p on. */
    method Fill(p: nat, k: nat, n: nat, c: char)
      requires p + k + n <= |buffer|
      modifies this
      ensures |buffer| == |old(buffer)| && buffer[..p] == old(buffer)[..p]
      ensures buffer[p..] == Put(old(buffer)[p..], k, Repeat(n, c))
    {
      for i := 0 to n
        invariant |buffer| == |old(buffer)|
        invariant forall j | 0 <= j < |buffer| :: buffer[j] == if p + k <= j < p + k + i then c else old(buffer)[j]
      {
        buffer := buffer[p + k + i := c];
      }
    }

    /** `prepare_int_buffer` without a precision: room for the prefix, the digits and the padding. The result is
        the place of the last digit; `hole` are the places of the digits. */
    method PrepareAligned(numDigits: nat, width: nat, align: Alignment, fill: char, prefix: string)
        returns (end: nat, ghost hole: string)
      requires numDigits >= 1
      modifies this
      ensures var l := LayoutOf(numDigits, FormatSpec(width, align, fill, -1, false, false, false, 'd'), prefix);
              Prepared(old(buffer), buffer, BeforeDigits(l, fill), numDigits, hole, Repeat(l.right, fill), end)
    {
      ghost var start := buffer;
      AlignedLayout(numDigits, width, align, fill, prefix);
      var size := |prefix| + numDigits;
      if width <= size {
        end, hole := PrepareTight(numDigits, prefix);
      } else if align == LeftAlign {
        end, hole := PrepareLeft(numDigits, width - size, fill, prefix);
      } else if align == CenterAlign {
        end, hole := PrepareCenter(numDigits, width - size, fill, prefix);
      } else if align == NumericAlign {
        end, hole := PrepareNumeric(numDigits, width - size, fill, prefix);
      } else {
        end, hole := PrepareRight(numDigits, width - size, fill, prefix);
      }
    }

    method PrepareTight(numDigits: nat, prefix: string) returns (end: nat, ghost hole: string)
      requires numDigits >= 1
      modifies this
      ensures Prepared(old(buffer), buffer, prefix, numDigits, hole, [], end)
    {
      ghost var start := buffer;
      var p := Grow(|prefix| + numDigits);
      ghost var junk := buffer[p..];
      Copy(p, 0, prefix);
      hole := junk[|prefix|..];
      assert Put(junk, 0, prefix) == prefix + hole + [];
      Appended(start, buffer, p, prefix, hole, []);
      end := p + |prefix| + numDigits - 1;
    }

    method AppendFill(n: nat, c: char)
      modifies this
      ensures buffer == old(buffer) + Repeat(n, c)
    {
      ghost var start := buffer;
      var p := Grow(n);
      ghost var junk := buffer[p..];
      Fill(p, 0, n, c);
      assert Put(junk, 0, Repeat(n, c)) == Repeat(n, c);
      assert buffer == buffer[..p] + buffer[p..];
    }

    /** `prepare_int_buffer`. */
    method PrepareIntBuffer(numDigits: nat, spec: FormatSpec, prefix: string) returns (end: nat, ghost hole: string)
      requires numDigits >= 1
      modifies this
      ensures var l := LayoutOf(numDigits, spec, prefix);
              Prepared(old(buffer), buffer, BeforeDigits(l, spec.fill), numDigits, hole, Repeat(l.right, spec.fill), end)
    {
      if spec.precision > numDigits {
        end, hole := PreparePrecise(numDigits, spec, prefix);
      } else {
        end, hole := PrepareAligned(numDigits, spec.width, spec.align, spec.fill, prefix);
      }
    }

    /** The branch for a precision that asks for more digits than there are. */
    method PreparePrecise(numDigits: nat, spec: FormatSpec, prefix: string) returns (end: nat, ghost hole: string)
      requires numDigits >= 1 && spec.precision > numDigits
      modifies this
      ensures var l := LayoutOf(numDigits, spec, prefix);
              Prepared(old(buffer), buffer, BeforeDigits(l, spec.fill), numDigits, hole, Repeat(l.right, spec.fill), end)
    {
      ghost var start := buffer;
      // An octal prefix counts as a digit, so it is dropped here.
      var kept := if prefix != [] && prefix[|prefix| - 1] == '0' then prefix[..|prefix| - 1] else prefix;
      var numberSize := |kept| + spec.precision;
      var fillSize := if numberSize >= spec.width then 0 else spec.width - numberSize;
      var left := if spec.align != LeftAlign then fillSize else 0;
      var right := if spec.align == LeftAlign then fillSize else 0;
      AppendFill(left, spec.fill);
      end, hole := PrepareZeros(numDigits, numberSize, kept);
      AppendFill(right, spec.fill);
      PreciseLayout(numDigits, spec, prefix, kept, fillSize);
      PrecisePrepared(start, left, spec.fill, kept + Repeat(spec.precision - numDigits, '0'), hole, right, buffer);
    }

    /** The recursive call, with zeros as the fill and numeric alignment. */
    method PrepareZeros(numDigits: nat, numberSize: nat, kept: string) returns (end: nat, ghost hole: string)
      requires numDigits >= 1 && numberSize > |kept| + numDigits
      modifies this
      ensures Prepared(old(buffer), buffer, kept + Repeat(numberSize - |kept| - numDigits, '0'), numDigits, hole, [], end)
    {
      AlignedLayout(numDigits, numberSize, NumericAlign, '0', kept);
      end, hole := PrepareAligned(numDigits, numberSize, NumericAlign, '0', kept);
    }

    /** `do { *p-- = digits[n & mask]; } while ((n >>= shift) != 0)`. */
    method WriteDigits(end: nat, value: nat, base: nat, upper: bool,
                       ghost before: string, ghost hole: string, ghost after: string)
      requires 2 <= base <= 16
      requires Prepared("", buffer, before, |Numeral(value, base, upper)|, hole, after, end)
      modifies this
      ensures buffer == before + Numeral(value, base, upper) + after
    {
      ghost var text := Numeral(value, base, upper);
      var p: int, n: nat := end, value;
      ghost var rem: nat := |text|;
      assert [] + before == before && text[..rem] == text && hole[..rem] == hole && text[rem..] == [];
      var more := true;
      while more
        invariant Filled(buffer, before, hole, text, after, rem) && p + 1 == |before| + rem
        invariant more ==> rem >= 1 && text[..rem] == Numeral(n, base, upper)
        invariant !more ==> rem == 0
        decreases more, n
      {
        DigitDown(buffer, before, hole, text, after, rem, n, base, upper);
        buffer := buffer[p := DigitChar(n % base, upper)];
        p := p - 1;
        rem := rem - 1;
        n := n / base;
        more := n != 0;
      }
      assert hole[..0] == [] && text[0..] == text;
    }

    /** `do { ++num_digits; } while ((n >>= shift) != 0)`. */
    static method CountShifts(value: nat, base: nat) returns (numDigits: nat)
      requires 2 <= base <= 16
      ensures numDigits == |Digits.Of(value, base)|
    {
      var n: nat := value;
      numDigits := 0;
      var more := true;
      while more
        invariant more ==> numDigits + |Digits.Of(n, base)| == |Digits.Of(value, base)|
        invariant !more ==> numDigits == |Digits.Of(value, base)|
        decreases more, n
      {
        OneDigitLess(n, base);
        numDigits := numDigits + 1;
        n := n / base;
        more := n != 0;
      }
    }

    /** `format_decimal` at a place of the buffer. */
    method FormatDecimal(at: nat, value0: nat, numDigits: nat,
                         ghost before: string, ghost hole: string, ghost after: string)
      requires numDigits == |Numeral(value0, 10, false)|
      requires Prepared("", buffer, before, numDigits, hole, after, at + numDigits - 1)
      modifies this
      ensures buffer == before + Numeral(value0, 10, false) + after
    {
      var value: nat, last: int := value0, numDigits - 1;
      ghost var text := Numeral(value0, 10, false);
      assert at == |before|;
      assert [] + before == before && text[..numDigits] == text && hole[..numDigits] == hole && text[numDigits..] == [];
      while value >= 100
        invariant last >= 0 && last < |text| && text[..last + 1] == Numeral(value, 10, false)
        invariant Filled(buffer, before, hole, text, after, last + 1)
        decreases value
      {
        WriteTwo(at, last, value, before, hole, text, after);
        value := value / 100;
        last := last - 2;
      }
      WriteTop(at, last, value, before, hole, text, after);
    }

    /** Two digits, with more in front of them. */
    method WriteTwo(at: nat, last: nat, value: nat,
                    ghost before: string, ghost hole: string, ghost text: string, ghost after: string)
      requires at == |before| && value >= 100 && last < |text|
      requires Filled(buffer, before, hole, text, after, last + 1) && text[..last + 1] == Numeral(value, 10, false)
      modifies this
      ensures last >= 2 && Filled(buffer, before, hole, text, after, last - 1)
      ensures text[..last - 1] == Numeral(value / 100, 10, false)
    {
      PairDown(buffer, before, hole, text, after, last + 1, value);
      WritePair(at + last - 1, value % 100);
    }

    /** The first one or two digits. */
    method WriteTop(at: nat, last: nat, value: nat,
                    ghost before: string, ghost hole: string, ghost text: string, ghost after: string)
      requires at == |before| && value < 100 && last < |text|
      requires Filled(buffer, before, hole, text, after, last + 1) && text[..last + 1] == Numeral(value, 10, false)
      modifies this
      ensures buffer == before + text + after
    {
      TopDown(buffer, before, hole, text, after, last + 1, value);
      if value < 10 {
        buffer := buffer[at := ('0' as int + value) as char];
      } else {
        WritePair(at, value);
      }
    }

    /** Two digits from the table. */
    method WritePair(p: nat, v: nat)
      requires v < 100 && p + 1 < |buffer|
      modifies this
      ensures buffer == old(buffer)[p + 1 := PairText(v)[1]][p := PairText(v)[0]]
    {
      var pair := PairText(v);
      buffer := buffer[p + 1 := pair[1]];
      buffer := buffer[p := pair[0]];
    }

    /** `write_int`; false stands for the exception on an unknown type, before anything was written. */
    method WriteInt(value: int, spec: FormatSpec) returns (ok: bool)
      requires -(WORD_SIZE / 2) <= value < WORD_SIZE
      modifies this
      ensures ok <==> KnownKind(spec.kind)
      ensures ok <==> spec.kind == 0 as char || spec.kind in "dxXbBo"
      ensures buffer == if ok then old(buffer) + Written(value, spec) else old(buffer)
      ensures ok ==> exists p :: PartsOk(value, spec, p) && buffer == old(buffer) + PartsText(p, spec.fill)
    {
      ghost var start := buffer;
      var absValue := Absolute(value);
      var prefix := "";
      if value < 0 {
        prefix := "-";
      } else if spec.sign {
        prefix := if spec.plus then "+" else " ";
      }
      if !KnownKind(spec.kind) {
        return false;
      }
      var base := BaseOf(spec.kind);
      if spec.hash && base != 10 {
        prefix := prefix + if spec.kind == 'o' then "0" else ['0', spec.kind];
      }
      assert prefix == Prefix(value, spec);
      ghost var digits := Numeral(absValue, base, spec.kind == 'X');
      ghost var l := LayoutOf(|digits|, spec, prefix);
      ghost var before, after := BeforeDigits(l, spec.fill), Repeat(l.right, spec.fill);
      var numDigits;
      if base == 10 {
        numDigits := DigitCounting.CountDigits(absValue);
      } else {
        numDigits := CountShifts(absValue, base);
      }
      var end, hole := PrepareIntBuffer(numDigits, spec, prefix);
      Unprefixed(start, buffer, before, numDigits, hole, after, end);
      if base == 10 {
        FormatDecimal(end + 1 - numDigits, absValue, numDigits, start + before, hole, after);
      } else {
        WriteDigits(end, absValue, base, spec.kind == 'X', start + before, hole, after);
      }
      Appending(start, before, digits, after);
      ghost var p := WrittenSpelled(value, spec);
      assert PartsOk(value, spec, p);
      return true;
    }

    method PrepareLeft(numDigits: nat, pad: nat, fill: char, prefix: string) returns (end: nat, ghost hole: string)
      requires numDigits >= 1
      modifies this
      ensures Prepared(old(buffer), buffer, prefix, numDigits, hole, Repeat(pad, fill), end)
    {
      ghost var start := buffer;
      var size := |prefix| + numDigits;
      var p := Grow(size + pad);
      ghost var junk := buffer[p..];
      Copy(p, 0, prefix);
      Fill(p, size, pad, fill);
      hole := junk[|prefix|..size];
      LeftPut(junk, prefix, numDigits, pad, fill);
      Appended(start, buffer, p, prefix, hole, Repeat(pad, fill));
      end := p + size - 1;
    }

    method PrepareCenter(numDigits: nat, pad: nat, fill: char, prefix: string) returns (end: nat, ghost hole: string)
      requires numDigits >= 1
      modifies this
      ensures Prepared(old(buffer), buffer, Repeat(pad / 2, fill) + prefix, numDigits, hole,
                       Repeat(pad - pad / 2, fill), end)
    {
      ghost var start := buffer;
      var size := |prefix| + numDigits;
      var p := Grow(size + pad);
      ghost var junk := buffer[p..];
      var left := pad / 2;
      Fill(p, 0, left, fill);
      Fill(p, left + size, pad - left, fill);
      Copy(p, left, prefix);
      hole := junk[left + |prefix|..left + size];
      CenterPut(junk, left, prefix, numDigits, pad - left, fill);
      Appended(start, buffer, p, Repeat(left, fill) + prefix, hole, Repeat(pad - left, fill));
      end := p + left + size - 1;
    }

    method PrepareNumeric(numDigits: nat, pad: nat, fill: char, prefix: string) returns (end: nat, ghost hole: string)
      requires numDigits >= 1
      modifies this
      ensures Prepared(old(buffer), buffer, prefix + Repeat(pad, fill), numDigits, hole, [], end)
    {
      ghost var start := buffer;
      var width := |prefix| + numDigits + pad;
      var p := Grow(width);
      ghost var junk := buffer[p..];
      if prefix != [] {
        Copy(p, 0, prefix);
      }
      Fill(p, |prefix|, pad, fill);
      hole := junk[|prefix| + pad..];
      NumericPut(junk, prefix, numDigits, pad, fill);
      Appended(start, buffer, p, prefix + Repeat(pad, fill), hole, []);
      end := p + width - 1;
    }

    method PrepareRight(numDigits: nat, pad: nat, fill: char, prefix: string) returns (end: nat, ghost hole: string)
      requires numDigits >= 1
      modifies this
      ensures Prepared(old(buffer), buffer, Repeat(pad, fill) + prefix, numDigits, hole, [], end)
    {
      ghost var start := buffer;
      var width := |prefix| + numDigits + pad;
      var p := Grow(width);
      ghost var junk := buffer[p..];
      Copy(p, pad, prefix);
      Fill(p, 0, pad, fill);
      hole := junk[pad + |prefix|..];
      RightPut(junk, prefix, numDigits, pad, fill);
      Appended(start, buffer, p, Repeat(pad, fill) + prefix, hole, []);
      end := p + width - 1;
    }
  }

  lemma OneDigitLess(n: nat, base: nat)
    requires base >= 2
    ensures 0 <= n / base && (n / base == 0 || n / base < n)
    ensures |Digits.Of(n, base)| == 1 + if n / base == 0 then 0 else |Digits.Of(n / base, base)|
  {
    Digits.Quotient(n, base);
    if n < base { Modular.Unique(n, base, 0, n); }
  }

  lemma NumeralPush(n: nat, base: nat, upper: bool)
    requires 2 <= base <= 16
    ensures 0 <= n / base && n % base < 16 && (n / base == 0 <==> n < base)
    ensures n >= base ==> Numeral(n, base, upper) == Numeral(n / base, base, upper) + [DigitChar(n % base, upper)]
    ensures n < base ==> Numeral(n, base, upper) == [DigitChar(n % base, upper)]
  {
    Digits.Quotient(n, base);
    if n >= base {
      NumeralMore(n, n / base, n % base, base, upper);
    } else {
      Digits.ProductAtMost(base, n / base, 0);
      assert Digits.Of(n, base) == [n] && n % base == n;
    }
  }

  lemma NumeralMore(n: nat, q: nat, r: nat, base: nat, upper: bool)
    requires 2 <= base <= 16 && n >= base && q == n / base && r == n % base && r < base
    ensures Numeral(n, base, upper) == Numeral(q, base, upper) + [DigitChar(r, upper)]
  {
    Digits.ValueOf(n, base);
    Digits.ValueOf(q, base);
    CharsPushOne(Digits.Of(q, base), r, upper);
  }

  lemma CharsPushOne(d: seq<nat>, x: nat, upper: bool)
    requires AllBelow(d, 16) && x < 16
    ensures AllBelow(d + [x], 16) && Chars(d + [x], upper) == Chars(d, upper) + [DigitChar(x, upper)]
  {
  }

  /** The hole of the digits, filled from the end down to the first `rem`. */
  ghost predicate Filled(buffer: string, before: string, hole: string, text: string, after: string, rem: nat) {
    && rem <= |text| == |hole|
    && buffer == before + hole[..rem] + text[rem..] + after
  }

  lemma FillOne(buffer: string, before: string, hole: string, text: string, after: string, rem: nat)
    requires Filled(buffer, before, hole, text, after, rem) && rem >= 1
    ensures |before| + rem <= |buffer|
    ensures Filled(buffer[|before| + rem - 1 := text[rem - 1]], before, hole, text, after, rem - 1)
  {
    assert text[rem - 1..] == [text[rem - 1]] + text[rem..];
    assert hole[..rem] == hole[..rem - 1] + [hole[rem - 1]];
  }

  lemma FillPair(buffer: string, before: string, hole: string, text: string, after: string, rem: nat, pair: string)
    requires Filled(buffer, before, hole, text, after, rem) && rem >= 2 && |pair| == 2
    requires text[..rem][rem - 2..] == pair
    ensures |before| + rem <= |buffer|
    ensures Filled(buffer[|before| + rem - 1 := pair[1]][|before| + rem - 2 := pair[0]], before, hole, text, after, rem - 2)
  {
    assert text[rem - 1] == pair[1] && text[rem - 2] == pair[0];
    FillOne(buffer, before, hole, text, after, rem);
    FillOne(buffer[|before| + rem - 1 := pair[1]], before, hole, text, after, rem - 1);
  }

  /** The next digit of n, from the end. */
  lemma DigitDown(buffer: string, before: string, hole: string, text: string, after: string, rem: nat,
                  n: nat, base: nat, upper: bool)
    requires 2 <= base <= 16 && Filled(buffer, before, hole, text, after, rem) && rem >= 1
    requires text[..rem] == Numeral(n, base, upper)
    ensures 0 <= n / base && (n / base != 0 ==> n / base < n) && n % base < 16 && |before| + rem <= |buffer|
    ensures Filled(buffer[|before| + rem - 1 := DigitChar(n % base, upper)], before, hole, text, after, rem - 1)
    ensures if n / base != 0 then rem >= 2 && text[..rem - 1] == Numeral(n / base, base, upper) else rem == 1
  {
    Digits.Quotient(n, base);
    NumeralPush(n, base, upper);
    FillOne(buffer, before, hole, text, after, rem);
    assert text[rem - 1] == text[..rem][rem - 1] && text[..rem][..rem - 1] == text[..rem - 1];
  }

  /** The next two decimal digits of v. */
  lemma PairDown(buffer: string, before: string, hole: string, text: string, after: string, rem: nat, v: nat)
    requires v >= 100 && Filled(buffer, before, hole, text, after, rem) && text[..rem] == Numeral(v, 10, false)
    ensures rem >= 3 && text[..rem - 2] == Numeral(v / 100, 10, false) && |before| + rem <= |buffer|
    ensures var pair := PairText(v % 100);
            Filled(buffer[|before| + rem - 1 := pair[1]][|before| + rem - 2 := pair[0]], before, hole, text, after, rem - 2)
  {
    NumeralStep(v);
    assert text[..rem][..rem - 2] == text[..rem - 2];
    FillPair(buffer, before, hole, text, after, rem, PairText(v % 100));
  }

  /** The last one or two digits. */
  lemma TopDown(buffer: string, before: string, hole: string, text: string, after: string, rem: nat, v: nat)
    requires v < 100 && Filled(buffer, before, hole, text, after, rem) && text[..rem] == Numeral(v, 10, false)
    ensures rem == (if v < 10 then 1 else 2) && |before| + rem <= |buffer|
    ensures v < 10 ==> buffer[|before| := ('0' as int + v) as char] == before + text + after
    ensures v >= 10 ==> buffer[|before| + 1 := PairText(v)[1]][|before| := PairText(v)[0]] == before + text + after
  {
    NumeralTop(v);
    if v < 10 {
      FillOne(buffer, before, hole, text, after, 1);
      assert text[0] == text[..1][0];
    } else {
      FillPair(buffer, before, hole, text, after, 2, PairText(v));
    }
    assert hole[..0] == [] && text[0..] == text && before + [] == before;
  }

  lemma Unprefixed(start: string, buffer: string, before: string, n: nat, hole: string, after: string, end: int)
    requires Prepared(start, buffer, before, n, hole, after, end)
    ensures Prepared("", buffer, start + before, n, hole, after, end)
  {
    assert "" + (start + before) == start + before;
  }

  lemma Appending(start: string, before: string, digits: string, after: string)
    ensures start + before + digits + after == start + (before + digits + after)
  {
  }

  /** The buffer was extended by `before`, the places of n digits and `after`; `end` is the last of those places. */
  ghost predicate Prepared(start: string, buffer: string, before: string, n: nat, hole: string, after: string, end: int) {
    |hole| == n && buffer == start + before + hole + after && end + 1 == |start| + |before| + n
  }

  lemma Appended(start: string, buffer: string, p: nat, before: string, hole: string, after: string)
    requires p <= |buffer| && buffer[..p] == start && buffer[p..] == before + hole + after
    ensures buffer == start + before + hole + after
  {
    assert buffer == buffer[..p] + buffer[p..];
  }

  lemma LeftPut(junk: string, prefix: string, n: nat, pad: nat, c: char)
    requires |junk| == |prefix| + n + pad
    ensures Put(Put(junk, 0, prefix), |prefix| + n, Repeat(pad, c)) ==
            prefix + junk[|prefix|..|prefix| + n] + Repeat(pad, c)
  {
  }

  lemma CenterPut(junk: string, left: nat, prefix: string, n: nat, right: nat, c: char)
    requires |junk| == left + |prefix| + n + right
    ensures Put(Put(Put(junk, 0, Repeat(left, c)), left + |prefix| + n, Repeat(right, c)), left, prefix) ==
            Repeat(left, c) + prefix + junk[left + |prefix|..left + |prefix| + n] + Repeat(right, c)
  {
  }

  lemma NumericPut(junk: string, prefix: string, n: nat, pad: nat, c: char)
    requires |junk| == |prefix| + pad + n
    ensures Put(Put(junk, 0, prefix), |prefix|, Repeat(pad, c)) == prefix + Repeat(pad, c) + junk[|prefix| + pad..] + []
    ensures prefix == [] ==> Put(junk, 0, Repeat(pad, c)) == prefix + Repeat(pad, c) + junk[|prefix| + pad..] + []
  {
  }

  lemma RightPut(junk: string, prefix: string, n: nat, pad: nat, c: char)
    requires |junk| == |prefix| + pad + n
    ensures Put(Put(junk, pad, prefix), 0, Repeat(pad, c)) == Repeat(pad, c) + prefix + junk[pad + |prefix|..] + []
  {
  }

  // ---------- what the written text is ----------

  /** The text is as wide as asked, or as wide as it must be; left alignment pads on the right only, centering
      evenly, numeric alignment not at all outside, everything else on the left only. */
  lemma WidthAndAlignment(value: int, spec: FormatSpec)
    requires KnownKind(spec.kind)
    ensures var digits := Numeral(if value < 0 then -value else value, BaseOf(spec.kind), spec.kind == 'X');
            var l := LayoutOf(|digits|, spec, Prefix(value, spec));
            var content := |l.prefix| + if spec.precision > |digits| then spec.precision else |digits|;
            && |Written(value, spec)| == (if spec.width > content then spec.width else content)
            && (spec.align == LeftAlign ==> l.left == 0)
            && (spec.align == CenterAlign && spec.precision <= |digits| ==> l.left <= l.right <= l.left + 1)
            && (spec.align == NumericAlign && spec.precision <= |digits| ==> l.left == l.right == 0)
            && (spec.align == RightAlign || spec.align == DefaultAlign ==> l.right == 0)
  {
  }

  /** Between the padding stands the sign and base prefix, and then a text that reads back as the magnitude,
      zeros of a precision included, whatever the base; without a precision or zero fill it has no leading zero
      but for 0 itself. */
  lemma WrittenReadsBack(value: int, spec: FormatSpec)
    requires KnownKind(spec.kind)
    ensures var magnitude := if value < 0 then -value else value;
            var base := if spec.kind == 'x' || spec.kind == 'X' then 16 else if spec.kind == 'b' || spec.kind == 'B' then 2
                        else if spec.kind == 'o' then 8 else 10;
            var digits := Numeral(magnitude, base, spec.kind == 'X');
            var l := LayoutOf(|digits|, spec, Prefix(value, spec));
            && Written(value, spec) ==
               Repeat(l.left, spec.fill) + l.prefix + Repeat(l.inner, l.innerFill) + digits + Repeat(l.right, spec.fill)
            && (l.innerFill == '0' ==> Read(Repeat(l.inner, l.innerFill) + digits, base) == magnitude)
            && Read(digits, base) == magnitude && (digits[0] == '0' ==> magnitude == 0)
  {
    var magnitude := if value < 0 then -value else value;
    var base := BaseOf(spec.kind);
    var digits := Numeral(magnitude, base, spec.kind == 'X');
    var l := LayoutOf(|digits|, spec, Prefix(value, spec));
    NumeralReadsBack(magnitude, base, spec.kind == 'X', l.inner);
    NumeralReadsBack(magnitude, base, spec.kind == 'X', 0);
    assert Repeat(0, '0') + digits == digits;
  }

  // ---------- the text, spelled out ----------

  /** The characters of s are the digits of n in positional notation, without leading zeros: `alphabet` has one
      character for each digit, and the base is how many there are. */
  ghost predicate Spells(s: string, alphabet: string, n: nat) {
    exists d: seq<nat> :: SpelledBy(s, alphabet, n, d)
  }

  ghost predicate SpelledBy(s: string, alphabet: string, n: nat, d: seq<nat>) {
    && |d| == |s| >= 1 && Digits.Value(d, |alphabet|) == n
    && (forall i | 0 <= i < |s| :: d[i] < |alphabet| && s[i] == alphabet[d[i]])
    && (d[0] == 0 ==> |s| == 1)
  }

  lemma LowerAlphabet(d: nat)
    requires d < 16
    ensures DigitChar(d, false) == "0123456789abcdef"[d]
  {
    if d < 8 {
      assert d == 0 || d == 1 || d == 2 || d == 3 || d == 4 || d == 5 || d == 6 || d == 7;
    } else {
      assert d == 8 || d == 9 || d == 10 || d == 11 || d == 12 || d == 13 || d == 14 || d == 15;
    }
  }

  lemma UpperAlphabet(d: nat)
    requires d < 16
    ensures DigitChar(d, true) == "0123456789ABCDEF"[d]
  {
    if d < 8 {
      assert d == 0 || d == 1 || d == 2 || d == 3 || d == 4 || d == 5 || d == 6 || d == 7;
    } else {
      assert d == 8 || d == 9 || d == 10 || d == 11 || d == 12 || d == 13 || d == 14 || d == 15;
    }
  }

  lemma NumeralSpells(n: nat, base: nat, upper: bool, alphabet: string)
    requires 2 <= base <= 16 && |alphabet| == base
    requires alphabet <= if upper then "0123456789ABCDEF" else "0123456789abcdef"
    ensures Spells(Numeral(n, base, upper), alphabet, n)
  {
    var d, s := Digits.Of(n, base), Numeral(n, base, upper);
    Digits.ValueOf(n, base);
    forall i | 0 <= i < |s| ensures s[i] == alphabet[d[i]] {
      if upper { UpperAlphabet(d[i]); } else { LowerAlphabet(d[i]); }
    }
    if d[0] == 0 { assert n == 0; }
    assert SpelledBy(s, alphabet, n, d);
  }

  /** The parts of a written number: padding, sign, mark of the base, what stands before the digits, digits, padding. */
  datatype Parts = Parts(left: nat, sign: string, mark: string, inner: string, digits: string, right: nat)

  function PartsText(p: Parts, fill: char): string {
    Repeat(p.left, fill) + p.sign + p.mark + p.inner + p.digits + Repeat(p.right, fill)
  }

  /** The digits are in the base of the kind, in lower case except for `X`. */
  ghost predicate DigitsOk(kind: char, magnitude: nat, digits: string) {
    && (kind == 0 as char || kind == 'd' ==> Spells(digits, "0123456789", magnitude))
    && (kind == 'x' ==> Spells(digits, "0123456789abcdef", magnitude))
    && (kind == 'X' ==> Spells(digits, "0123456789ABCDEF", magnitude))
    && (kind == 'b' || kind == 'B' ==> Spells(digits, "01", magnitude))
    && (kind == 'o' ==> Spells(digits, "01234567", magnitude))
  }

  /** The sign is a minus for negative numbers only; others have a plus, a space or nothing by the flags. */
  predicate SignOk(value: int, spec: FormatSpec, sign: string) {
    sign == if value < 0 then "-" else if !spec.sign then "" else if spec.plus then "+" else " "
  }

  /** The mark of the base is asked for by a flag; a precision that asks for more digits stands for the octal one. */
  predicate MarkOk(spec: FormatSpec, numDigits: nat, mark: string) {
    && (!spec.hash || spec.kind == 0 as char || spec.kind == 'd' ==> mark == "")
    && (spec.hash && spec.kind == 'x' ==> mark == "0x")
    && (spec.hash && spec.kind == 'X' ==> mark == "0X")
    && (spec.hash && spec.kind == 'b' ==> mark == "0b")
    && (spec.hash && spec.kind == 'B' ==> mark == "0B")
    && (spec.hash && spec.kind == 'o' ==> mark == if spec.precision > numDigits then "" else "0")
  }

  /** Zeros make up the precision; the fill makes up the width, where the alignment says. */
  predicate PaddingOk(spec: FormatSpec, p: Parts) {
    var precise := spec.precision > |p.digits|;
    var size := |p.sign| + |p.mark| + (if precise then spec.precision else |p.digits|);
    var pad: nat := if spec.width > size then spec.width - size else 0;
    && p.inner == (if precise then Repeat(spec.precision - |p.digits|, '0')
                   else if spec.align == NumericAlign then Repeat(pad, spec.fill) else "")
    && p.left == (if spec.align == LeftAlign then 0 else if precise then pad
                  else if spec.align == CenterAlign then pad / 2 else if spec.align == NumericAlign then 0 else pad)
    && p.left + p.right == (if spec.align == NumericAlign && !precise then 0 else pad)
  }

  ghost predicate PartsOk(value: int, spec: FormatSpec, p: Parts) {
    && DigitsOk(spec.kind, if value < 0 then -value else value, p.digits)
    && SignOk(value, spec, p.sign) && MarkOk(spec, |p.digits|, p.mark) && PaddingOk(spec, p)
  }

  /** What `write_int` appends, part by part. */
  lemma WrittenSpelled(value: int, spec: FormatSpec) returns (p: Parts)
    requires spec.kind == 0 as char || spec.kind in "dxXbBo"
    ensures KnownKind(spec.kind)
    ensures PartsOk(value, spec, p) && Written(value, spec) == PartsText(p, spec.fill)
  {
    var digits := DigitsSpelled(value, spec);
    var mark := MarkOf(value, spec, |digits|);
    p := Placed(spec, Prefix(value, spec), SignPrefix(value, spec), mark, digits);
    Assembled(value, spec, digits, mark);
  }

  lemma DigitsSpelled(value: int, spec: FormatSpec) returns (digits: string)
    requires KnownKind(spec.kind)
    ensures digits == Numeral(if value < 0 then -value else value, BaseOf(spec.kind), spec.kind == 'X')
    ensures DigitsOk(spec.kind, if value < 0 then -value else value, digits)
  {
    var magnitude := if value < 0 then -value else value;
    var base, upper := BaseOf(spec.kind), spec.kind == 'X';
    digits := Numeral(magnitude, base, upper);
    if upper {
      NumeralSpells(magnitude, base, upper, "0123456789ABCDEF");
    } else {
      NumeralSpells(magnitude, base, upper, "0123456789abcdef"[..base]);
      assert "0123456789abcdef"[..16] == "0123456789abcdef" && "0123456789abcdef"[..10] == "0123456789";
      assert "0123456789abcdef"[..8] == "01234567" && "0123456789abcdef"[..2] == "01";
    }
  }

  lemma Assembled(value: int, spec: FormatSpec, digits: string, mark: string)
    requires KnownKind(spec.kind)
    requires digits == Numeral(if value < 0 then -value else value, BaseOf(spec.kind), spec.kind == 'X')
    requires LayoutOf(|digits|, spec, Prefix(value, spec)).prefix == SignPrefix(value, spec) + mark
    ensures var l := LayoutOf(|digits|, spec, Prefix(value, spec));
            Written(value, spec) ==
            Repeat(l.left, spec.fill) + SignPrefix(value, spec) + mark + Repeat(l.inner, l.innerFill) + digits +
            Repeat(l.right, spec.fill)
  {
    var l := LayoutOf(|digits|, spec, Prefix(value, spec));
    Associate(Repeat(l.left, spec.fill), SignPrefix(value, spec), mark);
  }

  /** Where the padding goes. */
  lemma Placed(spec: FormatSpec, prefix: string, sign: string, mark: string, digits: string) returns (p: Parts)
    requires LayoutOf(|digits|, spec, prefix).prefix == sign + mark
    ensures var l := LayoutOf(|digits|, spec, prefix);
            p == Parts(l.left, sign, mark, Repeat(l.inner, l.innerFill), digits, l.right)
    ensures PaddingOk(spec, p)
  {
    var l := LayoutOf(|digits|, spec, prefix);
    p := Parts(l.left, sign, mark, Repeat(l.inner, l.innerFill), digits, l.right);
    assert Repeat(0, spec.fill) == "";
  }

  /** What the layout keeps of the mark of the base. */
  lemma MarkOf(value: int, spec: FormatSpec, numDigits: nat) returns (mark: string)
    requires KnownKind(spec.kind)
    ensures LayoutOf(numDigits, spec, Prefix(value, spec)).prefix == SignPrefix(value, spec) + mark
    ensures MarkOk(spec, numDigits, mark)
  {
    var sign := SignPrefix(value, spec);
    mark := if !spec.hash || BaseOf(spec.kind) == 10 then "" else if spec.kind != 'o' then ['0', spec.kind]
            else if spec.precision > numDigits then "" else "0";
    assert (sign + "0")[..|sign|] == sign;
    assert sign + "" == sign;
  }

  const PLAIN: FormatSpec := FormatSpec(0, DefaultAlign, ' ', -1, false, false, false, 0 as char)

  /** Without any specification the text is plain decimal. */
  lemma PlainIsDecimal(value: int)
    ensures Written(value, PLAIN) == DecimalText(value)
  {
    var digits := Numeral(if value < 0 then -value else value, 10, false);
    var sign := if value < 0 then "-" else "";
    assert Repeat(0, ' ') == [] && [] + sign == sign;
    assert Prefix(value, PLAIN) == sign + "" == sign;
    assert sign + [] + digits + [] == sign + digits;
  }

  /** The two formatters agree. */
  method BothFormatters(value: int) returns (s: string, t: string)
    requires -(WORD_SIZE / 2) <= value < WORD_SIZE / 2
    ensures s == t == DecimalText(value)
  {
    var w := new Writer();
    var ok := w.WriteInt(value, PLAIN);
    var f := new FormatInt.Signed(value);
    PlainIsDecimal(value);
    assert [] + DecimalText(value) == DecimalText(value);
    s := w.buffer;
    t := f.Text();
  }

  /** Plain decimal: a minus for negative numbers and then the decimal digits without leading zeros. */
  lemma DecimalSpelled(value: int) returns (digits: string)
    ensures Spells(digits, "0123456789", if value < 0 then -value else value)
    ensures DecimalText(value) == if value < 0 then "-" + digits else digits
  {
    digits := Numeral(if value < 0 then -value else value, 10, false);
    NumeralSpells(if value < 0 then -value else value, 10, false, "0123456789");
  }
}
