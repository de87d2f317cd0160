/** JSON strings of include/thirdparty/picojson.h: `_parse_quadhex`, `_parse_codepoint` and `_parse_string`
  (lines 586-684) and `serialize_str` (406-431).

  The reference is the definition of UTF-8 in section 3 of RFC 3629 and of escapes in section 7 of RFC 8259.
 */
module JsonString {
  import opened JsonText
  import opened JsonInput
  import opened PowersOfTwo
  import Modular

  /** What a parser makes of a text: a value and what follows it. */
  datatype Result<+T> = Fail | Done(value: T, rest: Bytes)

  // ---------- escapes ----------

  function HexDigit(b: int): Option<nat> {
    if ZERO <= b <= NINE then Some(b - ZERO)
    else if UPPER_A <= b <= UPPER_A + 5 then Some(b - UPPER_A + 10)
    else if LOWER_A <= b <= LOWER_A + 5 then Some(b - LOWER_A + 10)
    else None
  }

  predicate IsHex4(s: Bytes) {
    |s| >= 4 && HexDigit(s[0]).Some? && HexDigit(s[1]).Some? && HexDigit(s[2]).Some? && HexDigit(s[3]).Some?
  }

  function Hex4(s: Bytes): (u: nat)
    requires IsHex4(s)
    ensures u < 0x10000
  {
    0x1000 * HexDigit(s[0]).value + 0x100 * HexDigit(s[1]).value + 0x10 * HexDigit(s[2]).value + HexDigit(s[3]).value
  }

  predicate AllHex(s: Bytes, p: nat, i: nat)
    requires p + i <= |s|
  {
    forall j | p <= j < p + i :: HexDigit(s[j]).Some?
  }

  /** The number that i digits from p on spell. */
  function HexValue(s: Bytes, p: nat, i: nat): nat
    requires p + i <= |s| && AllHex(s, p, i)
  {
    if i == 0 then 0 else HexValue(s, p, i - 1) * 16 + HexDigit(s[p + i - 1]).value
  }

  lemma OneDigit(s: Bytes, p: nat, i: nat)
    requires p + i < |s| && AllHex(s, p, i) && HexDigit(s[p + i]).Some?
    ensures AllHex(s, p, i + 1) && HexValue(s, p, i + 1) == HexValue(s, p, i) * 16 + HexDigit(s[p + i]).value
  {
  }

  lemma FourDigits(s: Bytes, p: nat)
    requires p + 4 <= |s| && AllHex(s, p, 4)
    ensures IsHex4(s[p..]) && HexValue(s, p, 4) == Hex4(s[p..]) && s[p..][4..] == s[p + 4..]
  {
    assert HexValue(s, p, 1) == HexDigit(s[p]).value;
    assert HexValue(s, p, 2) == HexValue(s, p, 1) * 16 + HexDigit(s[p + 1]).value;
    assert HexValue(s, p, 3) == HexValue(s, p, 2) * 16 + HexDigit(s[p + 2]).value;
    DropMore(s, p, 4);
  }

  lemma NotFourDigits(s: Bytes, p: nat, i: nat)
    requires p + i <= |s| && i < 4 && (p + i == |s| || HexDigit(s[p + i]).None?)
    ensures !IsHex4(s[p..])
  {
    if p + i < |s| {
      assert s[p..][i] == s[p + i];
      assert i == 0 || i == 1 || i == 2 || i == 3;
    }
  }

  predicate IsHigh(u: int) { 0xd800 <= u <= 0xdbff }

  predicate IsLow(u: int) { 0xdc00 <= u <= 0xdfff }

  /** The scalar value of a surrogate pair, as RFC 8259 takes it from UTF-16. */
  function Pair(high: nat, low: nat): nat
    requires IsHigh(high) && IsLow(low)
  {
    0x10000 + (high - 0xd800) * 0x400 + (low - 0xdc00)
  }

  predicate IsScalar(u: int) {
    0 <= u <= 0x10ffff && !IsHigh(u) && !IsLow(u)
  }

  /** What the text after `\u` denotes: four hexadecimal digits that are no surrogate, or a high surrogate and
      the escape of a low one. */
  function Escaped(s: Bytes): (r: Option<(nat, nat)>)
    ensures r.Some? ==> IsScalar(r.value.0) && (r.value.1 == 4 || r.value.1 == 10) && r.value.1 <= |s|
  {
    if !IsHex4(s) then None
    else if IsLow(Hex4(s)) then None
    else if !IsHigh(Hex4(s)) then Some((Hex4(s), 4))
    else if |s| >= 10 && s[4] == BACKSLASH && s[5] == LOWER_U && IsHex4(s[6..]) && IsLow(Hex4(s[6..])) then
      Some((Pair(Hex4(s), Hex4(s[6..])), 10))
    else None
  }

  // ---------- UTF-8 ----------

  predicate IsTail(b: int) { 0x80 <= b <= 0xbf }

  /** The scalar value a byte sequence encodes: the table of section 3 of RFC 3629, without overlong forms and
      without surrogates. */
  function Decode(b: Bytes): Option<int> {
    if |b| == 1 && b[0] < 0x80 then Some(b[0])
    else if |b| == 2 && 0xc0 <= b[0] < 0xe0 && IsTail(b[1]) then
      Checked(Join(b[0] as int - 0xc0, b[1]), 0x80)
    else if |b| == 3 && 0xe0 <= b[0] < 0xf0 && IsTail(b[1]) && IsTail(b[2]) then
      Checked(Join(Join(b[0] as int - 0xe0, b[1]), b[2]), 0x800)
    else if |b| == 4 && 0xf0 <= b[0] < 0xf8 && IsTail(b[1]) && IsTail(b[2]) && IsTail(b[3]) then
      Checked(Join(Join(Join(b[0] as int - 0xf0, b[1]), b[2]), b[3]), 0x1_0000)
    else None
  }

  /** Six more bits. */
  function Join(u: int, tail: int): int {
    u * 0x40 + (tail - 0x80)
  }

  function Checked(u: int, least: int): Option<int> {
    if least <= u && IsScalar(u) then Some(u) else None
  }

  lemma Powers()
    ensures Pow2(3) == 0x08 && Pow2(4) == 0x10 && Pow2(5) == 0x20 && Pow2(6) == 0x40
    ensures Pow2(12) == 0x1000 && Pow2(18) == 0x4_0000
  {
    assert Pow2(9) == 8 * Pow2(6);
    assert Pow2(12) == 8 * Pow2(9);
    assert Pow2(15) == 8 * Pow2(12);
    assert Pow2(18) == 8 * Pow2(15);
  }

  /** Or-ing a payload of k bits onto a marker with k zero bits at its end adds it. */
  lemma Marked(marker: nat, m: nat, k: nat, x: nat)
    requires marker == m * Pow2(k) && x < Pow2(k)
    ensures Or(marker, x) == marker + x
  {
    OrAdds(m, x, k);
  }

  /** `0x80 | (u & 0x3f)`. */
  function Tail(u: nat): (b: Byte)
    ensures b == 0x80 + u % 0x40
  {
    Powers();
    MaskIsRemainder(u, 6);
    Marked(0x80, 2, 6, u % 0x40);
    Or(0x80, And(u, 0x3f))
  }

  /** `marker | u`, for the lead byte of a sequence. */
  function Lead(marker: nat, u: nat): (b: Byte)
    requires (marker == 0xc0 && u < 0x20) || (marker == 0xe0 && u < 0x10) || (marker == 0xf0 && u < 0x08)
    ensures b == marker + u
  {
    Powers();
    if marker == 0xc0 then Marked(marker, 6, 5, u); Or(marker, u)
    else if marker == 0xe0 then Marked(marker, 14, 4, u); Or(marker, u)
    else Marked(marker, 30, 3, u); Or(marker, u)
  }

  /** `u >> 6`, `u >> 12` and `u >> 18` drop six bits once, twice and three times. */
  lemma Shifts(u: nat)
    ensures Shr(u, 6) == u / 0x40 && Shr(u, 12) == u / 0x40 / 0x40 && Shr(u, 18) == u / 0x40 / 0x40 / 0x40
  {
    Powers();
    ShrDivides(u, 6);
    ShrDivides(u, 12);
    ShrDivides(u, 18);
    DivideTwice(u, 0x40, 0x40);
    DivideTwice(u, 0x1000, 0x40);
  }

  lemma DivideTwice(u: nat, a: nat, b: nat)
    requires a > 0 && b > 0
    ensures u / a / b == u / (a * b)
  {
    var q, r := u / a, u % a;
    var q', r' := q / b, q % b;
    assert u == a * q + r && q == b * q' + r';
    assert a * (b * q') == (a * b) * q' && a * q == a * (b * q') + a * r';
    assert a * r' + r < a * b by { assert a * b == a * (b - r') + a * r'; Modular.AtLeastOneTimes(a, b - r'); }
    Modular.Unique(u, a * b, q', a * r' + r);
  }

  /** The bytes `_parse_codepoint` pushes for a scalar value. */
  function Utf8(u: nat): (b: Bytes)
    requires u < 0x110000
  {
    Shifts(u);
    if u < 0x80 then [u]
    else if u < 0x800 then [Lead(0xc0, Shr(u, 6)), Tail(u)]
    else if u < 0x10000 then [Lead(0xe0, Shr(u, 12)), Tail(Shr(u, 6)), Tail(u)]
    else [Lead(0xf0, Shr(u, 18)), Tail(Shr(u, 12)), Tail(Shr(u, 6)), Tail(u)]
  }

  /** Decoding the bytes of a scalar value gives the value back. */
  lemma Utf8Decodes(u: nat)
    requires IsScalar(u)
    ensures Decode(Utf8(u)) == Some(u)
  {
    var u1 := u / 0x40;
    var u2 := u1 / 0x40;
    var u3 := u2 / 0x40;
    Shifts(u);
    SplitJoins(u, u1);
    SplitJoins(u1, u2);
    SplitJoins(u2, u3);
  }

  lemma SplitJoins(u: nat, top: nat)
    requires top == u / 0x40
    ensures Join(top, Tail(u)) == u && IsTail(Tail(u)) && 0x40 * top <= u < 0x40 * top + 0x40
  {
  }

  lemma JoinSplits(u: nat, tail: Byte)
    requires IsTail(tail)
    ensures Join(u, tail) / 0x40 == u && Tail(Join(u, tail)) == tail
  {
  }

  /** And no other byte sequence decodes to it. */
  lemma Utf8Unique(b: Bytes, u: nat)
    requires Decode(b) == Some(u)
    ensures IsScalar(u) && b == Utf8(u)
  {
    Shifts(u);
    if |b| >= 2 {
      var u0 := if |b| == 2 then b[0] as int - 0xc0 else if |b| == 3 then b[0] as int - 0xe0 else b[0] as int - 0xf0;
      var u1 := Join(u0, b[1]);
      JoinSplits(u0, b[1]);
      if |b| >= 3 { JoinSplits(u1, b[2]); }
      if |b| >= 4 { JoinSplits(Join(u1, b[2]), b[3]); }
    }
  }

  // ---------- the code's own view of escapes ----------

  function Quadhex(s: Bytes): Result<nat> {
    if IsHex4(s) then Done(Hex4(s), s[4..]) else Fail
  }

  lemma LowBits(low: nat)
    requires IsLow(low)
    ensures And(low - 0xdc00, 0x3ff) == low - 0xdc00
  {
    assert Pow2(10) == 0x400;
    MaskIsRemainder(low - 0xdc00, 10);
  }

  lemma HighBits(high: nat, x: nat)
    requires IsHigh(high) && x < 0x400
    ensures Or((high - 0xd800) * 0x400, x) == (high - 0xd800) * 0x400 + x
  {
    assert Pow2(10) == 0x400;
    Marked((high - 0xd800) * 0x400, high - 0xd800, 10, x);
  }

  /** `((hi - 0xd800) << 10 | (lo - 0xdc00) & 0x3ff) + 0x10000`. */
  function Combine(high: nat, low: nat): (u: nat)
    requires IsHigh(high) && IsLow(low)
    ensures u == Pair(high, low)
  {
    LowBits(low);
    HighBits(high, low - 0xdc00);
    Or((high - 0xd800) * 0x400, And(low - 0xdc00, 0x3ff)) + 0x10000
  }

  function Codepoint(s: Bytes): (r: Result<Bytes>)
    ensures r.Done? ==> |r.rest| < |s|
  {
    match Quadhex(s)
    case Fail => Fail
    case Done(u, rest) =>
      if IsLow(u) then Fail
      else if !IsHigh(u) then Done(Utf8(u), rest)
      else if |rest| >= 2 && rest[0] == BACKSLASH && rest[1] == LOWER_U then
        (match Quadhex(rest[2..])
         case Fail => Fail
         case Done(low, rest') => if IsLow(low) then Done(Utf8(Combine(u, low)), rest') else Fail)
      else Fail
  }

  /** The code accepts exactly the escapes that denote a scalar value, and pushes the bytes that UTF-8 decodes
      to that value; lone and misordered surrogates are rejected. */
  lemma CodepointIsEscape(s: Bytes)
    ensures Codepoint(s).Done? <==> Escaped(s).Some?
    ensures Escaped(s).Some? ==>
              && Decode(Codepoint(s).value) == Some(Escaped(s).value.0)
              && Codepoint(s).rest == s[Escaped(s).value.1..]
  {
    if IsHex4(s) && IsHigh(Hex4(s)) && |s| >= 6 {
      assert s[4..][0] == s[4] && s[4..][1] == s[5] && s[4..][2..] == s[6..];
      assert |s| >= 10 ==> s[6..][4..] == s[10..];
    }
    if Escaped(s).Some? { Utf8Decodes(Escaped(s).value.0); }
  }

  /** The escapes of one character. */
  function Short(b: int): Option<Byte> {
    if b == QUOTE || b == BACKSLASH || b == SLASH then Some(b)
    else if b == 'b' as int then Some(BACKSPACE)
    else if b == 'f' as int then Some(FORM_FEED)
    else if b == 'n' as int then Some(NEWLINE)
    else if b == 'r' as int then Some(RETURN)
    else if b == 't' as int then Some(TAB)
    else None
  }

  function Prepend(b: Bytes, r: Result<Bytes>): Result<Bytes> {
    match r
    case Fail => Fail
    case Done(value, rest) => Done(b + value, rest)
  }

  /** What a string starts with after its opening quote: the closing quote, or a piece of its value. */
  datatype Head = Bad | End(rest: Bytes) | Piece(bytes: Bytes, rest: Bytes)

  function HeadOf(s: Bytes): (h: Head)
    ensures h.End? || h.Piece? ==> |h.rest| < |s|
  {
    if s == [] || s[0] < SPACE then Bad
    else if s[0] == QUOTE then End(s[1..])
    else if s[0] != BACKSLASH then Piece([s[0]], s[1..])
    else if |s| == 1 then Bad
    else if s[1] == LOWER_U then
      (match Codepoint(s[2..])
       case Fail => Bad
       case Done(b, rest) => Piece(b, rest))
    else
      match Short(s[1])
      case None => Bad
      case Some(b) => Piece([b], s[2..])
  }

  /** The rest of a string after its opening quote. */
  function StringBody(s: Bytes): (r: Result<Bytes>)
    ensures r.Done? ==> |r.rest| < |s|
    decreases |s|
  {
    match HeadOf(s)
    case Bad => Fail
    case End(rest) => Done([], rest)
    case Piece(bytes, rest) => Prepend(bytes, StringBody(rest))
  }

  // ---------- the parser itself ----------

  /** One hexadecimal digit; -1, and the byte given back, if there is none. */
  method ReadHexDigit(input: Input) returns (digit: int)
    requires input.Valid()
    modifies input
    ensures input.Valid()
    ensures var s, p := input.data, old(input.Pos());
            if p < |s| && HexDigit(s[p]).Some? then digit == HexDigit(s[p]).value && input.Pos() == p + 1 else digit == -1
  {
    var hex := input.Getc();
    if hex == -1 {
      return -1;
    }
    match HexDigit(hex) {
      case Some(value) => return value;
      case None =>
        input.Ungetc();
        return -1;
    }
  }

  method ParseQuadhex(input: Input) returns (u: int)
    requires input.Valid()
    modifies input
    ensures input.Valid()
    ensures match Quadhex(old(input.Rest()))
            case Fail => u == -1
            case Done(value, rest) => u == value && input.Rest() == rest
  {
    ghost var s, p := input.data, input.Pos();
    u := 0;
    for i := 0 to 4
      invariant input.Valid() && input.Pos() == p + i
      invariant AllHex(s, p, i) && u == HexValue(s, p, i)
    {
      var digit := ReadHexDigit(input);
      if digit == -1 {
        NotFourDigits(s, p, i);
        return -1;
      }
      OneDigit(s, p, i);
      u := u * 16 + digit;
    }
    FourDigits(s, p);
  }

  /** The second half of a surrogate pair, or that there is none. */
  function LowHalf(rest: Bytes): Result<nat> {
    if |rest| >= 2 && rest[0] == BACKSLASH && rest[1] == LOWER_U && Quadhex(rest[2..]).Done?
       && IsLow(Quadhex(rest[2..]).value) then
      Quadhex(rest[2..])
    else Fail
  }

  lemma CodepointFrom(s: Bytes, u: nat)
    requires Quadhex(s).Done? && Quadhex(s).value == u
    ensures var rest := Quadhex(s).rest;
            if IsLow(u) then Codepoint(s) == Fail
            else if !IsHigh(u) then u < 0x110000 && Codepoint(s) == Done(Utf8(u), rest)
            else
              match LowHalf(rest)
              case Fail => Codepoint(s) == Fail
              case Done(low, rest') => Codepoint(s) == Done(Utf8(Combine(u, low)), rest')
  {
  }

  method ParseCodepoint(input: Input) returns (ok: bool, out: Bytes)
    requires input.Valid()
    modifies input
    ensures input.Valid()
    ensures match Codepoint(old(input.Rest()))
            case Fail => !ok
            case Done(value, rest) => ok && out == value && input.Rest() == rest
  {
    ghost var s := input.Rest();
    out := [];
    var u := ParseQuadhex(input);
    if u == -1 {
      return false, [];
    }
    CodepointFrom(s, u);
    if 0xd800 <= u <= 0xdfff {
      if 0xdc00 <= u {
        return false, [];
      }
      ok, u := ParseLow(input, u);
      if !ok {
        return false, [];
      }
    }
    return true, Utf8(u);
  }

  /** The second half of a surrogate pair. */
  method ParseLow(input: Input, high: nat) returns (ok: bool, u: int)
    requires input.Valid() && IsHigh(high)
    modifies input
    ensures input.Valid()
    ensures match LowHalf(old(input.Rest()))
            case Fail => !ok
            case Done(low, rest) => IsLow(low) && ok && u == Combine(high, low) && input.Rest() == rest
  {
    u := high;
    ghost var s, p := input.data, input.Pos();
    var ch := input.Getc();
    if ch != BACKSLASH {
      input.Ungetc();
      return false, u;
    }
    ch := input.Getc();
    if ch != LOWER_U {
      input.Ungetc();
      return false, u;
    }
    DropMore(s, p, 2);
    var second := ParseQuadhex(input);
    if !(0xdc00 <= second <= 0xdfff) {
      return false, u;
    }
    return true, Combine(high, second);
  }

  lemma PrependNothing(r: Result<Bytes>)
    ensures Prepend([], r) == r
  {
    if r.Done? { assert [] + r.value == r.value; }
  }

  /** One more piece was read. */
  lemma PieceRead(goal: Result<Bytes>, out: Bytes, s: Bytes, bytes: Bytes, rest: Bytes)
    requires goal == Prepend(out, StringBody(s)) && HeadOf(s) == Piece(bytes, rest)
    ensures goal == Prepend(out + bytes, StringBody(rest))
  {
    var r := StringBody(rest);
    if r.Done? { assert out + (bytes + r.value) == out + bytes + r.value; }
  }

  /** The closing quote was read, or what is there cannot be in a string. */
  lemma EndRead(goal: Result<Bytes>, out: Bytes, s: Bytes)
    requires goal == Prepend(out, StringBody(s))
    ensures HeadOf(s) == Bad ==> goal == Fail
    ensures HeadOf(s).End? ==> goal == Done(out, HeadOf(s).rest)
  {
    assert out + [] == out;
  }

  datatype Round = Rejected | Closed | Pushed(bytes: Bytes)

  /** One round of the loop of `_parse_string`. */
  method ParsePiece(input: Input) returns (round: Round)
    requires input.Valid()
    modifies input
    ensures input.Valid()
    ensures match HeadOf(old(input.Rest()))
            case Bad => round == Rejected
            case End(rest) => round == Closed && input.Rest() == rest
            case Piece(bytes, rest) => round == Pushed(bytes) && input.Rest() == rest
  {
    ghost var s, p := input.data, input.Pos();
    var ch := input.Getc();
    if ch < SPACE {
      input.Ungetc();
      return Rejected;
    }
    DropMore(s, p, 1);
    if ch == QUOTE {
      return Closed;
    } else if ch == BACKSLASH {
      ch := input.Getc();
      if ch == -1 {
        return Rejected;
      }
      DropMore(s, p, 2);
      if ch == LOWER_U {
        var ok, bytes := ParseCodepoint(input);
        return if ok then Pushed(bytes) else Rejected;
      }
      match Short(ch) {
        case None => return Rejected;
        case Some(b) => return Pushed([b]);
      }
    } else {
      return Pushed([ch]);
    }
  }

  method ParseString(input: Input) returns (ok: bool, out: Bytes)
    requires input.Valid()
    modifies input
    ensures input.Valid()
    ensures match StringBody(old(input.Rest()))
            case Fail => !ok
            case Done(value, rest) => ok && out == value && input.Rest() == rest
  {
    ghost var goal := StringBody(input.Rest());
    out := [];
    PrependNothing(goal);
    while true
      invariant input.Valid()
      invariant goal == Prepend(out, StringBody(input.Rest()))
      decreases |input.Rest()|
    {
      ghost var s := input.Rest();
      EndRead(goal, out, s);
      var round := ParsePiece(input);
      match round {
        case Rejected => return false, out;
        case Closed => return true, out;
        case Pushed(bytes) =>
          PieceRead(goal, out, s, bytes, input.Rest());
          out := out + bytes;
      }
    }
    return false, out;
  }

  // ---------- a grammar of strings ----------

  /** A string is a sequence of raw bytes and escapes; `digits` are what stands after `\u`. */
  datatype Item = Raw(b: Byte) | Letter(letter: Byte) | Unicode(digits: Bytes)

  predicate ItemOk(x: Item) {
    match x
    case Raw(b) => b >= SPACE && b != QUOTE && b != BACKSLASH
    case Letter(letter) => Short(letter).Some?
    case Unicode(digits) => Escaped(digits).Some? && Escaped(digits).value.1 == |digits|
  }

  function Render(x: Item): Bytes {
    match x
    case Raw(b) => [b]
    case Letter(letter) => [BACKSLASH, letter]
    case Unicode(digits) => [BACKSLASH, LOWER_U] + digits
  }

  ghost predicate Means(x: Item, bytes: Bytes) {
    match x
    case Raw(b) => bytes == [b]
    case Letter(letter) => Short(letter).Some? && bytes == [Short(letter).value]
    case Unicode(digits) => Escaped(digits).Some? && Decode(bytes) == Some(Escaped(digits).value.0)
  }

  /** `text` is `items` one after the other and a closing quote, and `value` what they mean. */
  ghost predicate Spells(items: seq<Item>, values: seq<Bytes>, text: Bytes, value: Bytes)
    requires |items| == |values|
  {
    if items == [] then text == [QUOTE] && value == []
    else
      && ItemOk(items[0]) && Means(items[0], values[0])
      && Render(items[0]) <= text && values[0] <= value
      && Spells(items[1..], values[1..], text[|Render(items[0])|..], value[|values[0]|..])
  }

  lemma EscapedMore(digits: Bytes, rest: Bytes)
    requires Escaped(digits).Some? && Escaped(digits).value.1 == |digits|
    ensures Escaped(digits + rest) == Escaped(digits)
  {
    var s := digits + rest;
    assert forall i | 0 <= i < |digits| :: s[i] == digits[i];
    if |digits| == 10 {
      assert forall i | 0 <= i < 4 :: s[6..][i] == digits[6..][i];
    }
  }

  lemma EscapedLess(s: Bytes)
    requires Escaped(s).Some?
    ensures Escaped(s[..Escaped(s).value.1]) == Escaped(s)
  {
    var n := Escaped(s).value.1;
    var t := s[..n];
    assert forall i | 0 <= i < n :: t[i] == s[i];
    if n == 10 {
      assert forall i | 0 <= i < 4 :: t[6..][i] == s[6..][i];
    }
  }

  /** One item at the front of a string. */
  lemma ItemStep(x: Item, bytes: Bytes, rest: Bytes)
    requires ItemOk(x) && Means(x, bytes)
    ensures HeadOf(Render(x) + rest) == Piece(bytes, rest)
  {
    match x
    case Raw(b) => assert ([b] + rest)[1..] == rest;
    case Letter(letter) => assert ([BACKSLASH, letter] + rest)[2..] == rest;
    case Unicode(digits) => UnicodeStep(digits, bytes, rest);
  }

  lemma UnicodeStep(digits: Bytes, bytes: Bytes, rest: Bytes)
    requires Escaped(digits).Some? && Escaped(digits).value.1 == |digits|
    requires Decode(bytes) == Some(Escaped(digits).value.0)
    ensures HeadOf([BACKSLASH, LOWER_U] + digits + rest) == Piece(bytes, rest)
  {
    var s := [BACKSLASH, LOWER_U] + digits + rest;
    assert s[2..] == digits + rest && (digits + rest)[|digits|..] == rest;
    EscapedMore(digits, rest);
    CodepointIsEscape(digits + rest);
    Utf8Unique(bytes, Escaped(digits).value.0);
    Utf8Unique(Codepoint(digits + rest).value, Escaped(digits).value.0);
  }

  /** A string that starts with an item, seen from that item. */
  lemma SpellsSplit(items: seq<Item>, values: seq<Bytes>, text: Bytes, value: Bytes) returns (text': Bytes, value': Bytes)
    requires |items| == |values| && items != [] && Spells(items, values, text, value)
    ensures text == Render(items[0]) + text' && value == values[0] + value'
    ensures ItemOk(items[0]) && Means(items[0], values[0]) && Spells(items[1..], values[1..], text', value')
  {
    text', value' := text[|Render(items[0])|..], value[|values[0]|..];
  }

  lemma SpellsPush(x: Item, bytes: Bytes, items: seq<Item>, values: seq<Bytes>, text: Bytes, value: Bytes)
    requires |items| == |values| && ItemOk(x) && Means(x, bytes) && Spells(items, values, text, value)
    ensures Spells([x] + items, [bytes] + values, Render(x) + text, bytes + value)
  {
    assert ([x] + items)[1..] == items && ([bytes] + values)[1..] == values;
    assert (Render(x) + text)[|Render(x)|..] == text && (bytes + value)[|bytes|..] == value;
  }

  lemma Regroup(a: Bytes, b: Bytes, c: Bytes)
    ensures a + b + c == a + (b + c)
  {
  }

  lemma PieceThen(s: Bytes, bytes: Bytes, rest: Bytes, value: Bytes, after: Bytes)
    requires HeadOf(s) == Piece(bytes, rest) && StringBody(rest) == Done(value, after)
    ensures StringBody(s) == Done(bytes + value, after)
  {
  }

  lemma ClosingQuote(rest: Bytes)
    ensures StringBody([QUOTE] + rest) == Done([], rest)
  {
    assert ([QUOTE] + rest)[1..] == rest;
  }

  /** Every text of the grammar is accepted with its meaning, whatever follows it: strings delimit themselves. */
  lemma {:induction false} AcceptsGrammar(items: seq<Item>, values: seq<Bytes>, text: Bytes, value: Bytes, rest: Bytes)
    requires |items| == |values| && Spells(items, values, text, value)
    ensures StringBody(text + rest) == Done(value, rest)
    decreases |items|
  {
    if items == [] {
      ClosingQuote(rest);
    } else {
      var text', value' := SpellsSplit(items, values, text, value);
      AcceptsGrammar(items[1..], values[1..], text', value', rest);
      Regroup(Render(items[0]), text', rest);
      ItemStep(items[0], values[0], text' + rest);
      PieceThen(text + rest, values[0], text' + rest, value', rest);
    }
  }

  lemma AcceptedSplits(s: Bytes) returns (x: Item, bytes: Bytes, rest: Bytes)
    requires StringBody(s).Done? && s[0] != QUOTE
    ensures ItemOk(x) && Means(x, bytes) && s == Render(x) + rest && |rest| < |s|
    ensures StringBody(rest).Done? && StringBody(s) == Done(bytes + StringBody(rest).value, StringBody(rest).rest)
  {
    x, bytes, rest := FirstItem(s);
  }

  /** And every accepted text is of the grammar. */
  lemma {:induction false} OnlyGrammar(s: Bytes, value: Bytes, after: Bytes)
      returns (items: seq<Item>, values: seq<Bytes>, text: Bytes)
    requires StringBody(s) == Done(value, after)
    ensures |items| == |values| && Spells(items, values, text, value) && s == text + after
    decreases |s|
  {
    if s[0] == QUOTE {
      items, values, text := [], [], [QUOTE];
      assert s == [QUOTE] + s[1..];
    } else {
      var x, bytes, rest := AcceptedSplits(s);
      var value' := StringBody(rest).value;
      var items', values', text' := OnlyGrammar(rest, value', after);
      items, values, text := [x] + items', [bytes] + values', Render(x) + text';
      SpellsPush(x, bytes, items', values', text', value');
      Regroup(Render(x), text', after);
    }
  }

  lemma FirstItem(s: Bytes) returns (x: Item, bytes: Bytes, rest: Bytes)
    requires StringBody(s).Done? && s[0] != QUOTE
    ensures ItemOk(x) && Means(x, bytes) && s == Render(x) + rest && |rest| < |s|
    ensures HeadOf(s) == Piece(bytes, rest)
  {
    if s[0] != BACKSLASH {
      x, bytes, rest := Raw(s[0]), [s[0]], s[1..];
    } else if s[1] != LOWER_U {
      x, bytes, rest := Letter(s[1]), [Short(s[1]).value], s[2..];
    } else {
      var digits;
      digits, bytes, rest := CutEscape(s[2..]);
      x := Unicode(digits);
      assert s == [BACKSLASH, LOWER_U] + s[2..];
    }
  }

  /** An accepted escape is cut off. */
  lemma CutEscape(t: Bytes) returns (digits: Bytes, bytes: Bytes, rest: Bytes)
    requires Codepoint(t).Done?
    ensures Escaped(digits).Some? && Escaped(digits).value.1 == |digits| && Decode(bytes) == Some(Escaped(digits).value.0)
    ensures t == digits + rest && Codepoint(t).value == bytes && Codepoint(t).rest == rest
  {
    CodepointIsEscape(t);
    EscapedLess(t);
    var n := Escaped(t).value.1;
    digits, bytes, rest := t[..n], Codepoint(t).value, t[n..];
  }

  // ---------- the letters and digits of escapes ----------

  const LETTERS: string := "\"\\/bfnrt"
  const MEANINGS: Bytes := [0x22, 0x5c, 0x2f, 0x08, 0x0c, 0x0a, 0x0d, 0x09]

  /** The escapes of one letter are those of section 7 of RFC 8259. */
  lemma LetterTable(b: Byte, meaning: Byte)
    ensures Short(b) == Some(meaning) <==> exists k :: 0 <= k < 8 && LETTERS[k] as int == b && MEANINGS[k] == meaning
  {
    if Short(b).Some? {
      var k := if b == QUOTE then 0 else if b == BACKSLASH then 1 else if b == SLASH then 2 else if b == 'b' as int then 3
               else if b == 'f' as int then 4 else if b == 'n' as int then 5 else if b == 'r' as int then 6 else 7;
      assert LETTERS[k] as int == b && MEANINGS[k] == Short(b).value;
    }
    forall k | 0 <= k < 8 && LETTERS[k] as int == b ensures Short(b) == Some(MEANINGS[k]) {
      assert k == 0 || k == 1 || k == 2 || k == 3 || k == 4 || k == 5 || k == 6 || k == 7;
    }
  }

  /** And the digits are hexadecimal, in either case. */
  lemma DigitTable(b: Byte, d: nat)
    ensures HexDigit(b) == Some(d) <==> d < 16 && (b == "0123456789abcdef"[d] as int || b == "0123456789ABCDEF"[d] as int)
  {
    if d < 8 {
      assert d == 0 || d == 1 || d == 2 || d == 3 || d == 4 || d == 5 || d == 6 || d == 7;
    } else if d < 16 {
      assert d == 8 || d == 9 || d == 10 || d == 11 || d == 12 || d == 13 || d == 14 || d == 15;
    }
  }
}
