/** Parsing what was printed yields what was printed: include/thirdparty/picojson.h:406-516 against 586-798.

  The values are those of RFC 8259 without fractions: null, Booleans, 64-bit integers, byte strings, arrays and
  objects. Printed plain or pretty, strings, arrays and objects end where they end, whatever follows.
 */
module JsonRoundTrip {
  import opened JsonText
  import opened JsonInput
  import opened JsonString
  import opened JsonParser
  import opened JsonSerializer

  predicate KeysAscend(members: seq<Member>) {
    forall i, j | 0 <= i < j < |members| :: Less(members[i].key, members[j].key)
  }

  /** A value that can be printed exactly: no doubles, and objects as `std::map` keeps them. */
  predicate Exact(v: Json) {
    match v
    case Null => true
    case Bool(_) => true
    case Int(n) => INT64_MIN <= n <= INT64_MAX
    case Double(_) => false
    case String(_) => true
    case Array(items) => forall i | 0 <= i < |items| :: Exact(items[i])
    case Object(members) => KeysAscend(members) && forall i | 0 <= i < |members| :: Exact(members[i].value)
  }

  // ---------- strings ----------

  function ItemFor(b: Byte): Item {
    if Short(b) == Some(b) then Letter(b)
    else if b == BACKSPACE then Letter('b' as int)
    else if b == FORM_FEED then Letter('f' as int)
    else if b == NEWLINE then Letter('n' as int)
    else if b == RETURN then Letter('r' as int)
    else if b == TAB then Letter('t' as int)
    else if b < 0x20 || b == DELETE then Unicode([ZERO, ZERO, HexLetter(b / 16), HexLetter(b % 16)])
    else Raw(b)
  }

  lemma HexLetterReads(d: nat)
    requires d < 16
    ensures HexDigit(HexLetter(d)) == Some(d)
  {
  }

  lemma ControlItem(b: Byte)
    requires b < 0x80
    ensures var digits := [ZERO, ZERO, HexLetter(b / 16), HexLetter(b % 16)];
            Escaped(digits) == Some((b as nat, 4))
  {
    HexLetterReads(b / 16);
    HexLetterReads(b % 16);
    var digits := [ZERO, ZERO, HexLetter(b / 16), HexLetter(b % 16)];
    assert HexDigit(ZERO) == Some(0);
    assert Hex4(digits) == b;
  }

  lemma ByteItem(b: Byte)
    ensures ItemOk(ItemFor(b)) && Render(ItemFor(b)) == EscapeByte(b) && Means(ItemFor(b), [b])
  {
    if b < 0x80 { ControlItem(b); }
  }

  /** Any byte string, escaped and quoted, reads back as itself and delimits itself. */
  lemma {:induction false} StringReadsBack(s: Bytes, rest: Bytes)
    ensures StringBody(EscapeAll(s) + [QUOTE] + rest) == Done(s, rest)
  {
    if s == [] {
      ClosingQuote(rest);
      assert EscapeAll(s) + [QUOTE] + rest == [QUOTE] + rest;
    } else {
      var more := EscapeAll(s[1..]) + [QUOTE] + rest;
      StringReadsBack(s[1..], rest);
      ByteItem(s[0]);
      ItemStep(ItemFor(s[0]), [s[0]], more);
      PieceThen(EscapeByte(s[0]) + more, [s[0]], more, s[1..], rest);
      assert EscapeAll(s) + [QUOTE] + rest == EscapeByte(s[0]) + more;
      assert [s[0]] + s[1..] == s;
    }
  }

  // ---------- white space ----------

  predicate AllSpace(ws: Bytes) {
    forall i | 0 <= i < |ws| :: IsSpace(ws[i])
  }

  lemma {:induction false} SkipOver(ws: Bytes, t: Bytes)
    requires AllSpace(ws)
    ensures SkipWs(ws + t) == SkipWs(t)
  {
    if ws == [] {
      assert ws + t == t;
    } else {
      assert (ws + t)[1..] == ws[1..] + t;
      SkipOver(ws[1..], t);
    }
  }

  lemma IndentIsSpace(indent: int)
    requires indent >= -1
    ensures AllSpace(Indent(indent))
  {
  }

  /** Leading white space does not change what is read. */
  lemma ValueSkips(s: Bytes, s': Bytes)
    requires SkipWs(s) == SkipWs(s')
    ensures Value(s) == Value(s') && Key(s) == Key(s')
  {
  }

  // ---------- what a text starts with ----------

  /** The first byte of a printed value: no white space and no closing bracket. */
  predicate StartsValue(b: int) {
    !IsSpace(b) && b != CLOSE_BRACKET && b != CLOSE_BRACE && b != COMMA
  }

  lemma BodyStarts(v: Json, indent: int)
    requires Exact(v) && indent >= -1
    ensures Body(v, indent) != [] && StartsValue(Body(v, indent)[0])
  {
    if v.Int? { IntTextReadsBack(v.n); }
  }

  // ---------- numbers ----------

  lemma {:induction false} NumberEndAt(t: Bytes, rest: Bytes, p: nat)
    requires p <= |t| && (forall i | p <= i < |t| :: IsNumberByte(t[i])) && (rest == [] || !IsNumberByte(rest[0]))
    ensures NumberEnd(t + rest, p) == |t|
    decreases |t| - p
  {
    if p < |t| { NumberEndAt(t, rest, p + 1); }
  }

  lemma IntReadsBack(n: int, rest: Bytes)
    requires INT64_MIN <= n <= INT64_MAX && (rest == [] || !IsNumberByte(rest[0]))
    ensures Value(IntText(n) + rest) == Done(Int(n), rest)
  {
    var t := IntText(n);
    IntTextReadsBack(n);
    NumberEndAt(t, rest, 0);
    assert (t + rest)[..|t|] == t && (t + rest)[|t|..] == rest;
    assert Number(t + rest) == Done(Int(n), rest);
    NumberDispatch(t + rest);
  }

  lemma NumberDispatch(s: Bytes)
    requires s != [] && (IsDigit(s[0]) || s[0] == MINUS)
    ensures Value(s) == Number(s)
  {
    assert SkipWs(s) == s;
    assert s[0] != NULL_TEXT[0] && s[0] != FALSE_TEXT[0] && s[0] != TRUE_TEXT[0];
    assert s[0] != QUOTE && s[0] != OPEN_BRACKET && s[0] != OPEN_BRACE;
  }

  // ---------- words ----------

  lemma WordReadsBack(word: Bytes, v: Json, rest: Bytes)
    requires (word == NULL_TEXT && v == Null) || (word == TRUE_TEXT && v == Bool(true)) ||
             (word == FALSE_TEXT && v == Bool(false))
    ensures Value(word + rest) == Done(v, rest)
  {
    var s := word + rest;
    assert s[1..] == word[1..] + rest && s[1..][|word| - 1..] == rest;
    assert SkipWs(s) == s;
  }

  // ---------- dispatch on the first byte ----------

  lemma Dispatch(s: Bytes)
    requires s != []
    ensures s[0] == QUOTE ==> Value(s) == StringValue(s[1..])
    ensures s[0] == OPEN_BRACKET ==> Value(s) == ArrayBody(s[1..])
    ensures s[0] == OPEN_BRACE ==> Value(s) == ObjectBody(s[1..])
  {
  }

  lemma StringValueReadsBack(s: Bytes, rest: Bytes)
    ensures Value(StringText(s) + rest) == Done(String(s), rest)
  {
    var t := StringText(s) + rest;
    assert t[1..] == EscapeAll(s) + [QUOTE] + rest;
    StringReadsBack(s, rest);
    Dispatch(t);
  }

  /** A value can be followed by this: it is not taken for more digits of a number. */
  predicate EndsNumber(rest: Bytes) {
    rest == [] || !IsNumberByte(rest[0])
  }

  /** What stands after the last item or member: white space, the closing bracket and the rest. */
  function Closing(ws: Bytes, close: Byte, rest: Bytes): Bytes {
    ws + ([close] + rest)
  }

  lemma ClosingIs(ws: Bytes, close: Byte, rest: Bytes)
    requires AllSpace(ws) && (close == CLOSE_BRACKET || close == CLOSE_BRACE)
    ensures SkipWs(Closing(ws, close, rest)) == [close] + rest && EndsNumber(Closing(ws, close, rest))
    ensures Starts([close] + rest, close) && !Starts([close] + rest, COMMA) && ([close] + rest)[1..] == rest
  {
    SkipOver(ws, [close] + rest);
    assert ws != [] ==> Closing(ws, close, rest)[0] == ws[0];
  }

  // ---------- arrays ----------

  /** The text of an array after one of its items. */
  function ItemsTail(items: seq<Json>, indent: int, ws: Bytes, rest: Bytes): Bytes
    requires indent >= -1
  {
    ItemsText(items, indent, false) + Closing(ws, CLOSE_BRACKET, rest)
  }

  lemma ItemsTailIs(items: seq<Json>, indent: int, ws: Bytes, rest: Bytes)
    requires indent == -1 || indent >= 1
    requires AllSpace(ws)
    ensures EndsNumber(ItemsTail(items, indent, ws, rest))
    ensures items == [] ==> SkipWs(ItemsTail(items, indent, ws, rest)) == [CLOSE_BRACKET] + rest
    ensures items != [] ==>
              ItemsTail(items, indent, ws, rest) ==
              [COMMA] + (Indent(indent) + (Body(items[0], indent) + ItemsTail(items[1..], indent, ws, rest)))
  {
    var c := Closing(ws, CLOSE_BRACKET, rest);
    ClosingIs(ws, CLOSE_BRACKET, rest);
    if items == [] {
      assert ItemsTail(items, indent, ws, rest) == c;
    } else {
      InnerText(items[0], indent);
      FiveParts([COMMA], Indent(indent), Body(items[0], indent), ItemsText(items[1..], indent, false), c);
    }
  }

  lemma AfterComma(t: Bytes, rest: Bytes)
    requires t == [COMMA] + rest
    ensures SkipWs(t) == t && Starts(t, COMMA) && t[1..] == rest
  {
  }

  /** The items of an array, from one of them on. */
  lemma {:induction false} ItemsReadBack(items: seq<Json>, indent: int, ws: Bytes, rest: Bytes)
    requires items != [] && (forall i | 0 <= i < |items| :: Exact(items[i]))
    requires (indent == -1 || indent >= 1) && AllSpace(ws)
    ensures Items(Indent(indent) + (Body(items[0], indent) + ItemsTail(items[1..], indent, ws, rest))) == Done(items, rest)
    decreases items, 0
  {
    var v, more := items[0], items[1..];
    var tail := ItemsTail(more, indent, ws, rest);
    var s := Indent(indent) + (Body(v, indent) + tail);
    ItemsTailIs(more, indent, ws, rest);
    BodyReadsBack(v, indent, tail);
    IndentIsSpace(indent);
    SkipOver(Indent(indent), Body(v, indent) + tail);
    ValueSkips(s, Body(v, indent) + tail);
    ItemsStep(s, v, tail);
    assert items == [v] + more;
    if more != [] {
      ItemsReadBack(more, indent, ws, rest);
      AfterComma(tail, Indent(indent) + (Body(more[0], indent) + ItemsTail(more[1..], indent, ws, rest)));
      assert Items(s) == PrependItems([v], Done(more, rest));
    } else {
      ClosingIs(ws, CLOSE_BRACKET, rest);
      assert Items(s) == ItemsEnd([v], [CLOSE_BRACKET] + rest);
      assert items == [v];
    }
  }

  lemma FirstItemStarts(v: Json, indent: int, s: Bytes, tail: Bytes)
    requires Exact(v) && indent >= -1 && s == Indent(indent) + (Body(v, indent) + tail)
    ensures SkipWs(s) == Body(v, indent) + tail && !Starts(SkipWs(s), CLOSE_BRACKET)
    ensures Items(SkipWs(s)) == Items(s)
  {
    BodyStarts(v, indent);
    IndentIsSpace(indent);
    SkipOver(Indent(indent), Body(v, indent) + tail);
    ValueSkips(s, SkipWs(s));
  }

  /** The part of an array after its opening bracket. */
  lemma ArrayBodyReadsBack(items: seq<Json>, indent: int, ws: Bytes, rest: Bytes)
    requires Exact(Array(items)) && (indent == -1 || indent >= 1) && AllSpace(ws)
    ensures ArrayBody(ItemsText(items, indent, true) + Closing(ws, CLOSE_BRACKET, rest)) == Done(Array(items), rest)
    decreases items, 1
  {
    var c := Closing(ws, CLOSE_BRACKET, rest);
    var s := ItemsText(items, indent, true) + c;
    ClosingIs(ws, CLOSE_BRACKET, rest);
    if items == [] {
      assert s == c;
    } else {
      ItemsReadBack(items, indent, ws, rest);
      FirstText(items, indent, c);
      FirstItemStarts(items[0], indent, s, ItemsTail(items[1..], indent, ws, rest));
    }
  }

  lemma ArrayReadsBack(items: seq<Json>, indent: int, rest: Bytes)
    requires Exact(Array(items)) && indent >= -1
    ensures Value(Body(Array(items), indent) + rest) == Done(Array(items), rest)
    decreases items, 2
  {
    var ws := Outer(items == [], indent);
    IndentIsSpace(indent);
    ArrayBodyReadsBack(items, Inner(indent), ws, rest);
    Bracketed(OPEN_BRACKET, ItemsText(items, Inner(indent), true), ws, CLOSE_BRACKET, rest);
    Dispatch(Body(Array(items), indent) + rest);
  }

  lemma Bracketed(open: Byte, inside: Bytes, ws: Bytes, close: Byte, rest: Bytes)
    ensures var text := [open] + inside + ws + [close] + rest;
            text[0] == open && text[1..] == inside + Closing(ws, close, rest)
  {
    assert [open] + inside + ws + [close] + rest == [open] + (inside + Closing(ws, close, rest));
  }

  lemma FirstText(items: seq<Json>, indent: int, c: Bytes)
    requires items != [] && (indent == -1 || indent >= 1)
    ensures ItemsText(items, indent, true) + c ==
            Indent(indent) + (Body(items[0], indent) + (ItemsText(items[1..], indent, false) + c))
  {
    InnerText(items[0], indent);
    FiveParts([], Indent(indent), Body(items[0], indent), ItemsText(items[1..], indent, false), c);
  }

  lemma InnerText(v: Json, indent: int)
    requires indent == -1 || indent >= 1
    ensures Text(v, indent) == Body(v, indent)
  {
    assert Body(v, indent) + [] == Body(v, indent);
  }

  lemma FiveParts(a: Bytes, b: Bytes, c: Bytes, d: Bytes, e: Bytes)
    ensures a + b + c + d + e == a + (b + (c + (d + e)))
    ensures a == [] ==> a + (b + (c + (d + e))) == b + (c + (d + e))
  {
  }

  // ---------- objects ----------

  /** Keys that come in ascending order are put at the end. */
  lemma {:induction false} PutLast(members: seq<Member>, key: Bytes, value: Json)
    requires KeysAscend(members + [Member(key, value)])
    ensures Put(members, key, value) == members + [Member(key, value)]
  {
    var all := members + [Member(key, value)];
    if members != [] {
      assert Less(all[0].key, all[|members|].key);
      LessTrichotomy(members[0].key, key);
      assert members[1..] + [Member(key, value)] == all[1..];
      PutLast(members[1..], key, value);
    }
  }

  function MembersTail(members: seq<Member>, indent: int, ws: Bytes, rest: Bytes): Bytes
    requires indent >= -1
  {
    MembersText(members, indent, false) + Closing(ws, CLOSE_BRACE, rest)
  }

  /** The text of a member and what follows it. */
  function MemberThen(m: Member, indent: int, tail: Bytes): Bytes
    requires indent >= -1
  {
    Indent(indent) + (StringText(m.key) + (ColonText(indent) + (Body(m.value, indent) + tail)))
  }

  lemma MembersTailIs(members: seq<Member>, indent: int, ws: Bytes, rest: Bytes)
    requires indent == -1 || indent >= 1
    requires AllSpace(ws)
    ensures EndsNumber(MembersTail(members, indent, ws, rest))
    ensures members == [] ==> SkipWs(MembersTail(members, indent, ws, rest)) == [CLOSE_BRACE] + rest
    ensures members != [] ==>
              MembersTail(members, indent, ws, rest) ==
              [COMMA] + MemberThen(members[0], indent, MembersTail(members[1..], indent, ws, rest))
  {
    var c := Closing(ws, CLOSE_BRACE, rest);
    ClosingIs(ws, CLOSE_BRACE, rest);
    if members == [] {
      assert MembersTail(members, indent, ws, rest) == c;
    } else {
      MemberRegrouped([COMMA], members, indent, c);
    }
  }

  lemma MemberRegrouped(separator: Bytes, members: seq<Member>, indent: int, c: Bytes)
    requires members != [] && (indent == -1 || indent >= 1)
    ensures var m := members[0];
            separator + Indent(indent) + StringText(m.key) + ColonText(indent) + Text(m.value, indent) +
            MembersText(members[1..], indent, false) + c ==
            separator + MemberThen(m, indent, MembersText(members[1..], indent, false) + c)
  {
    var m := members[0];
    InnerText(m.value, indent);
    SixParts(separator, Indent(indent), StringText(m.key), ColonText(indent), Body(m.value, indent),
             MembersText(members[1..], indent, false), c);
  }

  lemma SixParts(a: Bytes, b: Bytes, c: Bytes, d: Bytes, e: Bytes, f: Bytes, g: Bytes)
    ensures a + b + c + d + e + f + g == a + (b + (c + (d + (e + (f + g)))))
  {
  }

  lemma ColonReadsBack(indent: int, after: Bytes)
    requires indent >= -1
    ensures var colon := ColonText(indent) + after;
            SkipWs(colon) == colon && Starts(colon, COLON) && SkipWs(colon[1..]) == SkipWs(after)
  {
    var colon := ColonText(indent) + after;
    if indent == -1 {
      assert colon[1..] == after;
    } else {
      assert colon[1..] == [SPACE] + after;
      SkipOver([SPACE], after);
    }
  }

  lemma KeyOf(s: Bytes, t: Bytes, key: Bytes, colon: Bytes)
    requires SkipWs(s) == t && Starts(t, QUOTE) && StringBody(t[1..]) == Done(key, colon)
    requires SkipWs(colon) == colon && Starts(colon, COLON)
    ensures Key(s) == Done(key, colon[1..])
  {
  }

  /** A key and its colon read back; the value is what follows, after at most one space. */
  lemma KeyReadsBack(key: Bytes, indent: int, after: Bytes)
    requires indent >= -1
    ensures var s := Indent(indent) + (StringText(key) + (ColonText(indent) + after));
            && Key(s).Done? && Key(s).value == key && SkipWs(Key(s).rest) == SkipWs(after)
            && SkipWs(s) == StringText(key) + (ColonText(indent) + after) && !Starts(SkipWs(s), CLOSE_BRACE)
  {
    var colon := ColonText(indent) + after;
    var t := StringText(key) + colon;
    var s := Indent(indent) + t;
    IndentIsSpace(indent);
    SkipOver(Indent(indent), t);
    assert t[1..] == EscapeAll(key) + [QUOTE] + colon;
    StringReadsBack(key, colon);
    ColonReadsBack(indent, after);
    assert SkipWs(t) == t;
    KeyOf(s, t, key, colon);
  }

  lemma MembersStep(s: Bytes, done: seq<Member>, key: Bytes, s': Bytes, v: Json, rest: Bytes)
    requires Key(s) == Done(key, s') && Value(s') == Done(v, rest)
    ensures var t := SkipWs(rest);
            Members(s, done) ==
            if Starts(t, COMMA) then Members(t[1..], Put(done, key, v)) else MembersEnd(Put(done, key, v), t)
  {
  }

  /** The members of an object, from one of them on; the ones before it are in the object already. */
  lemma {:induction false} MembersReadBack(members: seq<Member>, done: seq<Member>, indent: int, ws: Bytes, rest: Bytes)
    requires members != [] && KeysAscend(done + members) && (forall i | 0 <= i < |members| :: Exact(members[i].value))
    requires (indent == -1 || indent >= 1) && AllSpace(ws)
    ensures Members(MemberThen(members[0], indent, MembersTail(members[1..], indent, ws, rest)), done) ==
            Done(done + members, rest)
    decreases members, 0
  {
    var m, more := members[0], members[1..];
    var tail := MembersTail(more, indent, ws, rest);
    var done' := done + [m];
    assert done + members == done' + more;
    MembersTailIs(more, indent, ws, rest);
    BodyReadsBack(m.value, indent, tail);
    MemberStep(m, done, indent, tail, more);
    if more != [] {
      MembersReadBack(more, done', indent, ws, rest);
      AfterComma(tail, MemberThen(more[0], indent, MembersTail(more[1..], indent, ws, rest)));
    } else {
      ClosingIs(ws, CLOSE_BRACE, rest);
      assert done' + more == done';
    }
  }

  /** One member, read and put. */
  lemma MemberStep(m: Member, done: seq<Member>, indent: int, tail: Bytes, more: seq<Member>)
    requires (indent == -1 || indent >= 1) && KeysAscend(done + [m] + more)
    requires Value(Body(m.value, indent) + tail) == Done(m.value, tail)
    ensures var t := SkipWs(tail);
            Members(MemberThen(m, indent, tail), done) ==
            if Starts(t, COMMA) then Members(t[1..], done + [m]) else MembersEnd(done + [m], t)
  {
    var s, after := MemberThen(m, indent, tail), Body(m.value, indent) + tail;
    KeyReadsBack(m.key, indent, after);
    ValueSkips(Key(s).rest, after);
    MembersStep(s, done, m.key, Key(s).rest, m.value, tail);
    AscendPrefix(done + [m] + more, |done| + 1);
    assert (done + [m] + more)[..|done| + 1] == done + [m];
    PutLast(done, m.key, m.value);
  }

  lemma AscendPrefix(members: seq<Member>, n: nat)
    requires KeysAscend(members) && n <= |members|
    ensures KeysAscend(members[..n])
  {
    forall i, j | 0 <= i < j < n ensures Less(members[..n][i].key, members[..n][j].key) {
      assert Less(members[i].key, members[j].key);
    }
  }

  /** The part of an object after its opening brace. */
  lemma ObjectBodyReadsBack(members: seq<Member>, indent: int, ws: Bytes, rest: Bytes)
    requires Exact(Object(members)) && (indent == -1 || indent >= 1) && AllSpace(ws)
    ensures ObjectBody(MembersText(members, indent, true) + Closing(ws, CLOSE_BRACE, rest)) == Done(Object(members), rest)
    decreases members, 1
  {
    var c := Closing(ws, CLOSE_BRACE, rest);
    var s := MembersText(members, indent, true) + c;
    ClosingIs(ws, CLOSE_BRACE, rest);
    if members == [] {
      assert s == c;
    } else {
      assert [] + members == members;
      MembersReadBack(members, [], indent, ws, rest);
      FirstMemberText(members, indent, c);
      FirstMemberStarts(members[0], indent, s, MembersTail(members[1..], indent, ws, rest));
    }
  }

  lemma FirstMemberText(members: seq<Member>, indent: int, c: Bytes)
    requires members != [] && (indent == -1 || indent >= 1)
    ensures MembersText(members, indent, true) + c ==
            MemberThen(members[0], indent, MembersText(members[1..], indent, false) + c)
  {
    MemberRegrouped([], members, indent, c);
    var text := MemberThen(members[0], indent, MembersText(members[1..], indent, false) + c);
    assert [] + text == text;
  }

  lemma FirstMemberStarts(m: Member, indent: int, s: Bytes, tail: Bytes)
    requires indent >= -1 && s == MemberThen(m, indent, tail)
    ensures !Starts(SkipWs(s), CLOSE_BRACE) && Members(SkipWs(s), []) == Members(s, [])
  {
    KeyReadsBack(m.key, indent, Body(m.value, indent) + tail);
    ValueSkips(s, SkipWs(s));
  }

  lemma ObjectReadsBack(members: seq<Member>, indent: int, rest: Bytes)
    requires Exact(Object(members)) && indent >= -1
    ensures Value(Body(Object(members), indent) + rest) == Done(Object(members), rest)
    decreases members, 2
  {
    var ws := Outer(members == [], indent);
    IndentIsSpace(indent);
    ObjectBodyReadsBack(members, Inner(indent), ws, rest);
    Bracketed(OPEN_BRACE, MembersText(members, Inner(indent), true), ws, CLOSE_BRACE, rest);
    Dispatch(Body(Object(members), indent) + rest);
  }

  // ---------- the round trip ----------

  lemma {:induction false} BodyReadsBack(v: Json, indent: int, rest: Bytes)
    requires Exact(v) && indent >= -1 && (v.Int? ==> EndsNumber(rest))
    ensures Value(Body(v, indent) + rest) == Done(v, rest)
    decreases v, 0
  {
    match v
    case Null => WordReadsBack(NULL_TEXT, v, rest);
    case Bool(b) => WordReadsBack(if b then TRUE_TEXT else FALSE_TEXT, v, rest);
    case Int(n) => IntReadsBack(n, rest);
    case String(s) => StringValueReadsBack(s, rest);
    case Array(items) => ArrayReadsBack(items, indent, rest);
    case Object(members) => ObjectReadsBack(members, indent, rest);
  }

  /** Parsing what was printed, plain or pretty, succeeds and yields the value. */
  lemma RoundTrip(v: Json, prettify: bool)
    requires Exact(v)
    ensures var text := Text(v, if prettify then 0 else -1);
            Value(text).Done? && Value(text).value == v && SkipWs(Value(text).rest) == []
  {
    var rest := if prettify then [NEWLINE] else [];
    BodyReadsBack(v, if prettify then 0 else -1, rest);
    assert SkipWs([NEWLINE]) == SkipWs([NEWLINE][1..]);
  }

  /** Strings, arrays and objects end where they end, whatever comes next. */
  lemma SelfDelimiting(v: Json, prettify: bool, rest: Bytes)
    requires Exact(v) && (v.String? || v.Array? || v.Object?)
    ensures Value(Body(v, if prettify then 0 else -1) + rest) == Done(v, rest)
  {
    BodyReadsBack(v, if prettify then 0 else -1, rest);
  }

  /** Different values have different texts. */
  lemma PrintedDiffer(v: Json, w: Json, prettify: bool)
    requires Exact(v) && Exact(w) && v != w
    ensures Text(v, if prettify then 0 else -1) != Text(w, if prettify then 0 else -1)
  {
    RoundTrip(v, prettify);
    RoundTrip(w, prettify);
  }

  /** The printer and the parser themselves. */
  method PrintThenParse(v: Json, prettify: bool) returns (ok: bool, out: Json)
    requires Exact(v)
    ensures ok && out == v
  {
    var text := Print(v, prettify);
    ok, out := Parse(text);
    RoundTrip(v, prettify);
  }

  // ---------- objects are maps ----------

  function Lookup(members: seq<Member>, key: Bytes): Option<Json> {
    if members == [] then None
    else if members[0].key == key then Some(members[0].value)
    else Lookup(members[1..], key)
  }

  /** `Put` is assignment to a key: it changes that key and no other, and keeps the order. */
  lemma {:induction false} PutAssigns(members: seq<Member>, key: Bytes, value: Json, k: Bytes)
    requires KeysAscend(members)
    ensures Lookup(Put(members, key, value), k) == if k == key then Some(value) else Lookup(members, k)
    ensures KeysAscend(Put(members, key, value))
    ensures forall i | 0 <= i < |Put(members, key, value)| ::
              Put(members, key, value)[i].key == key || exists j :: 0 <= j < |members| && members[j].key == Put(members, key, value)[i].key
  {
    var put := Put(members, key, value);
    if members == [] {
      assert put == [Member(key, value)];
    } else {
      var head, more := members[0], members[1..];
      AscendSuffix(members);
      LessTrichotomy(head.key, key);
      if head.key == key {
        assert put == [Member(key, value)] + more;
        PrependAscends(Member(key, value), more);
      } else if Less(key, head.key) {
        assert put == [Member(key, value)] + members;
        if k == head.key { LessTrichotomy(head.key, key); }
        forall i | 0 <= i < |members| ensures Less(key, members[i].key) {
          if i > 0 { LessTransitive(key, head.key, members[i].key); }
        }
        PrependAscends(Member(key, value), members);
      } else {
        PutAssigns(more, key, value, k);
        assert put == [head] + Put(more, key, value);
        PrependAscends(head, Put(more, key, value));
      }
    }
  }

  lemma AscendSuffix(members: seq<Member>)
    requires KeysAscend(members) && members != []
    ensures KeysAscend(members[1..]) && forall i | 0 <= i < |members[1..]| :: Less(members[0].key, members[1..][i].key)
  {
  }

  lemma PrependAscends(m: Member, members: seq<Member>)
    requires KeysAscend(members) && forall i | 0 <= i < |members| :: Less(m.key, members[i].key)
    ensures KeysAscend([m] + members)
  {
  }

  // ---------- what the parser yields ----------

  /** Integers fit, and every object is in the order of its keys. */
  predicate Shaped(v: Json) {
    match v
    case Int(n) => INT64_MIN <= n <= INT64_MAX
    case Array(items) => forall i | 0 <= i < |items| :: Shaped(items[i])
    case Object(members) => KeysAscend(members) && forall i | 0 <= i < |members| :: Shaped(members[i].value)
    case _ => true
  }

  predicate MembersShaped(members: seq<Member>) {
    KeysAscend(members) && forall i | 0 <= i < |members| :: Shaped(members[i].value)
  }

  /** Whatever text is accepted, its objects are maps and its integers fit. */
  lemma {:induction false} ParsedShaped(s: Bytes)
    requires Value(s).Done?
    ensures Shaped(Value(s).value)
    decreases |s|, 0
  {
    var t := SkipWs(s);
    if t[0] == OPEN_BRACKET {
      Dispatch(t);
      ValueSkips(s, t);
      ArrayShaped(t[1..]);
    } else if t[0] == OPEN_BRACE {
      Dispatch(t);
      ValueSkips(s, t);
      ObjectShaped(t[1..]);
    }
  }

  lemma ArrayShaped(s: Bytes)
    requires ArrayBody(s).Done?
    ensures Shaped(ArrayBody(s).value)
    decreases |s|, 2
  {
    if !Starts(SkipWs(s), CLOSE_BRACKET) { ItemsShaped(SkipWs(s)); }
  }

  lemma {:induction false} ItemsShaped(s: Bytes)
    requires Items(s).Done?
    ensures forall i | 0 <= i < |Items(s).value| :: Shaped(Items(s).value[i])
    decreases |s|, 1
  {
    var v, rest := Value(s).value, Value(s).rest;
    var t := SkipWs(rest);
    ParsedShaped(s);
    ItemsStep(s, v, rest);
    if Starts(t, COMMA) { ItemsShaped(t[1..]); }
  }

  lemma ObjectShaped(s: Bytes)
    requires ObjectBody(s).Done?
    ensures Shaped(ObjectBody(s).value)
    decreases |s|, 2
  {
    if !Starts(SkipWs(s), CLOSE_BRACE) { AllMembersShaped(SkipWs(s), []); }
  }

  lemma {:induction false} PutShaped(members: seq<Member>, key: Bytes, value: Json)
    requires MembersShaped(members) && Shaped(value)
    ensures MembersShaped(Put(members, key, value))
  {
    PutAssigns(members, key, value, key);
    PutValues(members, key, value);
  }

  lemma {:induction false} PutValues(members: seq<Member>, key: Bytes, value: Json)
    requires Shaped(value) && forall i | 0 <= i < |members| :: Shaped(members[i].value)
    ensures forall i | 0 <= i < |Put(members, key, value)| :: Shaped(Put(members, key, value)[i].value)
  {
    if members != [] && members[0].key != key && !Less(key, members[0].key) { PutValues(members[1..], key, value); }
  }

  lemma {:induction false} AllMembersShaped(s: Bytes, done: seq<Member>)
    requires Members(s, done).Done? && MembersShaped(done)
    ensures MembersShaped(Members(s, done).value)
    decreases |s|, 1
  {
    var key, s' := Key(s).value, Key(s).rest;
    var v, rest := Value(s').value, Value(s').rest;
    var t := SkipWs(rest);
    ParsedShaped(s');
    PutShaped(done, key, v);
    MembersStep(s, done, key, s', v, rest);
    if Starts(t, COMMA) { AllMembersShaped(t[1..], Put(done, key, v)); }
  }

  predicate NoDoubles(v: Json) {
    match v
    case Double(_) => false
    case Array(items) => forall i | 0 <= i < |items| :: NoDoubles(items[i])
    case Object(members) => forall i | 0 <= i < |members| :: NoDoubles(members[i].value)
    case _ => true
  }

  lemma {:induction false} ShapedIsExact(v: Json)
    requires Shaped(v) && NoDoubles(v)
    ensures Exact(v)
  {
    match v
    case Array(items) => forall i | 0 <= i < |items| { ShapedIsExact(items[i]); }
    case Object(members) => forall i | 0 <= i < |members| { ShapedIsExact(members[i].value); }
    case _ =>
  }

  /** Printing what was parsed from any text without fractions, and parsing that, changes nothing any more. */
  lemma Reprint(s: Bytes, prettify: bool)
    requires Value(s).Done? && NoDoubles(Value(s).value)
    ensures var text := Text(Value(s).value, if prettify then 0 else -1);
            Value(text).Done? && Value(text).value == Value(s).value
  {
    ParsedShaped(s);
    ShapedIsExact(Value(s).value);
    RoundTrip(Value(s).value, prettify);
  }
}
