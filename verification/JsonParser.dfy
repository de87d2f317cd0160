/** The parser of include/thirdparty/picojson.h:686-870 with `default_parse_context`, built with
  PICOJSON_USE_INT64: what it accepts and yields as functions of the text, and the methods that read it
  through the cursor.
 */
module JsonParser {
  import opened JsonText
  import opened JsonInput
  import opened JsonString

  // ---------- numbers ----------

  /** Where the number bytes from p on end. */
  function NumberEnd(s: Bytes, p: nat): (e: nat)
    requires p <= |s|
    ensures p <= e <= |s|
    decreases |s| - p
  {
    if p < |s| && IsNumberByte(s[p]) then NumberEnd(s, p + 1) else p
  }

  lemma {:induction false} NumberEndOf(s: Bytes, p: nat, q: nat)
    requires p + q <= |s|
    ensures NumberEnd(s, p + q) == p + NumberEnd(s[p..], q)
    decreases |s| - p - q
  {
    if p + q < |s| { NumberEndOf(s, p, q + 1); }
  }

  /** An integer if the whole text is one that fits, else a double if the whole text is one. */
  function NumberValue(text: Bytes): Option<Json> {
    match IntOf(text)
    case Some(n) => Some(Int(n))
    case None => if IsDoubleText(text) then Some(Double(text)) else None
  }

  function Number(s: Bytes): (r: Result<Json>)
    ensures r.Done? && s != [] && IsNumberByte(s[0]) ==> |r.rest| < |s|
  {
    var n := NumberEnd(s, 0);
    match NumberValue(s[..n])
    case None => Fail
    case Some(v) => Done(v, s[n..])
  }

  // ---------- values ----------

  predicate Starts(s: Bytes, b: Byte) {
    s != [] && s[0] == b
  }

  function Word(s: Bytes, word: Bytes, v: Json): (r: Result<Json>)
    ensures r.Done? ==> |r.rest| <= |s|
  {
    if word <= s then Done(v, s[|word|..]) else Fail
  }

  /** `_parse`. Every accepted value takes at least one byte. */
  function Value(s: Bytes): (r: Result<Json>)
    ensures r.Done? ==> |r.rest| < |s|
    decreases |s|, 0
  {
    var t := SkipWs(s);
    if t == [] then Fail
    else if t[0] == NULL_TEXT[0] then Word(t[1..], NULL_TEXT[1..], Null)
    else if t[0] == FALSE_TEXT[0] then Word(t[1..], FALSE_TEXT[1..], Bool(false))
    else if t[0] == TRUE_TEXT[0] then Word(t[1..], TRUE_TEXT[1..], Bool(true))
    else if t[0] == QUOTE then StringValue(t[1..])
    else if t[0] == OPEN_BRACKET then ArrayBody(t[1..])
    else if t[0] == OPEN_BRACE then ObjectBody(t[1..])
    else if IsDigit(t[0]) || t[0] == MINUS then Number(t)
    else Fail
  }

  function StringValue(s: Bytes): (r: Result<Json>)
    ensures r.Done? ==> |r.rest| < |s|
  {
    match StringBody(s)
    case Fail => Fail
    case Done(value, rest) => Done(String(value), rest)
  }

  function ArrayBody(s: Bytes): (r: Result<Json>)
    ensures r.Done? ==> |r.rest| < |s|
    decreases |s|, 2
  {
    var t := SkipWs(s);
    if Starts(t, CLOSE_BRACKET) then Done(Array([]), t[1..])
    else
      match Items(t)
      case Fail => Fail
      case Done(items, rest) => Done(Array(items), rest)
  }

  /** One or more values with commas between them, and the closing bracket. */
  function Items(s: Bytes): (r: Result<seq<Json>>)
    ensures r.Done? ==> |r.rest| < |s|
    decreases |s|, 1
  {
    match Value(s)
    case Fail => Fail
    case Done(v, rest) =>
      var t := SkipWs(rest);
      if Starts(t, COMMA) then
        (match Items(t[1..])
         case Fail => Fail
         case Done(items, rest') => Done([v] + items, rest'))
      else ItemsEnd([v], t)
  }

  function ItemsEnd(items: seq<Json>, t: Bytes): (r: Result<seq<Json>>)
    ensures r.Done? ==> |r.rest| < |t|
  {
    if Starts(t, CLOSE_BRACKET) then Done(items, t[1..]) else Fail
  }

  function ObjectBody(s: Bytes): (r: Result<Json>)
    ensures r.Done? ==> |r.rest| < |s|
    decreases |s|, 2
  {
    var t := SkipWs(s);
    if Starts(t, CLOSE_BRACE) then Done(Object([]), t[1..])
    else
      match Members(t, [])
      case Fail => Fail
      case Done(members, rest) => Done(Object(members), rest)
  }

  /** `o[key] = value` in a `std::map`. */
  function Put(members: seq<Member>, key: Bytes, value: Json): seq<Member> {
    if members == [] then [Member(key, value)]
    else if members[0].key == key then [Member(key, value)] + members[1..]
    else if Less(key, members[0].key) then [Member(key, value)] + members
    else [members[0]] + Put(members[1..], key, value)
  }

  /** A key, up to and including the colon. */
  function Key(s: Bytes): (r: Result<Bytes>)
    ensures r.Done? ==> |r.rest| < |s|
  {
    var t := SkipWs(s);
    if !Starts(t, QUOTE) then Fail
    else
      match StringBody(t[1..])
      case Fail => Fail
      case Done(key, rest) => if Starts(SkipWs(rest), COLON) then Done(key, SkipWs(rest)[1..]) else Fail
  }

  /** One or more members with commas between them, put into an object one by one, and the closing brace. */
  function Members(s: Bytes, members: seq<Member>): (r: Result<seq<Member>>)
    ensures r.Done? ==> |r.rest| < |s|
    decreases |s|, 1
  {
    match Key(s)
    case Fail => Fail
    case Done(key, rest) =>
      match Value(rest)
      case Fail => Fail
      case Done(v, rest') =>
        var t := SkipWs(rest');
        if Starts(t, COMMA) then Members(t[1..], Put(members, key, v))
        else MembersEnd(Put(members, key, v), t)
  }

  function MembersEnd(members: seq<Member>, t: Bytes): (r: Result<seq<Member>>)
    ensures r.Done? ==> |r.rest| < |t|
  {
    if Starts(t, CLOSE_BRACE) then Done(members, t[1..]) else Fail
  }

  // ---------- the parser itself ----------

  lemma SkipTwice(s: Bytes)
    ensures SkipWs(SkipWs(s)) == SkipWs(s)
  {
  }

  /** The result of a method agrees with what its function says of the text. */
  ghost predicate Agrees<T>(ok: bool, out: T, rest: Bytes, r: Result<T>) {
    match r
    case Fail => !ok
    case Done(value, rest') => ok && out == value && rest == rest'
  }

  /** `_parse_number`, in a locale whose decimal point is ".". */
  method ParseNumberText(input: Input) returns (text: Bytes)
    requires input.Valid()
    modifies input
    ensures input.Valid()
    ensures var s := old(input.Rest());
            text == s[..NumberEnd(s, 0)] && input.Rest() == s[NumberEnd(s, 0)..]
  {
    ghost var s, p := input.data, input.Pos();
    text := [];
    while true
      invariant input.Valid() && input.Pos() == p + |text| && forall j | 0 <= j < |text| :: text[j] == s[p + j]
      invariant NumberEnd(s, input.Pos()) == NumberEnd(s, p)
      decreases |s| - input.Pos()
    {
      var ch := input.Getc();
      if IsNumberByte(ch) {
        text := text + [ch];
      } else {
        input.Ungetc();
        break;
      }
    }
    NumberTextIs(s, p, text);
  }

  lemma NumberTextIs(s: Bytes, p: nat, text: Bytes)
    requires p + |text| <= |s| && NumberEnd(s, p) == p + |text|
    requires forall j | 0 <= j < |text| :: text[j] == s[p + j]
    ensures var n := NumberEnd(s[p..], 0); text == s[p..][..n] && s[p + |text|..] == s[p..][n..]
  {
    NumberEndOf(s, p, 0);
    DropMore(s, p, |text|);
    assert s[p..][..|text|] == text;
  }

  /** `strtoimax`, and `strtod` if that does not read the whole text. */
  method ConvertNumber(text: Bytes) returns (v: Option<Json>)
    ensures v == NumberValue(text)
  {
    match IntOf(text) {
      case Some(n) => return Some(Int(n));
      case None => return if IsDoubleText(text) then Some(Double(text)) else None;
    }
  }

  method ParseNumber(input: Input) returns (ok: bool, out: Json)
    requires input.Valid()
    modifies input
    ensures input.Valid() && Agrees(ok, out, input.Rest(), Number(old(input.Rest())))
  {
    var text := ParseNumberText(input);
    var v := ConvertNumber(text);
    match v {
      case Some(value) => return true, value;
      case None => return false, Null;
    }
  }

  method ParseStringValue(input: Input) returns (ok: bool, out: Json)
    requires input.Valid()
    modifies input
    ensures input.Valid() && Agrees(ok, out, input.Rest(), StringValue(old(input.Rest())))
  {
    var text;
    ok, text := ParseString(input);
    out := String(text);
  }

  method ParseValue(input: Input) returns (ok: bool, out: Json)
    requires input.Valid()
    modifies input
    ensures input.Valid() && Agrees(ok, out, input.Rest(), Value(old(input.Rest())))
    decreases |input.Rest()|, 0
  {
    ghost var s := input.Rest();
    input.SkipSpaces();
    ghost var t := input.Rest();
    DropMore(input.data, input.Pos(), if t == [] then 0 else 1);
    var ch := input.Getc();
    if ch == NULL_TEXT[0] || ch == FALSE_TEXT[0] || ch == TRUE_TEXT[0] {
      ok, out := ParseLiteral(input, ch, s);
    } else if ch == QUOTE || ch == OPEN_BRACKET || ch == OPEN_BRACE {
      ok, out := ParseDelimited(input, ch, s);
    } else if IsDigit(ch) || ch == MINUS {
      input.Ungetc();
      ok, out := ParseNumber(input);
    } else {
      input.Ungetc();
      return false, Null;
    }
  }

  /** A string, an array or an object after its first byte. */
  method ParseDelimited(input: Input, ch: int, ghost s: Bytes) returns (ok: bool, out: Json)
    requires input.Valid() && SkipWs(s) != [] && SkipWs(s)[0] == ch && SkipWs(s)[1..] == input.Rest()
    requires ch == QUOTE || ch == OPEN_BRACKET || ch == OPEN_BRACE
    modifies input
    ensures input.Valid() && Agrees(ok, out, input.Rest(), Value(s))
    decreases |input.Rest()|, 3
  {
    if ch == QUOTE {
      ok, out := ParseStringValue(input);
    } else if ch == OPEN_BRACKET {
      ok, out := ParseArray(input);
    } else {
      ok, out := ParseObject(input);
    }
  }

  /** `null`, `false` or `true` after its first letter. */
  method ParseLiteral(input: Input, ch: int, ghost s: Bytes) returns (ok: bool, out: Json)
    requires input.Valid() && SkipWs(s) != [] && SkipWs(s)[0] == ch && SkipWs(s)[1..] == input.Rest()
    requires ch == NULL_TEXT[0] || ch == FALSE_TEXT[0] || ch == TRUE_TEXT[0]
    modifies input
    ensures input.Valid() && Agrees(ok, out, input.Rest(), Value(s))
  {
    if ch == NULL_TEXT[0] {
      ok := input.Match(NULL_TEXT[1..]);
      out := Null;
    } else if ch == FALSE_TEXT[0] {
      ok := input.Match(FALSE_TEXT[1..]);
      out := Bool(false);
    } else {
      ok := input.Match(TRUE_TEXT[1..]);
      out := Bool(true);
    }
  }

  function PrependItems(items: seq<Json>, r: Result<seq<Json>>): Result<seq<Json>> {
    match r
    case Fail => Fail
    case Done(more, rest) => Done(items + more, rest)
  }

  lemma ItemsStep(s: Bytes, v: Json, rest: Bytes)
    requires Value(s) == Done(v, rest)
    ensures var t := SkipWs(rest);
            Items(s) == if Starts(t, COMMA) then PrependItems([v], Items(t[1..])) else ItemsEnd([v], t)
  {
  }

  lemma PrependOneMore(items: seq<Json>, v: Json, r: Result<seq<Json>>)
    ensures PrependItems(items, PrependItems([v], r)) == PrependItems(items + [v], r)
  {
    if r.Done? { assert items + ([v] + r.value) == items + [v] + r.value; }
  }

  lemma PrependToEnd(items: seq<Json>, v: Json, t: Bytes)
    ensures PrependItems(items, ItemsEnd([v], t)) == ItemsEnd(items + [v], t)
  {
  }

  lemma ItemRead(goal: Result<seq<Json>>, items: seq<Json>, s: Bytes, v: Json, rest: Bytes)
    requires goal == PrependItems(items, Items(s)) && Value(s) == Done(v, rest)
    ensures var t := SkipWs(rest);
            goal == if Starts(t, COMMA) then PrependItems(items + [v], Items(t[1..])) else ItemsEnd(items + [v], t)
  {
    var t := SkipWs(rest);
    ItemsStep(s, v, rest);
    if Starts(t, COMMA) {
      PrependOneMore(items, v, Items(t[1..]));
    } else {
      PrependToEnd(items, v, t);
    }
  }

  lemma NoItems(r: Result<seq<Json>>)
    ensures PrependItems([], r) == r
  {
    if r.Done? { assert [] + r.value == r.value; }
  }

  method ParseArray(input: Input) returns (ok: bool, out: Json)
    requires input.Valid()
    modifies input
    ensures input.Valid() && Agrees(ok, out, input.Rest(), ArrayBody(old(input.Rest())))
    decreases |input.Rest()|, 2
  {
    var empty := input.Expect(CLOSE_BRACKET);
    if empty {
      return true, Array([]);
    }
    var items;
    ok, items := ParseItems(input);
    out := Array(items);
  }

  /** The loop of `_parse_array`. */
  method ParseItems(input: Input) returns (ok: bool, items: seq<Json>)
    requires input.Valid()
    modifies input
    ensures input.Valid() && Agrees(ok, items, input.Rest(), Items(old(input.Rest())))
    decreases |input.Rest()|, 1
  {
    ghost var length := |input.Rest()|;
    ghost var goal := Items(input.Rest());
    NoItems(goal);
    items := [];
    var more := true;
    while more
      invariant input.Valid() && |input.Rest()| <= length
      invariant more ==> goal == PrependItems(items, Items(input.Rest()))
      invariant !more ==> goal == ItemsEnd(items, SkipWs(input.Rest()))
      decreases more, |input.Rest()|
    {
      ghost var s := input.Rest();
      var item;
      ok, item := ParseValue(input);
      if !ok {
        return;
      }
      ItemRead(goal, items, s, item, input.Rest());
      SkipTwice(input.Rest());
      items := items + [item];
      more := input.Expect(COMMA);
    }
    ok := input.Expect(CLOSE_BRACKET);
  }

  method ParseKey(input: Input) returns (ok: bool, key: Bytes)
    requires input.Valid()
    modifies input
    ensures input.Valid() && Agrees(ok, key, input.Rest(), Key(old(input.Rest())))
  {
    key := [];
    ok := input.Expect(QUOTE);
    if !ok {
      return;
    }
    ok, key := ParseString(input);
    if !ok {
      return;
    }
    ok := input.Expect(COLON);
  }

  lemma MemberRead(goal: Result<seq<Member>>, members: seq<Member>, members': seq<Member>,
                   s: Bytes, key: Bytes, s': Bytes, v: Json, rest: Bytes)
    requires goal == Members(s, members) && Key(s) == Done(key, s') && Value(s') == Done(v, rest)
    requires members' == Put(members, key, v)
    ensures var t := SkipWs(rest); goal == if Starts(t, COMMA) then Members(t[1..], members') else MembersEnd(members', t)
    ensures |rest| < |s|
  {
  }

  method ParseObject(input: Input) returns (ok: bool, out: Json)
    requires input.Valid()
    modifies input
    ensures input.Valid() && Agrees(ok, out, input.Rest(), ObjectBody(old(input.Rest())))
    decreases |input.Rest()|, 2
  {
    var empty := input.Expect(CLOSE_BRACE);
    if empty {
      return true, Object([]);
    }
    var members;
    ok, members := ParseMembers(input);
    out := Object(members);
  }

  /** The loop of `_parse_object`. */
  method ParseMembers(input: Input) returns (ok: bool, members: seq<Member>)
    requires input.Valid()
    modifies input
    ensures input.Valid() && Agrees(ok, members, input.Rest(), Members(old(input.Rest()), []))
    decreases |input.Rest()|, 1
  {
    ghost var length := |input.Rest()|;
    ghost var goal := Members(input.Rest(), []);
    members := [];
    var more := true;
    while more
      invariant input.Valid() && |input.Rest()| <= length
      invariant more ==> goal == Members(input.Rest(), members)
      invariant !more ==> goal == MembersEnd(members, SkipWs(input.Rest()))
      decreases more, |input.Rest()|
    {
      ghost var s := input.Rest();
      var key, item;
      ok, key := ParseKey(input);
      if !ok {
        return;
      }
      ghost var s' := input.Rest();
      ok, item := ParseValue(input);
      if !ok {
        return;
      }
      ghost var before := members;
      members := Put(members, key, item);
      MemberRead(goal, before, members, s, key, s', item, input.Rest());
      SkipTwice(input.Rest());
      more := input.Expect(COMMA);
    }
    ok := input.Expect(CLOSE_BRACE);
  }

  /** `parse`: the error text is empty exactly when the text starts with a value; what follows the value is not
      looked at. */
  method Parse(text: Bytes) returns (ok: bool, out: Json)
    ensures ok <==> Value(text).Done?
    ensures ok ==> out == Value(text).value
  {
    var input := new Input(text);
    assert input.Rest() == text;
    ok, out := ParseValue(input);
  }
}
