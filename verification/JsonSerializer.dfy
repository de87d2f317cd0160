/** The printer of include/thirdparty/picojson.h:406-516, plain and pretty. */
module JsonSerializer {
  import opened JsonText
  import opened JsonString

  // ---------- strings ----------

  function HexLetter(d: nat): Byte
    requires d < 16
  {
    if d < 10 then ZERO + d else LOWER_A + (d - 10)
  }

  function EscapeByte(b: Byte): Bytes {
    if b == QUOTE || b == BACKSLASH || b == SLASH then [BACKSLASH, b]
    else if b == BACKSPACE then [BACKSLASH, 'b' as int]
    else if b == FORM_FEED then [BACKSLASH, 'f' as int]
    else if b == NEWLINE then [BACKSLASH, 'n' as int]
    else if b == RETURN then [BACKSLASH, 'r' as int]
    else if b == TAB then [BACKSLASH, 't' as int]
    else if b < 0x20 || b == DELETE then [BACKSLASH, LOWER_U, ZERO, ZERO, HexLetter(b / 16), HexLetter(b % 16)]
    else [b]
  }

  function EscapeAll(s: Bytes): Bytes {
    if s == [] then [] else EscapeByte(s[0]) + EscapeAll(s[1..])
  }

  function StringText(s: Bytes): Bytes {
    [QUOTE] + EscapeAll(s) + [QUOTE]
  }

  /** Seven bytes and the slash have escapes of one letter, the other control bytes have escapes of four lower-case
      hexadecimal digits, and every other byte stands for itself. */
  lemma EscapeSpelled(b: Byte)
    ensures forall k | 0 <= k < 8 && MEANINGS[k] == b :: EscapeByte(b) == [0x5c, LETTERS[k] as int]
    ensures b !in MEANINGS && (b < 0x20 || b == 0x7f) ==>
              EscapeByte(b) == [0x5c, 0x75, 0x30, 0x30, "0123456789abcdef"[b / 16] as int, "0123456789abcdef"[b % 16] as int]
    ensures b !in MEANINGS && b >= 0x20 && b != 0x7f ==> EscapeByte(b) == [b]
  {
    forall k | 0 <= k < 8 && MEANINGS[k] == b ensures EscapeByte(b) == [0x5c, LETTERS[k] as int] {
      assert k == 0 || k == 1 || k == 2 || k == 3 || k == 4 || k == 5 || k == 6 || k == 7;
    }
    if b !in MEANINGS {
      NotALetter(b);
      if b < 0x20 || b == 0x7f {
        HexLetterIs(b / 16);
        HexLetterIs(b % 16);
      }
    }
  }

  lemma NotALetter(b: Byte)
    requires b !in MEANINGS
    ensures b != QUOTE && b != BACKSLASH && b != SLASH && b != BACKSPACE && b != FORM_FEED && b != NEWLINE
    ensures b != RETURN && b != TAB
  {
    assert MEANINGS[0] == QUOTE && MEANINGS[1] == BACKSLASH && MEANINGS[2] == SLASH && MEANINGS[3] == BACKSPACE;
    assert MEANINGS[4] == FORM_FEED && MEANINGS[5] == NEWLINE && MEANINGS[6] == RETURN && MEANINGS[7] == TAB;
  }

  lemma HexLetterIs(d: nat)
    requires d < 16
    ensures HexLetter(d) == "0123456789abcdef"[d] as int
  {
    if d < 8 {
      assert d == 0 || d == 1 || d == 2 || d == 3 || d == 4 || d == 5 || d == 6 || d == 7;
    } else {
      assert d == 8 || d == 9 || d == 10 || d == 11 || d == 12 || d == 13 || d == 14 || d == 15;
    }
  }

  // ---------- values ----------

  function Spaces(n: nat): Bytes {
    seq(n, _ => SPACE)
  }

  const INDENT_WIDTH: nat := 2

  /** `_indent`; -1 means that nothing is indented. */
  function Indent(indent: int): Bytes
    requires indent >= -1
  {
    if indent == -1 then [] else [NEWLINE] + Spaces(indent * INDENT_WIDTH)
  }

  function Inner(indent: int): (i: int)
    requires indent >= -1
    ensures i == -1 || i >= 1
  {
    if indent == -1 then -1 else indent + 1
  }

  /** `_serialize`. */
  function Text(v: Json, indent: int): Bytes
    requires indent >= -1
    decreases v, 1
  {
    Body(v, indent) + if indent == 0 then [NEWLINE] else []
  }

  function Body(v: Json, indent: int): Bytes
    requires indent >= -1
    decreases v, 0
  {
    match v
    case Null => NULL_TEXT
    case Bool(b) => if b then TRUE_TEXT else FALSE_TEXT
    case Int(n) => IntText(n)
    case Double(text) => text
    case String(s) => StringText(s)
    case Array(items) =>
      [OPEN_BRACKET] + ItemsText(items, Inner(indent), true) + Outer(items == [], indent) + [CLOSE_BRACKET]
    case Object(members) =>
      [OPEN_BRACE] + MembersText(members, Inner(indent), true) + Outer(members == [], indent) + [CLOSE_BRACE]
  }

  /** The line break before a closing bracket. */
  function Outer(empty: bool, indent: int): Bytes
    requires indent >= -1
  {
    if empty then [] else Indent(indent)
  }

  function Separator(first: bool): Bytes {
    if first then [] else [COMMA]
  }

  function ItemsText(items: seq<Json>, indent: int, first: bool): Bytes
    requires indent >= -1
    decreases items, 2
  {
    if items == [] then []
    else Separator(first) + Indent(indent) + Text(items[0], indent) + ItemsText(items[1..], indent, false)
  }

  function ColonText(indent: int): Bytes {
    [COLON] + if indent == -1 then [] else [SPACE]
  }

  function MembersText(members: seq<Member>, indent: int, first: bool): Bytes
    requires indent >= -1
    decreases members, 2
  {
    if members == [] then []
    else
      Separator(first) + Indent(indent) + StringText(members[0].key) + ColonText(indent) +
      Text(members[0].value, indent) + MembersText(members[1..], indent, false)
  }

  // ---------- the printer itself ----------

  method SerializeString(s: Bytes, out0: Bytes) returns (out: Bytes)
    ensures out == out0 + StringText(s)
  {
    out := out0 + [QUOTE];
    for i := 0 to |s|
      invariant out + EscapeAll(s[i..]) == out0 + [QUOTE] + EscapeAll(s)
    {
      ghost var before := out;
      out := out + EscapeByte(s[i]);
      assert s[i..][1..] == s[i + 1..];
      assert before + (EscapeByte(s[i]) + EscapeAll(s[i + 1..])) == out + EscapeAll(s[i + 1..]);
    }
    assert out + [] == out;
    out := out + [QUOTE];
  }

  method WriteIndent(indent: int, out0: Bytes) returns (out: Bytes)
    requires indent >= -1
    ensures out == out0 + Indent(indent)
  {
    out := out0;
    if indent != -1 {
      out := out + [NEWLINE];
      for i := 0 to indent * INDENT_WIDTH
        invariant out == out0 + [NEWLINE] + Spaces(i)
      {
        out := out + [SPACE];
        assert Spaces(i + 1) == Spaces(i) + [SPACE];
      }
    }
    assert out == out0 + Indent(indent);
  }

  method Serialize(v: Json, indent: int, out0: Bytes) returns (out: Bytes)
    requires indent >= -1
    ensures out == out0 + Text(v, indent)
    decreases v, 1
  {
    match v {
      case String(s) =>
        out := SerializeString(s, out0);
      case Array(items) =>
        out := SerializeItems(items, indent, out0);
      case Object(members) =>
        out := SerializeMembers(members, indent, out0);
      case _ =>
        out := out0 + Body(v, indent);
    }
    if indent == 0 {
      out := out + [NEWLINE];
    }
  }

  method SerializeItems(items: seq<Json>, indent0: int, out0: Bytes) returns (out: Bytes)
    requires indent0 >= -1
    ensures out == out0 + Body(Array(items), indent0)
    decreases items, 3
  {
    var indent := indent0;
    out := out0 + [OPEN_BRACKET];
    if indent != -1 {
      indent := indent + 1;
    }
    out := WriteItems(items, indent, out);
    if indent != -1 {
      indent := indent - 1;
      if items != [] {
        out := WriteIndent(indent, out);
      }
    }
    out := out + [CLOSE_BRACKET];
    Regroup(out0, [OPEN_BRACKET], ItemsText(items, Inner(indent0), true), Outer(items == [], indent0), [CLOSE_BRACKET]);
  }

  lemma Regroup(a: Bytes, b: Bytes, c: Bytes, d: Bytes, e: Bytes)
    ensures a + (b + c + d + e) == a + b + c + d + e
    ensures d == [] ==> a + b + c + d + e == a + b + c + e
  {
  }

  lemma ItemsFrom(items: seq<Json>, i: nat, indent: int)
    requires i < |items| && indent >= -1
    ensures ItemsText(items[i..], indent, i == 0) ==
            Separator(i == 0) + Indent(indent) + Text(items[i], indent) + ItemsText(items[i + 1..], indent, false)
  {
    assert items[i..][1..] == items[i + 1..];
  }

  /** The loop over the items. */
  method WriteItems(items: seq<Json>, indent: int, out0: Bytes) returns (out: Bytes)
    requires indent >= -1
    ensures out == out0 + ItemsText(items, indent, true)
    decreases items, 2
  {
    out := out0;
    ghost var goal := out + ItemsText(items, indent, true);
    assert items[0..] == items;
    for i := 0 to |items|
      invariant out + ItemsText(items[i..], indent, i == 0) == goal
    {
      ItemsFrom(items, i, indent);
      Regroup(out, Separator(i == 0), Indent(indent), Text(items[i], indent), ItemsText(items[i + 1..], indent, false));
      out := WriteItem(items[i], indent, i == 0, out);
    }
    assert out + [] == out;
  }

  method WriteItem(item: Json, indent: int, first: bool, out0: Bytes) returns (out: Bytes)
    requires indent >= -1
    ensures out == out0 + Separator(first) + Indent(indent) + Text(item, indent)
    decreases item, 2
  {
    out := WriteLead(indent, first, out0);
    out := Serialize(item, indent, out);
  }

  /** The comma and the line break before an item or a member. */
  method WriteLead(indent: int, first: bool, out0: Bytes) returns (out: Bytes)
    requires indent >= -1
    ensures out == out0 + Separator(first) + Indent(indent)
  {
    out := out0;
    if !first {
      out := out + [COMMA];
    }
    assert out == out0 + Separator(first);
    if indent != -1 {
      out := WriteIndent(indent, out);
    } else {
      assert out + [] == out;
    }
  }

  method SerializeMembers(members: seq<Member>, indent0: int, out0: Bytes) returns (out: Bytes)
    requires indent0 >= -1
    ensures out == out0 + Body(Object(members), indent0)
    decreases members, 3
  {
    var indent := indent0;
    out := out0 + [OPEN_BRACE];
    if indent != -1 {
      indent := indent + 1;
    }
    out := WriteMembers(members, indent, out);
    if indent != -1 {
      indent := indent - 1;
      if members != [] {
        out := WriteIndent(indent, out);
      }
    }
    out := out + [CLOSE_BRACE];
    Regroup(out0, [OPEN_BRACE], MembersText(members, Inner(indent0), true), Outer(members == [], indent0), [CLOSE_BRACE]);
  }

  /** A member without its separator. */
  function MemberText(m: Member, indent: int): Bytes
    requires indent >= -1
  {
    StringText(m.key) + ColonText(indent) + Text(m.value, indent)
  }

  lemma MembersFrom(members: seq<Member>, i: nat, indent: int)
    requires i < |members| && indent >= -1
    ensures MembersText(members[i..], indent, i == 0) ==
            Separator(i == 0) + Indent(indent) + MemberText(members[i], indent) + MembersText(members[i + 1..], indent, false)
  {
    assert members[i..][1..] == members[i + 1..];
    var m := members[i];
    RegroupMember(Separator(i == 0) + Indent(indent), StringText(m.key), ColonText(indent), Text(m.value, indent));
  }

  lemma RegroupMember(a: Bytes, b: Bytes, c: Bytes, d: Bytes)
    ensures a + b + c + d == a + (b + c + d)
  {
  }

  /** The loop over the members. */
  method WriteMembers(members: seq<Member>, indent: int, out0: Bytes) returns (out: Bytes)
    requires indent >= -1
    ensures out == out0 + MembersText(members, indent, true)
    decreases members, 2
  {
    out := out0;
    ghost var goal := out + MembersText(members, indent, true);
    assert members[0..] == members;
    for i := 0 to |members|
      invariant out + MembersText(members[i..], indent, i == 0) == goal
    {
      MembersFrom(members, i, indent);
      Regroup(out, Separator(i == 0), Indent(indent), MemberText(members[i], indent),
              MembersText(members[i + 1..], indent, false));
      out := WriteMember(members[i], indent, i == 0, out);
    }
    assert out + [] == out;
  }

  method WriteMember(m: Member, indent: int, first: bool, out0: Bytes) returns (out: Bytes)
    requires indent >= -1
    ensures out == out0 + Separator(first) + Indent(indent) + MemberText(m, indent)
    decreases m, 2
  {
    out := WriteLead(indent, first, out0);
    ghost var before := out;
    out := WriteKey(m.key, indent, out);
    out := Serialize(m.value, indent, out);
    RegroupMember(before, StringText(m.key), ColonText(indent), Text(m.value, indent));
  }

  method WriteKey(key: Bytes, indent: int, out0: Bytes) returns (out: Bytes)
    requires indent >= -1
    ensures out == out0 + StringText(key) + ColonText(indent)
  {
    out := SerializeString(key, out0);
    ghost var before := out;
    out := out + [COLON];
    if indent != -1 {
      out := out + [SPACE];
    }
    assert out == before + ColonText(indent);
  }

  /** `serialize`. */
  method Print(v: Json, prettify: bool) returns (out: Bytes)
    ensures out == Text(v, if prettify then 0 else -1)
  {
    out := Serialize(v, if prettify then 0 else -1, []);
    assert [] + Text(v, if prettify then 0 else -1) == Text(v, if prettify then 0 else -1);
  }
}
