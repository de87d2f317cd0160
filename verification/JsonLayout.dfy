/** What the printer of include/thirdparty/picojson.h:406-516 lays out: a value is a list of lines, each at a depth.
  Printed pretty every line begins with a line break and two spaces for each level; printed plain there is nothing
  between the lines.
 */
module JsonLayout {
  import opened JsonText
  import opened JsonSerializer

  datatype Line = Line(depth: nat, text: Bytes)

  /** A value that has no lines of its own. */
  function Scalar(v: Json): Bytes {
    match v
    case Null => [0x6e, 0x75, 0x6c, 0x6c]
    case Bool(b) => if b then [0x74, 0x72, 0x75, 0x65] else [0x66, 0x61, 0x6c, 0x73, 0x65]
    case Int(n) => IntText(n)
    case Double(text) => text
    case String(s) => StringText(s)
    case Array(_) => [0x5b, 0x5d]
    case Object(_) => [0x7b, 0x7d]
  }

  /** The lines of a value at a depth, with `before` in front of its first line and `after` behind its last one. The
      brackets of an array or object with something in it are on lines of their own. */
  function Lines(v: Json, depth: nat, before: Bytes, after: Bytes, colon: Bytes): seq<Line>
    decreases v, 0
  {
    match v
    case Array(items) =>
      if items == [] then [Line(depth, before + Scalar(v) + after)]
      else
        [Line(depth, before + [0x5b])] + ItemLines(items, depth + 1, colon) + [Line(depth, [0x5d] + after)]
    case Object(members) =>
      if members == [] then [Line(depth, before + Scalar(v) + after)]
      else
        [Line(depth, before + [0x7b])] + MemberLines(members, depth + 1, colon) + [Line(depth, [0x7d] + after)]
    case _ => [Line(depth, before + Scalar(v) + after)]
  }

  /** What stands behind an item: a comma, unless it is the last. */
  function Comma(more: bool): Bytes {
    if more then [0x2c] else []
  }

  function ItemLines(items: seq<Json>, depth: nat, colon: Bytes): seq<Line>
    decreases items, 1
  {
    if items == [] then []
    else Lines(items[0], depth, [], Comma(|items| > 1), colon) + ItemLines(items[1..], depth, colon)
  }

  function MemberLines(members: seq<Member>, depth: nat, colon: Bytes): seq<Line>
    decreases members, 1
  {
    if members == [] then []
    else
      Lines(members[0].value, depth, StringText(members[0].key) + colon, Comma(|members| > 1), colon) +
      MemberLines(members[1..], depth, colon)
  }

  /** What a line begins with. */
  function Lead(depth: nat, pretty: bool): Bytes {
    if pretty then [0x0a] + seq(2 * depth, _ => 0x20) else []
  }

  function Laid(lines: seq<Line>, pretty: bool): Bytes {
    if lines == [] then [] else Lead(lines[0].depth, pretty) + lines[0].text + Laid(lines[1..], pretty)
  }

  /** The printer's indentation for a depth. */
  function Level(depth: nat, pretty: bool): (indent: int)
    ensures indent >= -1
  {
    if pretty then depth else -1
  }

  function Colon(pretty: bool): Bytes {
    if pretty then [0x3a, 0x20] else [0x3a]
  }

  lemma LeadIsIndent(depth: nat, pretty: bool)
    ensures Lead(depth, pretty) == Indent(Level(depth, pretty)) && ColonText(Level(depth, pretty)) == Colon(pretty)
  {
    assert Spaces(depth * INDENT_WIDTH) == seq(2 * depth, _ => 0x20);
  }

  lemma {:induction false} LaidConcat(a: seq<Line>, b: seq<Line>, pretty: bool)
    ensures Laid(a + b, pretty) == Laid(a, pretty) + Laid(b, pretty)
  {
    if a == [] {
      assert a + b == b;
    } else {
      assert (a + b)[1..] == a[1..] + b;
      LaidConcat(a[1..], b, pretty);
    }
  }

  lemma LaidOne(x: Line, pretty: bool)
    ensures Laid([x], pretty) == Lead(x.depth, pretty) + x.text
  {
    assert [x][1..] == [];
  }

  lemma LaidThree(x: Line, inner: seq<Line>, y: Line, pretty: bool)
    ensures Laid([x] + inner + [y], pretty) ==
            Lead(x.depth, pretty) + x.text + Laid(inner, pretty) + (Lead(y.depth, pretty) + y.text)
  {
    LaidConcat([x] + inner, [y], pretty);
    LaidConcat([x], inner, pretty);
    LaidOne(x, pretty);
    LaidOne(y, pretty);
  }

  /** The value of a member or an item below the top has no line break behind it. */
  lemma InnerBody(v: Json, depth: nat, pretty: bool)
    requires depth >= 1
    ensures Text(v, Level(depth, pretty)) == Body(v, Level(depth, pretty))
  {
    assert Body(v, Level(depth, pretty)) + [] == Body(v, Level(depth, pretty));
  }

  lemma Brackets(lead: Bytes, before: Bytes, open: Bytes, inner: Bytes, outer: Bytes, close: Bytes, after: Bytes)
    ensures lead + (before + open) + inner + (outer + (close + after)) ==
            lead + (before + (open + inner + outer + close + after))
  {
  }

  lemma Enclosed(lead: Bytes, before: Bytes, body: Bytes, after: Bytes)
    ensures lead + (before + body + after) == lead + (before + (body + after))
  {
  }

  /** The printed value, with what stands around it, is its lines laid out. */
  lemma {:induction false} BodyIsLaid(v: Json, depth: nat, before: Bytes, after: Bytes, pretty: bool)
    ensures Laid(Lines(v, depth, before, after, Colon(pretty)), pretty) ==
            Lead(depth, pretty) + (before + (Body(v, Level(depth, pretty)) + after))
    decreases v, 0
  {
    if v.Array? && v.items != [] {
      ArrayIsLaid(v.items, depth, before, after, pretty);
    } else if v.Object? && v.members != [] {
      ObjectIsLaid(v.members, depth, before, after, pretty);
    } else {
      ScalarIsLaid(v, depth, before, after, pretty);
    }
  }

  lemma ArrayIsLaid(items: seq<Json>, depth: nat, before: Bytes, after: Bytes, pretty: bool)
    requires items != []
    ensures Laid(Lines(Array(items), depth, before, after, Colon(pretty)), pretty) ==
            Lead(depth, pretty) + (before + (Body(Array(items), Level(depth, pretty)) + after))
    decreases items, 2
  {
    var inner := ItemLines(items, depth + 1, Colon(pretty));
    LeadIsIndent(depth, pretty);
    LaidThree(Line(depth, before + [0x5b]), inner, Line(depth, [0x5d] + after), pretty);
    ItemsAreLaid(items, depth + 1, pretty);
    Brackets(Lead(depth, pretty), before, [0x5b], Laid(inner, pretty), Lead(depth, pretty), [0x5d], after);
  }

  lemma ObjectIsLaid(members: seq<Member>, depth: nat, before: Bytes, after: Bytes, pretty: bool)
    requires members != []
    ensures Laid(Lines(Object(members), depth, before, after, Colon(pretty)), pretty) ==
            Lead(depth, pretty) + (before + (Body(Object(members), Level(depth, pretty)) + after))
    decreases members, 2
  {
    var inner := MemberLines(members, depth + 1, Colon(pretty));
    LeadIsIndent(depth, pretty);
    LaidThree(Line(depth, before + [0x7b]), inner, Line(depth, [0x7d] + after), pretty);
    MembersAreLaid(members, depth + 1, pretty);
    Brackets(Lead(depth, pretty), before, [0x7b], Laid(inner, pretty), Lead(depth, pretty), [0x7d], after);
  }

  lemma ScalarIsLaid(v: Json, depth: nat, before: Bytes, after: Bytes, pretty: bool)
    requires (v.Array? ==> v.items == []) && (v.Object? ==> v.members == [])
    ensures Laid(Lines(v, depth, before, after, Colon(pretty)), pretty) ==
            Lead(depth, pretty) + (before + (Body(v, Level(depth, pretty)) + after))
  {
    LaidOne(Line(depth, before + Scalar(v) + after), pretty);
    ScalarBody(v, Level(depth, pretty));
    Enclosed(Lead(depth, pretty), before, Scalar(v), after);
  }

  lemma ScalarBody(v: Json, indent: int)
    requires indent >= -1 && (v.Array? ==> v.items == []) && (v.Object? ==> v.members == [])
    ensures Body(v, indent) == Scalar(v)
  {
  }

  lemma CommaFirst(items: seq<Json>, indent: int)
    requires indent >= -1
    ensures ItemsText(items, indent, false) == Comma(items != []) + ItemsText(items, indent, true)
  {
    if items != [] {
      Shift([0x2c], Indent(indent), Text(items[0], indent), ItemsText(items[1..], indent, false));
    }
  }

  lemma Shift(a: Bytes, b: Bytes, c: Bytes, d: Bytes)
    ensures a + b + c + d == a + ([] + b + c + d)
  {
  }

  lemma {:induction false} ItemsAreLaid(items: seq<Json>, depth: nat, pretty: bool)
    requires depth >= 1
    ensures Laid(ItemLines(items, depth, Colon(pretty)), pretty) == ItemsText(items, Level(depth, pretty), true)
    decreases items, 1
  {
    if items != [] {
      var indent, v, more := Level(depth, pretty), items[0], items[1..];
      LaidConcat(Lines(v, depth, [], Comma(|items| > 1), Colon(pretty)), ItemLines(more, depth, Colon(pretty)), pretty);
      BodyIsLaid(v, depth, [], Comma(|items| > 1), pretty);
      ItemsAreLaid(more, depth, pretty);
      InnerBody(v, depth, pretty);
      CommaFirst(more, indent);
      LeadIsIndent(depth, pretty);
      Joined(Lead(depth, pretty), [], Body(v, indent), Comma(|items| > 1), ItemsText(more, indent, true));
    }
  }

  lemma Joined(a: Bytes, b: Bytes, c: Bytes, d: Bytes, e: Bytes)
    ensures a + (b + (c + d)) + e == [] + a + b + c + (d + e)
    ensures b == [] ==> a + (b + (c + d)) + e == [] + a + c + (d + e)
  {
  }

  lemma CommaFirstMember(members: seq<Member>, indent: int)
    requires indent >= -1
    ensures MembersText(members, indent, false) == Comma(members != []) + MembersText(members, indent, true)
  {
    if members != [] {
      var m := members[0];
      ShiftMember([0x2c], Indent(indent), StringText(m.key), ColonText(indent), Text(m.value, indent),
                  MembersText(members[1..], indent, false));
    }
  }

  lemma ShiftMember(a: Bytes, b: Bytes, c: Bytes, d: Bytes, e: Bytes, f: Bytes)
    ensures a + b + c + d + e + f == a + ([] + b + c + d + e + f)
  {
  }

  lemma JoinedMember(a: Bytes, key: Bytes, colon: Bytes, c: Bytes, d: Bytes, e: Bytes)
    ensures a + (key + colon + (c + d)) + e == [] + a + key + colon + c + (d + e)
  {
  }

  lemma {:induction false} MembersAreLaid(members: seq<Member>, depth: nat, pretty: bool)
    requires depth >= 1
    ensures Laid(MemberLines(members, depth, Colon(pretty)), pretty) == MembersText(members, Level(depth, pretty), true)
    decreases members, 1
  {
    if members != [] {
      var indent, m, more := Level(depth, pretty), members[0], members[1..];
      var before, after := StringText(m.key) + Colon(pretty), Comma(|members| > 1);
      LaidConcat(Lines(m.value, depth, before, after, Colon(pretty)), MemberLines(more, depth, Colon(pretty)), pretty);
      BodyIsLaid(m.value, depth, before, after, pretty);
      MembersAreLaid(more, depth, pretty);
      InnerBody(m.value, depth, pretty);
      CommaFirstMember(more, indent);
      LeadIsIndent(depth, pretty);
      JoinedMember(Lead(depth, pretty), StringText(m.key), Colon(pretty), Body(m.value, indent), after,
                   MembersText(more, indent, true));
    }
  }

  /** Printed plain, a value is the texts of its lines with nothing between them, a colon without a space, and no line
      break at the end. */
  lemma PlainIsLines(v: Json)
    ensures Text(v, -1) == Laid(Lines(v, 0, [], [], [0x3a]), false)
  {
    BodyIsLaid(v, 0, [], [], false);
    Alone([], Body(v, -1));
  }

  lemma Alone(lead: Bytes, body: Bytes)
    ensures lead + ([] + (body + [])) == lead + body
    ensures [] + body == body == body + []
  {
  }

  lemma Ended(lead: Bytes, body: Bytes, end: Bytes)
    ensures lead + (body + end) == lead + body + end
  {
  }

  /** Printed pretty, it is its lines with two spaces for each level, a space behind every colon, and a line break at
      the end; the line break of the first line is left out. */
  lemma PrettyIsLines(v: Json)
    ensures [0x0a] + Text(v, 0) == Laid(Lines(v, 0, [], [], [0x3a, 0x20]), true) + [0x0a]
  {
    var body := Body(v, 0);
    BodyIsLaid(v, 0, [], [], true);
    assert Lead(0, true) == [0x0a];
    Alone([0x0a], body);
    Ended([0x0a], body, [0x0a]);
  }
}
