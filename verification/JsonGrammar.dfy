/** The texts of RFC 8259, spelled out as forms: white space around every token (section 2), the three words
  (section 3), objects (section 4), arrays (section 5), numbers as in JsonNumbers and strings as in JsonString. The
  parser of include/thirdparty/picojson.h:686-849 accepts these texts and no others, and yields what they mean.
 */
module JsonGrammar {
  import opened JsonText
  import opened JsonInput
  import opened JsonNumbers
  import S = JsonString
  import P = JsonParser
  import R = JsonRoundTrip

  /** A string after its opening quote: its items, what each means, its text up to the closing quote, its value. */
  datatype Spelling = Spelling(items: seq<S.Item>, values: seq<Bytes>, text: Bytes, value: Bytes)

  /** How a value is written. `blank` is the white space of an array or object with nothing in it. */
  datatype Form =
    | NullForm
    | FalseForm
    | TrueForm
    | NumberForm(n: Number)
    | StringForm(s: Spelling)
    | ArrayForm(blank: Bytes, slots: seq<Slot>)
    | ObjectForm(blank: Bytes, fields: seq<Field>)

  /** A value with white space on both sides. */
  datatype Slot = Slot(before: Bytes, form: Form, after: Bytes)

  /** A name with white space on both sides, and the value behind the colon. */
  datatype Field = Field(before: Bytes, name: Spelling, after: Bytes, slot: Slot)

  /** Spaces, tabs, line feeds and carriage returns. */
  predicate Blank(ws: Bytes) {
    forall i | 0 <= i < |ws| :: ws[i] == 0x20 || ws[i] == 0x09 || ws[i] == 0x0a || ws[i] == 0x0d
  }

  ghost predicate SpellingOk(s: Spelling) {
    |s.items| == |s.values| && S.Spells(s.items, s.values, s.text, s.value)
  }

  ghost predicate FormOk(f: Form) {
    match f
    case NumberForm(n) => NumberOk(n)
    case StringForm(s) => SpellingOk(s)
    case ArrayForm(blank, slots) => Blank(blank) && forall i | 0 <= i < |slots| :: SlotOk(slots[i])
    case ObjectForm(blank, fields) => Blank(blank) && forall i | 0 <= i < |fields| :: FieldOk(fields[i])
    case _ => true
  }

  ghost predicate SlotOk(x: Slot) {
    Blank(x.before) && FormOk(x.form) && Blank(x.after)
  }

  ghost predicate FieldOk(x: Field) {
    Blank(x.before) && SpellingOk(x.name) && Blank(x.after) && SlotOk(x.slot)
  }

  // ---------- texts ----------

  function FormText(f: Form): Bytes {
    match f
    case NullForm => [0x6e, 0x75, 0x6c, 0x6c]
    case FalseForm => [0x66, 0x61, 0x6c, 0x73, 0x65]
    case TrueForm => [0x74, 0x72, 0x75, 0x65]
    case NumberForm(n) => NumberText(n)
    case StringForm(s) => [0x22] + s.text
    case ArrayForm(blank, slots) => [0x5b] + (if slots == [] then blank + [0x5d] else SlotsText(slots))
    case ObjectForm(blank, fields) => [0x7b] + (if fields == [] then blank + [0x7d] else FieldsText(fields))
  }

  function SlotText(x: Slot): Bytes {
    x.before + FormText(x.form) + x.after
  }

  /** Values with commas between them, and the closing bracket. */
  function SlotsText(slots: seq<Slot>): Bytes
    requires slots != []
  {
    SlotText(slots[0]) + (if |slots| == 1 then [0x5d] else [0x2c] + SlotsText(slots[1..]))
  }

  function FieldText(x: Field): Bytes {
    x.before + ([0x22] + x.name.text) + x.after + [0x3a] + SlotText(x.slot)
  }

  /** Members with commas between them, and the closing brace. */
  function FieldsText(fields: seq<Field>): Bytes
    requires fields != []
  {
    FieldText(fields[0]) + (if |fields| == 1 then [0x7d] else [0x2c] + FieldsText(fields[1..]))
  }

  // ---------- meanings ----------

  function FormValue(f: Form): Json {
    match f
    case NullForm => Null
    case FalseForm => Bool(false)
    case TrueForm => Bool(true)
    case NumberForm(n) => NumberMeaning(n)
    case StringForm(s) => String(s.value)
    case ArrayForm(_, slots) => Array(SlotValues(slots))
    case ObjectForm(_, fields) => Object(Assigned([], fields))
  }

  function SlotValues(slots: seq<Slot>): seq<Json> {
    if slots == [] then [] else [FormValue(slots[0].form)] + SlotValues(slots[1..])
  }

  /** The members are assigned in the order in which they are written. */
  function Assigned(members: seq<Member>, fields: seq<Field>): seq<Member>
    decreases fields
  {
    if fields == [] then members
    else Assigned(P.Put(members, fields[0].name.value, FormValue(fields[0].slot.form)), fields[1..])
  }

  /** The value of the last field with a name. */
  function LastOf(fields: seq<Field>, name: Bytes): Option<Json> {
    if fields == [] then None
    else if fields[|fields| - 1].name.value == name then Some(FormValue(fields[|fields| - 1].slot.form))
    else LastOf(fields[..|fields| - 1], name)
  }

  lemma {:induction false} AssignLast(members: seq<Member>, fields: seq<Field>, x: Field)
    ensures Assigned(members, fields + [x]) == P.Put(Assigned(members, fields), x.name.value, FormValue(x.slot.form))
    decreases fields
  {
    if fields == [] {
      assert Assigned(members, [x]) == Assigned(P.Put(members, x.name.value, FormValue(x.slot.form)), [x][1..]);
      assert [] + [x] == [x];
    } else {
      assert (fields + [x])[1..] == fields[1..] + [x];
      AssignLast(P.Put(members, fields[0].name.value, FormValue(fields[0].slot.form)), fields[1..], x);
    }
  }

  /** An object is a map: its members are in the order of their keys, and of the fields with one name the last counts. */
  lemma {:induction false} LastCounts(fields: seq<Field>, name: Bytes)
    ensures R.KeysAscend(Assigned([], fields))
    ensures R.Lookup(Assigned([], fields), name) == LastOf(fields, name)
  {
    if fields != [] {
      var n := |fields| - 1;
      var x := fields[n];
      LastCounts(fields[..n], name);
      assert fields == fields[..n] + [x];
      AssignLast([], fields[..n], x);
      R.PutAssigns(Assigned([], fields[..n]), x.name.value, FormValue(x.slot.form), name);
    }
  }

  // ---------- every such text is accepted ----------

  lemma BlankIsSpace(ws: Bytes)
    ensures Blank(ws) <==> R.AllSpace(ws)
  {
    forall i | 0 <= i < |ws| && Blank(ws) ensures IsSpace(ws[i]) {
    }
    forall i | 0 <= i < |ws| && R.AllSpace(ws) ensures ws[i] == 0x20 || ws[i] == 0x09 || ws[i] == 0x0a || ws[i] == 0x0d {
      assert IsSpace(ws[i]);
    }
  }

  lemma Skips(ws: Bytes, t: Bytes)
    requires Blank(ws) && t != [] && !IsSpace(t[0])
    ensures SkipWs(ws + t) == t
  {
    BlankIsSpace(ws);
    R.SkipOver(ws, t);
  }

  lemma FormStarts(f: Form)
    requires FormOk(f)
    ensures FormText(f) != [] && R.StartsValue(FormText(f)[0])
  {
    if f.NumberForm? { NumberAccepted(f.n); }
  }

  /** What stands behind a slot: white space, a comma or a closing bracket, and the rest. */
  lemma Behind(after: Bytes, mark: Byte, rest: Bytes)
    requires Blank(after) && (mark == COMMA || mark == CLOSE_BRACKET || mark == CLOSE_BRACE)
    ensures var tail := after + ([mark] + rest);
            SkipWs(tail) == [mark] + rest && ([mark] + rest)[1..] == rest && R.EndsNumber(tail)
  {
    Skips(after, [mark] + rest);
    assert after != [] ==> (after + ([mark] + rest))[0] == after[0];
  }

  lemma NumberForms(n: Number, rest: Bytes)
    requires NumberOk(n) && R.EndsNumber(rest)
    ensures P.Value(NumberText(n) + rest) == S.Done(NumberMeaning(n), rest)
  {
    var t := NumberText(n);
    NumberAccepted(n);
    R.NumberEndAt(t, rest, 0);
    assert (t + rest)[..|t|] == t && (t + rest)[|t|..] == rest;
    R.NumberDispatch(t + rest);
  }

  lemma StringMeans(s: Spelling, rest: Bytes)
    requires SpellingOk(s)
    ensures P.StringValue(s.text + rest) == S.Done(String(s.value), rest)
  {
    S.AcceptsGrammar(s.items, s.values, s.text, s.value, rest);
  }

  lemma StringForms(s: Spelling, rest: Bytes)
    requires SpellingOk(s)
    ensures P.Value([0x22] + s.text + rest) == S.Done(String(s.value), rest)
  {
    var t := [0x22] + s.text + rest;
    Opened(0x22, s.text, rest);
    StringMeans(s, rest);
    R.Dispatch(t);
  }

  lemma {:induction false} FormAccepted(f: Form, rest: Bytes)
    requires FormOk(f) && (f.NumberForm? ==> R.EndsNumber(rest))
    ensures P.Value(FormText(f) + rest) == S.Done(FormValue(f), rest)
    decreases f, 0
  {
    match f
    case NullForm => R.WordReadsBack(NULL_TEXT, Null, rest);
    case FalseForm => R.WordReadsBack(FALSE_TEXT, Bool(false), rest);
    case TrueForm => R.WordReadsBack(TRUE_TEXT, Bool(true), rest);
    case NumberForm(n) => NumberForms(n, rest);
    case StringForm(s) => StringForms(s, rest);
    case ArrayForm(blank, slots) =>
      var inner := if slots == [] then blank + [0x5d] else SlotsText(slots);
      Opened(0x5b, inner, rest);
      if slots == [] {
        EmptyArray(blank, rest);
      } else {
        SlotsAccepted(slots, rest);
        FirstSlot(slots, rest);
      }
      R.Dispatch(FormText(f) + rest);
    case ObjectForm(blank, fields) =>
      var inner := if fields == [] then blank + [0x7d] else FieldsText(fields);
      Opened(0x7b, inner, rest);
      if fields == [] {
        EmptyObject(blank, rest);
      } else {
        FieldsAccepted(fields, [], rest);
        FirstField(fields, rest);
      }
      R.Dispatch(FormText(f) + rest);
  }

  lemma Opened(open: Byte, inner: Bytes, rest: Bytes)
    ensures var t := [open] + inner + rest; t != [] && t[0] == open && t[1..] == inner + rest
  {
  }

  lemma EmptyArray(blank: Bytes, rest: Bytes)
    requires Blank(blank)
    ensures P.ArrayBody(blank + [0x5d] + rest) == S.Done(Array([]), rest)
  {
    Regroup(blank, [0x5d], rest);
    Behind(blank, CLOSE_BRACKET, rest);
  }

  lemma EmptyObject(blank: Bytes, rest: Bytes)
    requires Blank(blank)
    ensures P.ObjectBody(blank + [0x7d] + rest) == S.Done(Object([]), rest)
  {
    Regroup(blank, [0x7d], rest);
    Behind(blank, CLOSE_BRACE, rest);
  }

  lemma Regroup(a: Bytes, b: Bytes, c: Bytes)
    ensures a + b + c == a + (b + c)
  {
  }

  lemma SlotFront(x: Slot, t: Bytes)
    ensures SlotText(x) + t == x.before + (FormText(x.form) + (x.after + t))
  {
    Regroup(x.before + FormText(x.form), x.after, t);
    Regroup(x.before, FormText(x.form), x.after + t);
  }

  /** A value in its slot, whatever mark follows. */
  lemma {:induction false} SlotAccepted(x: Slot, mark: Byte, rest: Bytes)
    requires SlotOk(x) && (mark == COMMA || mark == CLOSE_BRACKET || mark == CLOSE_BRACE)
    ensures var r := P.Value(SlotText(x) + ([mark] + rest));
            r.Done? && r.value == FormValue(x.form) && SkipWs(r.rest) == [mark] + rest && ([mark] + rest)[1..] == rest
    decreases x, 0
  {
    var tail := x.after + ([mark] + rest);
    Behind(x.after, mark, rest);
    FormAccepted(x.form, tail);
    FormStarts(x.form);
    Skips(x.before, FormText(x.form) + tail);
    SlotFront(x, [mark] + rest);
    Skips([], FormText(x.form) + tail);
    assert [] + (FormText(x.form) + tail) == FormText(x.form) + tail;
    R.ValueSkips(SlotText(x) + ([mark] + rest), FormText(x.form) + tail);
  }

  lemma SlotsSplit(slots: seq<Slot>, rest: Bytes)
    requires slots != []
    ensures SlotsText(slots) + rest ==
            SlotText(slots[0]) + (if |slots| == 1 then [0x5d] + rest else [0x2c] + (SlotsText(slots[1..]) + rest))
  {
    if |slots| == 1 {
      Regroup(SlotText(slots[0]), [0x5d], rest);
    } else {
      Regroup(SlotText(slots[0]), [0x2c] + SlotsText(slots[1..]), rest);
      Regroup([0x2c], SlotsText(slots[1..]), rest);
    }
  }

  lemma {:induction false} SlotsAccepted(slots: seq<Slot>, rest: Bytes)
    requires slots != [] && forall i | 0 <= i < |slots| :: SlotOk(slots[i])
    ensures P.Items(SlotsText(slots) + rest) == S.Done(SlotValues(slots), rest)
    decreases slots, 1
  {
    var x, more := slots[0], slots[1..];
    var s := SlotsText(slots) + rest;
    SlotsSplit(slots, rest);
    if |slots| == 1 {
      SlotAccepted(x, CLOSE_BRACKET, rest);
      P.ItemsStep(s, FormValue(x.form), P.Value(s).rest);
      assert SlotValues(slots) == [FormValue(x.form)] + SlotValues(more) == [FormValue(x.form)];
    } else {
      SlotAccepted(x, COMMA, SlotsText(more) + rest);
      SlotsAccepted(more, rest);
      P.ItemsStep(s, FormValue(x.form), P.Value(s).rest);
    }
  }

  /** The array does not end before its first slot. */
  lemma FirstSlot(slots: seq<Slot>, rest: Bytes)
    requires slots != [] && SlotOk(slots[0])
    ensures var s := SlotsText(slots) + rest; !P.Starts(SkipWs(s), CLOSE_BRACKET) && P.Items(SkipWs(s)) == P.Items(s)
  {
    var x := slots[0];
    var s := SlotsText(slots) + rest;
    var tail := x.after + (if |slots| == 1 then [0x5d] + rest else [0x2c] + (SlotsText(slots[1..]) + rest));
    SlotsSplit(slots, rest);
    SlotFront(x, if |slots| == 1 then [0x5d] + rest else [0x2c] + (SlotsText(slots[1..]) + rest));
    FormStarts(x.form);
    Skips(x.before, FormText(x.form) + tail);
    R.ValueSkips(s, SkipWs(s));
  }

  lemma FieldsSplit(fields: seq<Field>, rest: Bytes)
    requires fields != []
    ensures FieldsText(fields) + rest ==
            FieldText(fields[0]) + (if |fields| == 1 then [0x7d] + rest else [0x2c] + (FieldsText(fields[1..]) + rest))
  {
    if |fields| == 1 {
      Regroup(FieldText(fields[0]), [0x7d], rest);
    } else {
      Regroup(FieldText(fields[0]), [0x2c] + FieldsText(fields[1..]), rest);
      Regroup([0x2c], FieldsText(fields[1..]), rest);
    }
  }

  /** A name and its colon, whatever follows. */
  lemma NameAccepted(x: Field, rest: Bytes)
    requires FieldOk(x)
    ensures var s := FieldText(x) + rest;
            && P.Key(s) == S.Done(x.name.value, SlotText(x.slot) + rest)
            && P.Starts(SkipWs(s), QUOTE)
  {
    var value := SlotText(x.slot) + rest;
    var colon := x.after + ([0x3a] + value);
    var t := [0x22] + (x.name.text + colon);
    var s := FieldText(x) + rest;
    FieldFront(x, rest);
    Skips(x.before, t);
    Skips(x.after, [0x3a] + value);
    Opened(0x22, x.name.text, colon);
    Regroup([0x22], x.name.text, colon);
    NameThen(x.name, colon);
    assert ([0x3a] + value)[1..] == value;
  }

  lemma NameThen(name: Spelling, rest: Bytes)
    requires SpellingOk(name)
    ensures S.StringBody(name.text + rest) == S.Done(name.value, rest)
  {
    S.AcceptsGrammar(name.items, name.values, name.text, name.value, rest);
  }

  lemma FieldFront(x: Field, rest: Bytes)
    ensures FieldText(x) + rest ==
            x.before + ([0x22] + (x.name.text + (x.after + ([0x3a] + (SlotText(x.slot) + rest)))))
  {
    var value := SlotText(x.slot) + rest;
    Regroup(x.before + ([0x22] + x.name.text) + x.after + [0x3a], SlotText(x.slot), rest);
    Regroup(x.before + ([0x22] + x.name.text) + x.after, [0x3a], value);
    Regroup(x.before + ([0x22] + x.name.text), x.after, [0x3a] + value);
    Regroup(x.before, [0x22] + x.name.text, x.after + ([0x3a] + value));
    Regroup([0x22], x.name.text, x.after + ([0x3a] + value));
  }

  lemma {:induction false} FieldsAccepted(fields: seq<Field>, members: seq<Member>, rest: Bytes)
    requires fields != [] && forall i | 0 <= i < |fields| :: FieldOk(fields[i])
    ensures P.Members(FieldsText(fields) + rest, members) == S.Done(Assigned(members, fields), rest)
    decreases fields, 1
  {
    var x, more := fields[0], fields[1..];
    var s := FieldsText(fields) + rest;
    var behind := if |fields| == 1 then [0x7d] + rest else [0x2c] + (FieldsText(more) + rest);
    var members' := P.Put(members, x.name.value, FormValue(x.slot.form));
    FieldsSplit(fields, rest);
    NameAccepted(x, behind);
    var s' := SlotText(x.slot) + behind;
    assert Assigned(members, fields) == Assigned(members', more);
    if |fields| == 1 {
      SlotAccepted(x.slot, CLOSE_BRACE, rest);
      R.MembersStep(s, members, x.name.value, s', FormValue(x.slot.form), P.Value(s').rest);
    } else {
      SlotAccepted(x.slot, COMMA, FieldsText(more) + rest);
      FieldsAccepted(more, members', rest);
      R.MembersStep(s, members, x.name.value, s', FormValue(x.slot.form), P.Value(s').rest);
    }
  }

  lemma FirstField(fields: seq<Field>, rest: Bytes)
    requires fields != [] && FieldOk(fields[0])
    ensures var s := FieldsText(fields) + rest;
            !P.Starts(SkipWs(s), CLOSE_BRACE) && P.Members(SkipWs(s), []) == P.Members(s, [])
  {
    var s := FieldsText(fields) + rest;
    FieldsSplit(fields, rest);
    NameAccepted(fields[0], if |fields| == 1 then [0x7d] + rest else [0x2c] + (FieldsText(fields[1..]) + rest));
    P.SkipTwice(s);
    R.ValueSkips(s, SkipWs(s));
  }

  /** A text of the grammar is accepted with its meaning, wherever white space stands in it and in front of it, and
      whatever follows it; only a number must not be followed by more of a number. */
  lemma Accepts(ws: Bytes, f: Form, rest: Bytes)
    requires Blank(ws) && FormOk(f) && (f.NumberForm? ==> R.EndsNumber(rest))
    ensures P.Value(ws + (FormText(f) + rest)) == S.Done(FormValue(f), rest)
  {
    FormAccepted(f, rest);
    FormStarts(f);
    Skips(ws, FormText(f) + rest);
    R.ValueSkips(ws + (FormText(f) + rest), FormText(f) + rest);
  }

  // ---------- and no other ----------

  lemma {:induction false} CutBlank(s: Bytes) returns (ws: Bytes)
    ensures Blank(ws) && s == ws + SkipWs(s)
  {
    if s != [] && IsSpace(s[0]) {
      var more := CutBlank(s[1..]);
      ws := [s[0]] + more;
      assert s == [s[0]] + s[1..];
      Regroup([s[0]], more, SkipWs(s));
    } else {
      ws := [];
      assert s == [] + s;
    }
  }

  /** The text t starts with a value of which `f` is the form. */
  ghost predicate Reads(t: Bytes, f: Form, r: S.Result<Json>) {
    && r.Done? && FormOk(f) && t == FormText(f) + r.rest && r.value == FormValue(f)
    && (f.NumberForm? ==> R.EndsNumber(r.rest))
  }

  lemma CutWord(t: Bytes, word: Bytes, v: Json)
    requires |word| >= 1 && P.Starts(t, word[0]) && P.Word(t[1..], word[1..], v).Done?
    ensures P.Word(t[1..], word[1..], v).value == v && t == word + P.Word(t[1..], word[1..], v).rest
  {
    var rest := t[1..][|word| - 1..];
    assert t == [t[0]] + t[1..] && t[1..] == word[1..] + rest && word == [word[0]] + word[1..];
  }

  lemma {:induction false} NumberEndIs(t: Bytes, p: nat)
    requires p <= |t|
    ensures R.EndsNumber(t[P.NumberEnd(t, p)..])
    decreases |t| - p
  {
    if p < |t| && IsNumberByte(t[p]) { NumberEndIs(t, p + 1); }
  }

  lemma CutNumberForm(t: Bytes) returns (f: Form)
    requires P.Number(t).Done? && t != [] && (IsDigit(t[0]) || t[0] == MINUS)
    ensures Reads(t, f, P.Number(t))
  {
    var n := P.NumberEnd(t, 0);
    NumberEndIs(t, 0);
    FirstNumberByte(t);
    var number := CutNumber(t[..n], P.NumberValue(t[..n]).value);
    f := NumberForm(number);
    assert t == t[..n] + t[n..];
  }

  lemma FirstNumberByte(t: Bytes)
    requires t != [] && (IsDigit(t[0]) || t[0] == MINUS)
    ensures P.NumberEnd(t, 0) >= 1 && t[..P.NumberEnd(t, 0)][0] == t[0]
  {
  }

  /** A string up to its closing quote. */
  lemma CutSpelling(t: Bytes) returns (s: Spelling)
    requires P.Starts(t, QUOTE) && S.StringBody(t[1..]).Done?
    ensures SpellingOk(s) && t == [0x22] + s.text + S.StringBody(t[1..]).rest && s.value == S.StringBody(t[1..]).value
  {
    var r := S.StringBody(t[1..]);
    var items, values, text := S.OnlyGrammar(t[1..], r.value, r.rest);
    s := Spelling(items, values, text, r.value);
    assert t == [t[0]] + t[1..];
    Regroup([0x22], text, r.rest);
  }

  lemma {:induction false} CutForm(s: Bytes) returns (f: Form)
    requires P.Value(s).Done?
    ensures Reads(SkipWs(s), f, P.Value(s))
    decreases |s|, 1
  {
    var t := SkipWs(s);
    P.SkipTwice(s);
    R.ValueSkips(s, t);
    R.Dispatch(t);
    if t[0] == NULL_TEXT[0] {
      CutWord(t, NULL_TEXT, Null);
      f := NullForm;
    } else if t[0] == FALSE_TEXT[0] {
      CutWord(t, FALSE_TEXT, Bool(false));
      f := FalseForm;
    } else if t[0] == TRUE_TEXT[0] {
      CutWord(t, TRUE_TEXT, Bool(true));
      f := TrueForm;
    } else if t[0] == QUOTE {
      var x := CutSpelling(t);
      f := StringForm(x);
    } else if t[0] == OPEN_BRACKET {
      f := CutArray(t);
    } else if t[0] == OPEN_BRACE {
      f := CutObject(t);
    } else {
      f := CutNumberForm(t);
    }
  }

  lemma CutArray(t: Bytes) returns (f: Form)
    requires P.Starts(t, OPEN_BRACKET) && P.ArrayBody(t[1..]).Done?
    ensures Reads(t, f, P.ArrayBody(t[1..])) && f.ArrayForm?
    decreases |t|, 0
  {
    var inner := t[1..];
    assert t == [t[0]] + inner;
    var blank := CutBlank(inner);
    if P.Starts(SkipWs(inner), CLOSE_BRACKET) {
      f := ArrayForm(blank, []);
      Closed(blank, SkipWs(inner));
    } else {
      P.SkipTwice(inner);
      ItemsSkip(inner);
      var slots := CutSlots(inner);
      f := ArrayForm([], slots);
    }
    Regroup([0x5b], if f.slots == [] then f.blank + [0x5d] else SlotsText(f.slots), P.ArrayBody(inner).rest);
  }

  lemma Closed(blank: Bytes, t: Bytes)
    requires t != []
    ensures blank + t == blank + [t[0]] + t[1..]
  {
  }

  lemma ItemsSkip(s: Bytes)
    ensures P.Items(SkipWs(s)) == P.Items(s) && P.Members(SkipWs(s), []) == P.Members(s, [])
  {
    P.SkipTwice(s);
    R.ValueSkips(s, SkipWs(s));
  }

  /** A value up to the mark behind it. */
  lemma CutSlot(s: Bytes) returns (x: Slot)
    requires P.Value(s).Done?
    ensures SlotOk(x) && s == SlotText(x) + SkipWs(P.Value(s).rest) && P.Value(s).value == FormValue(x.form)
    decreases |s|, 2
  {
    var before := CutBlank(s);
    var f := CutForm(s);
    var rest := P.Value(s).rest;
    var after := CutBlank(rest);
    x := Slot(before, f, after);
    SlotFront(x, SkipWs(rest));
  }

  lemma {:induction false} CutSlots(s: Bytes) returns (slots: seq<Slot>)
    requires P.Items(s).Done?
    ensures slots != [] && (forall i | 0 <= i < |slots| :: SlotOk(slots[i]))
    ensures s == SlotsText(slots) + P.Items(s).rest && SlotValues(slots) == P.Items(s).value
    decreases |s|, 3
  {
    var v, rest := P.Value(s).value, P.Value(s).rest;
    var t := SkipWs(rest);
    var x := CutSlot(s);
    P.ItemsStep(s, v, rest);
    assert t == [t[0]] + t[1..];
    if P.Starts(t, COMMA) {
      var more := CutSlots(t[1..]);
      slots := [x] + more;
      assert slots[1..] == more;
    } else {
      slots := [x];
      assert SlotValues([x]) == [FormValue(x.form)] + SlotValues([x][1..]) == [FormValue(x.form)];
    }
    SlotsSplit(slots, P.Items(s).rest);
  }

  lemma CutObject(t: Bytes) returns (f: Form)
    requires P.Starts(t, OPEN_BRACE) && P.ObjectBody(t[1..]).Done?
    ensures Reads(t, f, P.ObjectBody(t[1..])) && f.ObjectForm?
    decreases |t|, 0
  {
    var inner := t[1..];
    assert t == [t[0]] + inner;
    var blank := CutBlank(inner);
    if P.Starts(SkipWs(inner), CLOSE_BRACE) {
      f := ObjectForm(blank, []);
      Closed(blank, SkipWs(inner));
    } else {
      ItemsSkip(inner);
      var fields := CutFields(inner, []);
      f := ObjectForm([], fields);
    }
    Regroup([0x7b], if f.fields == [] then f.blank + [0x7d] else FieldsText(f.fields), P.ObjectBody(inner).rest);
  }

  /** A name with its colon. */
  lemma CutName(s: Bytes) returns (before: Bytes, name: Spelling, after: Bytes)
    requires P.Key(s).Done?
    ensures Blank(before) && SpellingOk(name) && Blank(after) && name.value == P.Key(s).value
    ensures s == before + ([0x22] + name.text) + after + [0x3a] + P.Key(s).rest
  {
    var t := SkipWs(s);
    before := CutBlank(s);
    name := CutSpelling(t);
    var rest := S.StringBody(t[1..]).rest;
    after := CutBlank(rest);
    var colon := SkipWs(rest);
    NameText(before, [0x22] + name.text, after, colon);
  }

  lemma NameText(before: Bytes, name: Bytes, after: Bytes, colon: Bytes)
    requires P.Starts(colon, COLON)
    ensures before + (name + (after + colon)) == before + name + after + [0x3a] + colon[1..]
  {
    assert colon == [0x3a] + colon[1..];
  }

  lemma CutField(s: Bytes) returns (x: Field)
    requires P.Key(s).Done? && P.Value(P.Key(s).rest).Done?
    ensures FieldOk(x) && x.name.value == P.Key(s).value && FormValue(x.slot.form) == P.Value(P.Key(s).rest).value
    ensures s == FieldText(x) + SkipWs(P.Value(P.Key(s).rest).rest)
    decreases |s|, 2
  {
    var s' := P.Key(s).rest;
    var before, name, after := CutName(s);
    var slot := CutSlot(s');
    x := Field(before, name, after, slot);
    Regroup(before + ([0x22] + name.text) + after + [0x3a], SlotText(slot), SkipWs(P.Value(s').rest));
  }

  lemma {:induction false} CutFields(s: Bytes, members: seq<Member>) returns (fields: seq<Field>)
    requires P.Members(s, members).Done?
    ensures fields != [] && (forall i | 0 <= i < |fields| :: FieldOk(fields[i]))
    ensures s == FieldsText(fields) + P.Members(s, members).rest
    ensures Assigned(members, fields) == P.Members(s, members).value
    decreases |s|, 3
  {
    var key, s' := P.Key(s).value, P.Key(s).rest;
    var v, rest := P.Value(s').value, P.Value(s').rest;
    var t, members' := SkipWs(rest), P.Put(members, key, v);
    var x := CutField(s);
    R.MembersStep(s, members, key, s', v, rest);
    assert t == [t[0]] + t[1..];
    if P.Starts(t, COMMA) {
      var more := CutFields(t[1..], members');
      fields := [x] + more;
      assert fields[1..] == more;
    } else {
      fields := [x];
      assert Assigned(members, [x]) == Assigned(members', [x][1..]) == members';
    }
    FieldsSplit(fields, P.Members(s, members).rest);
  }

  // ---------- the language of the parser ----------

  /** White space, a form that denotes v, and a rest that is no more of a number. */
  ghost predicate Derives(ws: Bytes, f: Form, s: Bytes, v: Json, rest: Bytes) {
    && Blank(ws) && FormOk(f) && s == ws + (FormText(f) + rest) && FormValue(f) == v
    && (f.NumberForm? ==> R.EndsNumber(rest))
  }

  /** The parser accepts exactly the texts that start with a text of the grammar, takes that and no more, and yields
      what it means. */
  lemma AcceptsExactly(s: Bytes, v: Json, rest: Bytes)
    ensures P.Value(s) == S.Done(v, rest) <==> exists ws, f :: Derives(ws, f, s, v, rest)
  {
    if P.Value(s) == S.Done(v, rest) {
      var ws := CutBlank(s);
      var f := CutForm(s);
      assert Derives(ws, f, s, v, rest);
    }
    forall ws, f | Derives(ws, f, s, v, rest) ensures P.Value(s) == S.Done(v, rest) {
      Accepts(ws, f, rest);
    }
  }

  /** `parse` of a stream: it succeeds if and only if the text starts with a text of the grammar, and yields what that
      means. */
  method ParseStream(text: Bytes) returns (ok: bool, out: Json)
    ensures ok <==> exists ws, f, v, rest :: Derives(ws, f, text, v, rest)
    ensures ok ==> exists ws, f, rest :: Derives(ws, f, text, out, rest)
  {
    ok, out := P.Parse(text);
    if ok {
      AcceptsExactly(text, out, P.Value(text).rest);
    }
    forall ws, f, v, rest | Derives(ws, f, text, v, rest) ensures ok {
      AcceptsExactly(text, v, rest);
    }
  }
}
