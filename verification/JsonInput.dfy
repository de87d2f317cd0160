/** The cursor of include/thirdparty/picojson.h:524-584, with one byte of pushback. */
module JsonInput {
  import opened JsonText

  predicate IsSpace(b: int) {
    b == SPACE || b == TAB || b == NEWLINE || b == RETURN
  }

  function SkipWs(s: Bytes): (r: Bytes)
    ensures |r| <= |s| && (r != [] ==> !IsSpace(r[0]))
  {
    if s != [] && IsSpace(s[0]) then SkipWs(s[1..]) else s
  }

  function Newlines(s: Bytes): nat {
    if s == [] then 0 else Newlines(s[..|s| - 1]) + (if s[|s| - 1] == NEWLINE then 1 else 0)
  }

  class Input {
    const data: Bytes
    var cur: nat
    var lastCh: int
    var ungot: bool
    var line: nat

    /** `line` counts the newlines before the byte read last. */
    ghost predicate Valid()
      reads this
    {
      && cur <= |data| && lastCh >= -1
      && (lastCh >= 0 ==> cur > 0 && data[cur - 1] == lastCh)
      && (lastCh == -1 ==> cur == 0 || cur == |data|)
      && (ungot ==> lastCh >= 0)
      && line == 1 + Newlines(data[..if cur > 0 then cur - 1 else 0])
    }

    /** How much has been read. */
    ghost function Pos(): (p: nat)
      requires Valid()
      reads this
      ensures p <= |data|
    {
      if ungot then cur - 1 else cur
    }

    /** How much had been read before the last byte. */
    ghost function Back(): (p: nat)
      requires Valid()
      reads this
      ensures p <= |data|
    {
      if lastCh == -1 then Pos() else cur - 1
    }

    /** What is still to be read. */
    ghost function Rest(): Bytes
      requires Valid()
      reads this
    {
      data[Pos()..]
    }

    constructor (text: Bytes)
      ensures Valid() && Pos() == 0 && data == text
    {
      data := text;
      cur := 0;
      lastCh := -1;
      ungot := false;
      line := 1;
    }

    /** The next byte, or -1 at the end. */
    method Getc() returns (ch: int)
      requires Valid()
      modifies this
      ensures Valid() && !ungot && lastCh == ch && Back() == old(Pos())
      ensures if old(Pos()) == |data| then ch == -1 && Pos() == old(Pos())
              else ch == data[old(Pos())] && Pos() == old(Pos()) + 1
    {
      if ungot {
        ungot := false;
        return lastCh;
      }
      if cur == |data| {
        lastCh := -1;
        return -1;
      }
      assert cur > 0 ==> data[..cur][..cur - 1] == data[..cur - 1];
      if lastCh == NEWLINE {
        line := line + 1;
      }
      lastCh := data[cur];
      cur := cur + 1;
      return lastCh;
    }

    /** Gives the byte read last back. The source asserts that it does not do so twice. */
    method Ungetc()
      requires Valid() && (lastCh != -1 ==> !ungot)
      modifies this
      ensures Valid() && Pos() == old(Back())
    {
      if lastCh != -1 {
        ungot := true;
      }
    }

    method SkipSpaces()
      requires Valid()
      modifies this
      ensures Valid() && Rest() == SkipWs(old(Rest()))
    {
      ghost var goal := SkipWs(Rest());
      while true
        invariant Valid() && SkipWs(data[Pos()..]) == goal
        decreases |data| - Pos()
      {
        SkipStep(data, Pos());
        var ch := Getc();
        if !IsSpace(ch) {
          Ungetc();
          break;
        }
      }
    }

    /** Skips white space and then one byte, if it is the expected one. */
    method Expect(expected: Byte) returns (ok: bool)
      requires Valid()
      modifies this
      ensures Valid()
      ensures ok <==> SkipWs(old(Rest())) != [] && SkipWs(old(Rest()))[0] == expected
      ensures Rest() == if ok then SkipWs(old(Rest()))[1..] else SkipWs(old(Rest()))
    {
      SkipSpaces();
      DropMore(data, Pos(), if Pos() < |data| then 1 else 0);
      var ch := Getc();
      if ch != expected {
        Ungetc();
        return false;
      }
      return true;
    }

    /** Reads the pattern, or stops in front of the first byte that differs from it. */
    method Match(pattern: Bytes) returns (ok: bool)
      requires Valid()
      modifies this
      ensures Valid()
      ensures ok <==> pattern <= old(Rest())
      ensures ok ==> Rest() == old(Rest())[|pattern|..]
    {
      ghost var start := Pos();
      for i := 0 to |pattern|
        invariant Valid() && Pos() == start + i
        invariant forall j | 0 <= j < i :: data[start + j] == pattern[j]
      {
        var ch := Getc();
        if ch != pattern[i] {
          NotPrefix(pattern, data, start, i);
          Ungetc();
          return false;
        }
      }
      DropMore(data, start, |pattern|);
      return true;
    }
  }

  lemma DropMore(s: Bytes, a: nat, b: nat)
    requires a + b <= |s|
    ensures s[a..][b..] == s[a + b..]
  {
  }

  lemma SkipStep(s: Bytes, p: nat)
    requires p <= |s|
    ensures if p < |s| && IsSpace(s[p]) then SkipWs(s[p..]) == SkipWs(s[p + 1..]) else SkipWs(s[p..]) == s[p..]
  {
    if p < |s| { DropMore(s, p, 1); }
  }

  lemma NotPrefix(pattern: Bytes, s: Bytes, p: nat, i: nat)
    requires p + i <= |s| && i < |pattern| && (p + i == |s| || s[p + i] != pattern[i])
    ensures !(pattern <= s[p..])
  {
    if p + i < |s| { assert s[p..][i] == s[p + i]; }
  }
}
