/** The durable log of a file topic, on values: what include/connection_file.h:134-206 and 332-366 make of the
  sequence of messages appended to it. FileLog has the classes that do it.

  A message is framed by its length, four bytes with the least significant first. All writes and reads are
  complete in the end. The members of FileLog are proved against the functions here.
 */
module SegmentedLog {
  import Modular

  type Byte = b: int | 0 <= b < 256

  type Bytes = seq<Byte>

  const HEADER: nat := 4
  const WORD32: nat := 0x1_0000_0000
  const MAX_MSG_SIZE: nat := 0x10_0000

  // ---------- frames ----------

  function Le32(n: nat): (b: Bytes)
    requires n < WORD32
    ensures |b| == HEADER
  {
    var n1: int := n / 256;
    var n2: int := n1 / 256;
    var n3: int := n2 / 256;
    [Low(n), Low(n1), Low(n2), Low(n3)]
  }

  function Low(n: nat): (b: Byte)
    ensures b == n % 256
  {
    var r: int := n % 256;
    r
  }

  function FromLe32(b: Bytes): nat
    requires |b| >= HEADER
  {
    var b0: int, b1: int, b2: int, b3: int := b[0], b[1], b[2], b[3];
    b0 + 256 * (b1 + 256 * (b2 + 256 * b3))
  }

  lemma Le32ReadsBack(n: nat, rest: Bytes)
    requires n < WORD32
    ensures FromLe32(Le32(n) + rest) == n
  {
    var n1 := n / 256;
    var n2 := n1 / 256;
    var n3 := n2 / 256;
    assert n3 < 256 && Low(n3) == n3;
    assert n == n1 * 256 + Low(n) && n1 == n2 * 256 + Low(n1) && n2 == n3 * 256 + Low(n2);
  }

  function Frame(msg: Bytes): Bytes
    requires |msg| < WORD32
  {
    Le32(|msg|) + msg
  }

  predicate Fits(msg: Bytes) {
    1 <= |msg| <= MAX_MSG_SIZE - HEADER
  }

  predicate AllFit(msgs: seq<Bytes>) {
    forall i | 0 <= i < |msgs| :: Fits(msgs[i])
  }

  /** The frames of messages, one after the other. */
  function Frames(msgs: seq<Bytes>): Bytes
    requires AllFit(msgs)
  {
    if msgs == [] then [] else Frames(msgs[..|msgs| - 1]) + Frame(msgs[|msgs| - 1])
  }

  lemma FramesPush(msgs: seq<Bytes>, msg: Bytes)
    requires AllFit(msgs) && Fits(msg)
    ensures AllFit(msgs + [msg]) && Frames(msgs + [msg]) == Frames(msgs) + Frame(msg)
  {
    assert (msgs + [msg])[..|msgs|] == msgs;
  }

  function Size(msgs: seq<Bytes>): nat {
    if msgs == [] then 0 else Size(msgs[..|msgs| - 1]) + HEADER + |msgs[|msgs| - 1]|
  }

  lemma SizePush(msgs: seq<Bytes>, msg: Bytes)
    ensures Size(msgs + [msg]) == Size(msgs) + HEADER + |msg|
  {
    assert (msgs + [msg])[..|msgs|] == msgs;
  }

  lemma {:induction false} SizeConcat(a: seq<Bytes>, b: seq<Bytes>)
    ensures Size(a + b) == Size(a) + Size(b)
  {
    if b == [] {
      assert a + b == a;
    } else {
      var b', m := b[..|b| - 1], b[|b| - 1];
      SizeConcat(a, b');
      assert a + b == (a + b') + [m];
      SizePush(a + b', m);
    }
  }

  lemma {:induction false} FramesSize(msgs: seq<Bytes>)
    requires AllFit(msgs)
    ensures |Frames(msgs)| == Size(msgs)
  {
    if msgs != [] { FramesSize(msgs[..|msgs| - 1]); }
  }

  /** The frame of message j is where the sizes of those before it say. */
  lemma {:induction false} FrameInside(msgs: seq<Bytes>, j: nat)
    requires AllFit(msgs) && j < |msgs|
    ensures Size(msgs[..j]) + HEADER + |msgs[j]| <= |Frames(msgs)|
    ensures Frames(msgs)[Size(msgs[..j])..][..HEADER + |msgs[j]|] == Frame(msgs[j])
  {
    var n := |msgs| - 1;
    var init, last := Frames(msgs[..n]), Frame(msgs[n]);
    FramesSize(msgs[..n]);
    if j == n {
      assert (init + last)[|init|..] == last;
    } else {
      FrameInside(msgs[..n], j);
      assert msgs[..n][..j] == msgs[..j];
      var p := Size(msgs[..j]);
      assert (init + last)[p..][..HEADER + |msgs[j]|] == init[p..][..HEADER + |msgs[j]|];
    }
  }

  // ---------- the log ----------

  /** A segment file up to its `offset_`, and its `bytes_written_across_all_files_`. */
  datatype Segment = Segment(data: Bytes, across: nat)

  datatype Log = Log(segments: seq<Segment>, current: nat, maxSize: nat, total: nat, counter: nat)

  predicate Usable(l: Log) {
    l.maxSize > 0 && (l.segments == [] || l.current < |l.segments|)
  }

  /** `total / max_file_size_`, counted out. */
  function SegmentFor(total: nat, maxSize: nat): nat
    requires maxSize > 0
    decreases total
  {
    if total < maxSize then 0 else 1 + SegmentFor(total - maxSize, maxSize)
  }

  lemma {:induction false} SegmentForDivides(total: nat, maxSize: nat)
    requires maxSize > 0
    ensures SegmentFor(total, maxSize) == total / maxSize
  {
    if total < maxSize {
      Modular.Unique(total, maxSize, 0, total);
    } else {
      SegmentForDivides(total - maxSize, maxSize);
      var q, r := (total - maxSize) / maxSize, (total - maxSize) % maxSize;
      assert total == maxSize * (q + 1) + r;
      Modular.Unique(total, maxSize, q + 1, r);
    }
  }

  /** A frame that is no larger than a segment crosses at most one segment boundary. */
  lemma {:induction false} RolloverByOne(total: nat, size: nat, maxSize: nat)
    requires maxSize > 0 && size <= maxSize
    ensures SegmentFor(total, maxSize) <= SegmentFor(total + size, maxSize) <= SegmentFor(total, maxSize) + 1
    decreases total
  {
    if total >= maxSize { RolloverByOne(total - maxSize, size, maxSize); }
  }

  /** `set_current_file`. */
  function SetCurrent(l: Log): Log
    requires Usable(l)
  {
    if l.segments == [] then l.(segments := [Segment([], 0)])
    else if SegmentFor(l.total, l.maxSize) > l.current then
      l.(segments := l.segments[l.current := l.segments[l.current].(across := l.total)] + [Segment([], 0)],
         current := SegmentFor(l.total, l.maxSize))
    else l
  }

  /** Appending a message to the current segment. An empty message leaves its header behind, uncounted. */
  function Append(l: Log, msg: Bytes): Log
    requires l.current < |l.segments| && |msg| < WORD32
  {
    var s := l.segments[l.current];
    if msg == [] then l.(segments := l.segments[l.current := s.(data := s.data + Le32(0))])
    else
      var total := l.total + HEADER + |msg|;
      l.(segments := l.segments[l.current := Segment(s.data + Frame(msg), total)],
         total := total, counter := l.counter + 1)
  }

  /** The segment a global offset falls into, and the offset there: `read` compares with the running totals. */
  function Locate(l: Log, offset: nat, i: nat): (r: (nat, int))
    requires i <= |l.segments|
    ensures i <= r.0 <= |l.segments|
    ensures r.0 < |l.segments| ==> offset < l.segments[r.0].across
    ensures forall k | i <= k < r.0 :: offset >= l.segments[k].across
    ensures r.0 < |l.segments| ==> r.1 == offset - (if r.0 > 0 then l.segments[r.0 - 1].across else 0)
    decreases |l.segments| - i
  {
    if i == |l.segments| then (i, 0)
    else if offset >= l.segments[i].across then Locate(l, offset, i + 1)
    else (i, offset - if i > 0 then l.segments[i - 1].across else 0)
  }

  // ---------- the invariant ----------

  function Flat(groups: seq<seq<Bytes>>): seq<Bytes> {
    if groups == [] then [] else Flat(groups[..|groups| - 1]) + groups[|groups| - 1]
  }

  /** Segment i holds the frames of the messages in groups[i] and nothing else, and its running total counts
      everything up to its end. */
  ghost predicate SegmentOk(l: Log, groups: seq<seq<Bytes>>, i: nat)
    requires i < |l.segments| == |groups|
  {
    var s := l.segments[i];
    && groups[i] != [] && AllFit(groups[i]) && s.data == Frames(groups[i])
    && s.across == |s.data| + (if i > 0 then l.segments[i - 1].across else 0)
  }

  ghost predicate LogOk(l: Log, groups: seq<seq<Bytes>>) {
    && l.maxSize > 0 && |groups| == |l.segments|
    && (if l.segments == [] then l.current == 0 && l.total == 0
        else l.current + 1 == |l.segments| && l.total == l.segments[l.current].across)
    && SegmentFor(l.total, l.maxSize) <= l.current + 1
    && (forall i | 0 <= i < |l.segments| :: SegmentOk(l, groups, i))
    && l.counter == |Flat(groups)|
  }

  lemma EmptyLogOk(maxSize: nat)
    requires maxSize > 0
    ensures LogOk(Log([], 0, maxSize, 0, 0), [])
  {
  }

  /** How the messages are grouped after one more. */
  function Grouped(l: Log, groups: seq<seq<Bytes>>, msg: Bytes): seq<seq<Bytes>>
    requires |groups| == |l.segments| && (l.segments == [] || l.current + 1 == |groups|) && l.maxSize > 0
  {
    if l.segments == [] || SegmentFor(l.total, l.maxSize) > l.current then groups + [[msg]]
    else groups[l.current := groups[l.current] + [msg]]
  }

  lemma FlatPush(groups: seq<seq<Bytes>>, group: seq<Bytes>)
    ensures Flat(groups + [group]) == Flat(groups) + group
  {
    assert (groups + [group])[..|groups|] == groups;
  }

  lemma FlatGrow(groups: seq<seq<Bytes>>, msg: Bytes)
    requires groups != []
    ensures var n := |groups| - 1; Flat(groups[n := groups[n] + [msg]]) == Flat(groups) + [msg]
  {
    var n := |groups| - 1;
    var before, last := groups[..n], groups[n];
    assert groups == before + [last] && groups[n := last + [msg]] == before + [last + [msg]];
    FlatPush(before, last);
    FlatPush(before, last + [msg]);
    assert Flat(before) + (last + [msg]) == Flat(before) + last + [msg];
  }

  lemma GroupedFlat(l: Log, groups: seq<seq<Bytes>>, msg: Bytes)
    requires |groups| == |l.segments| && (l.segments == [] || l.current + 1 == |groups|) && l.maxSize > 0
    ensures Flat(Grouped(l, groups, msg)) == Flat(groups) + [msg]
  {
    if l.segments == [] || SegmentFor(l.total, l.maxSize) > l.current {
      assert Grouped(l, groups, msg) == groups + [[msg]];
      FlatPush(groups, [msg]);
    } else {
      var n := |groups| - 1;
      assert Grouped(l, groups, msg) == groups[n := groups[n] + [msg]];
      FlatGrow(groups, msg);
    }
  }

  lemma SetCurrentAdvances(l: Log, groups: seq<seq<Bytes>>)
    requires LogOk(l, groups)
    ensures var l' := SetCurrent(l);
            && l'.current + 1 == |l'.segments| && l'.current <= l.current + 1 && l'.total == l.total
            && SegmentFor(l'.total, l'.maxSize) <= l'.current
            && |l.segments| <= |l'.segments| <= |l.segments| + 1
            && (forall i | 0 <= i < |l.segments| :: l'.segments[i] == l.segments[i])
            && (|l'.segments| > |l.segments| ==> l'.segments[l'.current] == Segment([], 0))
  {
  }

  /** Every append of a message that fits, in a segment that is large enough, keeps the log well formed and
      extends it by exactly that message. */
  lemma AppendKeeps(l: Log, groups: seq<seq<Bytes>>, msg: Bytes)
    requires LogOk(l, groups) && Fits(msg) && HEADER + |msg| <= l.maxSize
    ensures SetCurrent(l).current < |SetCurrent(l).segments|
    ensures LogOk(Append(SetCurrent(l), msg), Grouped(l, groups, msg))
    ensures Flat(Grouped(l, groups, msg)) == Flat(groups) + [msg]
  {
    var m := SetCurrent(l);
    SetCurrentAdvances(l, groups);
    GroupedFlat(l, groups, msg);
    var l', g := Append(m, msg), Grouped(l, groups, msg);
    RolloverByOne(l.total, HEADER + |msg|, l.maxSize);
    forall i | 0 <= i < |l'.segments| ensures SegmentOk(l', g, i) {
      if i == m.current { AppendedSegment(l, groups, msg); } else { OtherSegment(l, groups, msg, i); }
    }
  }

  lemma AppendedSegment(l: Log, groups: seq<seq<Bytes>>, msg: Bytes)
    requires LogOk(l, groups) && Fits(msg) && SetCurrent(l).current + 1 == |SetCurrent(l).segments|
    ensures var l' := Append(SetCurrent(l), msg);
            l'.current < |l'.segments| == |Grouped(l, groups, msg)| && SegmentOk(l', Grouped(l, groups, msg), l'.current)
  {
    var i := SetCurrent(l).current;
    if l.segments != [] { assert SegmentOk(l, groups, l.current); }
    if l.segments == [] || SegmentFor(l.total, l.maxSize) > l.current {
      OneFrame(msg);
    } else {
      FramesPush(groups[i], msg);
    }
  }

  lemma OneFrame(msg: Bytes)
    requires Fits(msg)
    ensures AllFit([msg]) && Frames([msg]) == Frame(msg)
  {
    FramesPush([], msg);
    assert [] + [msg] == [msg] && Frames([]) + Frame(msg) == Frame(msg);
  }

  lemma OtherSegment(l: Log, groups: seq<seq<Bytes>>, msg: Bytes, i: nat)
    requires LogOk(l, groups) && Fits(msg) && i < SetCurrent(l).current
    requires SetCurrent(l).current + 1 == |SetCurrent(l).segments|
    ensures var l' := Append(SetCurrent(l), msg);
            i < |l'.segments| == |Grouped(l, groups, msg)| && SegmentOk(l', Grouped(l, groups, msg), i)
  {
    assert SegmentOk(l, groups, i);
  }

  // ---------- reading ----------

  /** Message k is message j of some group i. */
  lemma {:induction false} Place(groups: seq<seq<Bytes>>, k: nat) returns (i: nat, j: nat)
    requires k < |Flat(groups)|
    ensures i < |groups| && j < |groups[i]| && Flat(groups)[k] == groups[i][j]
    ensures Flat(groups)[..k] == Flat(groups[..i]) + groups[i][..j]
  {
    var n := |groups| - 1;
    var before, last := Flat(groups[..n]), groups[n];
    if k < |before| {
      i, j := Place(groups[..n], k);
      assert groups[..n][..i] == groups[..i];
      assert (before + last)[..k] == before[..k];
    } else {
      i, j := n, k - |before|;
      assert (before + last)[..k] == before + last[..j];
    }
  }

  /** What all segments before segment i hold together. */
  function Before(l: Log, i: nat): nat
    requires i <= |l.segments|
  {
    if i > 0 then l.segments[i - 1].across else 0
  }

  lemma {:induction false} BeforeIsSize(l: Log, groups: seq<seq<Bytes>>, i: nat)
    requires LogOk(l, groups) && i <= |l.segments|
    ensures Before(l, i) == Size(Flat(groups[..i]))
  {
    if i > 0 {
      BeforeIsSize(l, groups, i - 1);
      assert SegmentOk(l, groups, i - 1);
      assert groups[..i][..i - 1] == groups[..i - 1];
      SizeConcat(Flat(groups[..i - 1]), groups[i - 1]);
      FramesSize(groups[i - 1]);
    }
  }

  lemma {:induction false} BeforeMonotone(l: Log, groups: seq<seq<Bytes>>, i: nat, k: nat)
    requires LogOk(l, groups) && i <= k <= |l.segments|
    ensures Before(l, i) <= Before(l, k)
  {
    if i < k {
      BeforeMonotone(l, groups, i, k - 1);
      assert SegmentOk(l, groups, k - 1);
    }
  }

  /** The total counts every message. */
  lemma TotalIsSize(l: Log, groups: seq<seq<Bytes>>)
    requires LogOk(l, groups)
    ensures l.total == Size(Flat(groups))
  {
    BeforeIsSize(l, groups, |groups|);
    assert groups[..|groups|] == groups;
  }

  /** An offset inside segment i is found there. */
  lemma LocateFinds(l: Log, groups: seq<seq<Bytes>>, i: nat, offset: nat)
    requires LogOk(l, groups) && i < |l.segments| && Before(l, i) <= offset < l.segments[i].across
    ensures Locate(l, offset, 0) == (i, offset - Before(l, i))
  {
    var r := Locate(l, offset, 0);
    if r.0 < i { BeforeMonotone(l, groups, r.0 + 1, i); }
  }

  /** What is stored at a position. */
  ghost predicate HoldsFrame(data: Bytes, offset: int, msg: Bytes) {
    && Fits(msg) && 0 <= offset && offset + HEADER + |msg| <= |data|
    && data[offset..][..HEADER + |msg|] == Frame(msg)
  }

  /** Reading at the total size of the first k messages finds message k, whichever segment that is in. */
  lemma ReadFinds(l: Log, groups: seq<seq<Bytes>>, k: nat)
    requires LogOk(l, groups) && k < |Flat(groups)|
    ensures var r := Locate(l, Size(Flat(groups)[..k]), 0);
            r.0 < |l.segments| && HoldsFrame(l.segments[r.0].data, r.1, Flat(groups)[k])
  {
    var i, j := Place(groups, k);
    assert SegmentOk(l, groups, i);
    var g := groups[i];
    SizeConcat(Flat(groups[..i]), g[..j]);
    BeforeIsSize(l, groups, i);
    FrameInside(g, j);
    assert Fits(g[j]);
    LocateFinds(l, groups, i, Size(Flat(groups)[..k]));
  }

  /** Reading at the total finds nothing. */
  lemma ReadEnds(l: Log, groups: seq<seq<Bytes>>)
    requires LogOk(l, groups)
    ensures Locate(l, l.total, 0).0 == |l.segments|
  {
    var r := Locate(l, l.total, 0);
    if r.0 < |l.segments| { BeforeMonotone(l, groups, r.0 + 1, |l.segments|); }
  }

  // ---------- which segment a message is in ----------

  /** Every message is in the segment with the number of its global offset divided by the segment size. */
  ghost predicate Placed(l: Log, groups: seq<seq<Bytes>>)
    requires |groups| == |l.segments| && l.maxSize > 0
  {
    forall i, j | 0 <= i < |groups| && 0 <= j < |groups[i]| ::
      SegmentFor(Before(l, i) + Size(groups[i][..j]), l.maxSize) == i
  }

  lemma {:induction false} SegmentForMonotone(a: nat, b: nat, maxSize: nat)
    requires maxSize > 0 && a <= b
    ensures SegmentFor(a, maxSize) <= SegmentFor(b, maxSize)
    decreases b
  {
    if a >= maxSize { SegmentForMonotone(a - maxSize, b - maxSize, maxSize); }
  }

  /** So the current segment is never ahead of the total. */
  lemma NotAhead(l: Log, groups: seq<seq<Bytes>>)
    requires LogOk(l, groups) && Placed(l, groups) && l.segments != []
    ensures l.current <= SegmentFor(l.total, l.maxSize)
  {
    var i := l.current;
    assert SegmentOk(l, groups, i);
    assert groups[i][..0] == [];
    assert SegmentFor(Before(l, i) + Size(groups[i][..0]), l.maxSize) == i;
    SegmentForMonotone(Before(l, i), l.total, l.maxSize);
  }

  /** An append puts its message into the segment of its offset: it rolls over when that one is ahead, and not before. */
  lemma AppendPlaces(l: Log, groups: seq<seq<Bytes>>, msg: Bytes)
    requires LogOk(l, groups) && Placed(l, groups) && Fits(msg) && HEADER + |msg| <= l.maxSize
    ensures SetCurrent(l).current == SegmentFor(l.total, l.maxSize) < |SetCurrent(l).segments|
    ensures var l', g := Append(SetCurrent(l), msg), Grouped(l, groups, msg);
            |g| == |l'.segments| && l'.maxSize == l.maxSize && Placed(l', g)
  {
    Advances(l, groups);
    var l', g := Append(SetCurrent(l), msg), Grouped(l, groups, msg);
    forall i, j | 0 <= i < |g| && 0 <= j < |g[i]|
      ensures SegmentFor(Before(l', i) + Size(g[i][..j]), l.maxSize) == i
    {
      PlaceOf(l, groups, msg, i, j);
    }
  }

  lemma Advances(l: Log, groups: seq<seq<Bytes>>)
    requires LogOk(l, groups) && Placed(l, groups)
    ensures var l' := SetCurrent(l);
            l'.current == SegmentFor(l.total, l.maxSize) && l'.current + 1 == |l'.segments| && l'.maxSize == l.maxSize
  {
    SetCurrentAdvances(l, groups);
    if l.segments != [] { NotAhead(l, groups); }
  }

  lemma PlaceOf(l: Log, groups: seq<seq<Bytes>>, msg: Bytes, i: nat, j: nat)
    requires LogOk(l, groups) && Placed(l, groups) && Fits(msg)
    requires SetCurrent(l).current == SegmentFor(l.total, l.maxSize) && SetCurrent(l).current + 1 == |SetCurrent(l).segments|
    requires i < |Grouped(l, groups, msg)| && j < |Grouped(l, groups, msg)[i]|
    ensures var l', g := Append(SetCurrent(l), msg), Grouped(l, groups, msg);
            i <= |l'.segments| && SegmentFor(Before(l', i) + Size(g[i][..j]), l.maxSize) == i
  {
    if i < |groups| && j < |groups[i]| {
      OldPlace(l, groups, msg, i, j);
      assert SegmentFor(Before(l, i) + Size(groups[i][..j]), l.maxSize) == i;
    } else {
      NewPlace(l, groups, msg, i, j);
    }
  }

  /** The messages that are there stay where they are. */
  lemma OldPlace(l: Log, groups: seq<seq<Bytes>>, msg: Bytes, i: nat, j: nat)
    requires LogOk(l, groups) && SetCurrent(l).current + 1 == |SetCurrent(l).segments|
    requires |msg| < WORD32 && i < |groups| && j < |groups[i]|
    ensures var l', g := Append(SetCurrent(l), msg), Grouped(l, groups, msg);
            i < |g| && i <= |l'.segments| && j < |g[i]| && Before(l', i) == Before(l, i) && g[i][..j] == groups[i][..j]
  {
    assert i == l.current ==> (groups[i] + [msg])[..j] == groups[i][..j];
    SetCurrentAdvances(l, groups);
  }

  /** The place of the new message is the total. */
  lemma NewPlace(l: Log, groups: seq<seq<Bytes>>, msg: Bytes, i: nat, j: nat)
    requires LogOk(l, groups) && Fits(msg) && SetCurrent(l).current + 1 == |SetCurrent(l).segments|
    requires SetCurrent(l).current == SegmentFor(l.total, l.maxSize)
    requires var g := Grouped(l, groups, msg); i < |g| && j < |g[i]| && (i >= |groups| || j >= |groups[i]|)
    ensures var l', g := Append(SetCurrent(l), msg), Grouped(l, groups, msg);
            && i <= |l'.segments| && Before(l', i) + Size(g[i][..j]) == l.total && i == SegmentFor(l.total, l.maxSize)
  {
    var g := Grouped(l, groups, msg);
    if i < |groups| {
      assert i == l.current && j == |groups[i]| && g[i][..j] == groups[i];
      assert SegmentOk(l, groups, i);
      FramesSize(groups[i]);
    } else {
      assert j == 0 && g[i][..0] == [];
    }
  }

  /** Message k is read from the segment with the number of its offset divided by the segment size. */
  lemma ReadsFromItsSegment(l: Log, groups: seq<seq<Bytes>>, k: nat)
    requires LogOk(l, groups) && Placed(l, groups) && k < |Flat(groups)|
    ensures var offset := Size(Flat(groups)[..k]); Locate(l, offset, 0).0 == offset / l.maxSize
  {
    var i, j := Place(groups, k);
    var g := groups[i];
    assert SegmentOk(l, groups, i);
    SizeConcat(Flat(groups[..i]), g[..j]);
    BeforeIsSize(l, groups, i);
    FrameInside(g, j);
    LocateFinds(l, groups, i, Size(Flat(groups)[..k]));
    SegmentForDivides(Before(l, i) + Size(g[..j]), l.maxSize);
  }

  // ---------- when it goes wrong ----------

  /** The running total of the current segment accounts for its bytes after an append if and only if the
      message was not empty: an empty one leaves four bytes that nothing counts. */
  lemma AccountedIffNotEmpty(l: Log, groups: seq<seq<Bytes>>, msg: Bytes)
    requires LogOk(l, groups) && |msg| < WORD32 && SegmentFor(l.total, l.maxSize) <= l.current + 1
    ensures SetCurrent(l).current < |SetCurrent(l).segments|
    ensures var l' := Append(SetCurrent(l), msg);
            l'.segments[l'.current].across == |l'.segments[l'.current].data| + Before(l', l'.current) <==> msg != []
  {
    SetCurrentAdvances(l, groups);
    if l.segments != [] { assert SegmentOk(l, groups, l.current); }
  }

  /** The current segment exists after `set_current_file` if and only if the total is at most one segment
      ahead. */
  lemma CurrentExistsIff(l: Log)
    requires Usable(l) && l.segments != [] && l.current + 1 == |l.segments|
    ensures SetCurrent(l).current < |SetCurrent(l).segments| <==> SegmentFor(l.total, l.maxSize) <= l.current + 1
  {
  }

  /** A frame longer than a segment can skip one: with segments of 10 bytes, the append after a first message of
      26 bytes looks for a segment that does not exist. */
  lemma LongFrameSkips(msg: Bytes)
    requires |msg| == 26
    ensures var l := Append(SetCurrent(Log([], 0, 10, 0, 0)), msg);
            Usable(l) && SetCurrent(l).current >= |SetCurrent(l).segments|
  {
    assert SegmentFor(30, 10) == 3;
  }
}
