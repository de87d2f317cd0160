/** The classes that keep the durable log: include/file_details.h (one segment file) and
  include/connection_file.h (the segments of a topic), with the read cursor of include/broker_storage.h:154-188.

  A file is its bytes. `pwrite` may write less than it was asked to; `pread` reads all there is to read, which at the
  end of a file is less than it was asked for.
 */
module FileLog {
  import opened SegmentedLog

  /** The bytes of a file after `pwrite` of data at an offset that is not past its end. */
  function Overwritten(file: Bytes, offset: nat, data: Bytes): Bytes
    requires offset <= |file|
  {
    file[..offset] + data + (if offset + |data| <= |file| then file[offset + |data|..] else [])
  }

  lemma OverwrittenStarts(file: Bytes, offset: nat, data: Bytes)
    requires offset <= |file|
    ensures offset + |data| <= |Overwritten(file, offset, data)|
    ensures Overwritten(file, offset, data)[..offset + |data|] == file[..offset] + data
  {
    assert (file[..offset] + data)[..offset + |data|] == file[..offset] + data;
  }

  class FileDetails {
    /** The file behind `fd_`; it may hold old bytes beyond `offset`. */
    var file: Bytes
    var offset: nat
    var across: nat
    var writeCounter: nat

    ghost predicate Valid()
      reads this
    {
      offset <= |file|
    }

    /** What was written. */
    ghost function Written(): Bytes
      requires Valid()
      reads this
    {
      file[..offset]
    }

    /** `create_file` on a path where a file may exist; it is not truncated. */
    constructor (existing: Bytes)
      ensures Valid() && Written() == [] && across == 0 && offset == 0
    {
      file := existing;
      offset := 0;
      across := 0;
      writeCounter := 0;
      new;
    }

    /** `pwrite` at `offset_`, which may be short, and `offset_ += result`. */
    method Pwrite(data: Bytes) returns (result: nat)
      requires Valid() && data != []
      modifies `file, `offset
      ensures Valid() && 1 <= result <= |data|
      ensures Written() == old(Written()) + data[..result]
    {
      var n: nat :| 1 <= n <= |data|;
      result := n;
      OverwrittenStarts(file, offset, data[..result]);
      file := Overwritten(file, offset, data[..result]);
      offset := offset + result;
    }

    /** The loop of `write_buffer` and of `write_length`. */
    method WriteAll(data: Bytes) returns (written: nat)
      requires Valid()
      modifies `file, `offset
      ensures Valid() && written == |data| && Written() == old(Written()) + data
    {
      var remaining := |data|;
      written := 0;
      while remaining > 0
        invariant Valid() && remaining >= 0 && written + remaining == |data|
        invariant Written() == old(Written()) + data[..written]
      {
        var result := Pwrite(data[written..]);
        assert data[..written] + data[written..][..result] == data[..written + result];
        remaining := remaining - result;
        written := written + result;
      }
      assert data[..|data|] == data;
    }

    /** `write_msg` with the length and without the offset. The payload of an empty message counts as an error,
        after its header was written. */
    method WriteMsg(msg: Bytes) returns (result: nat)
      requires Valid() && |msg| < WORD32
      modifies `file, `offset, `writeCounter
      ensures Valid()
      ensures msg == [] ==> result == 0 && Written() == old(Written()) + Le32(0)
      ensures msg != [] ==> result == HEADER + |msg| && Written() == old(Written()) + Frame(msg)
    {
      ghost var before := Written();
      var lengthWritten := WriteAll(Le32(|msg|));
      var writtenBuffer := WriteAll(msg);
      assert before + Le32(|msg|) + msg == before + Frame(msg);
      if writtenBuffer == 0 {
        assert Le32(0) + msg == Le32(0);
        return 0;
      }
      writeCounter := writeCounter + 1;
      return lengthWritten + writtenBuffer;
    }

    /** `pread` of n bytes at an offset into the buffer from position at on: what there is, or nothing. */
    method Pread(buffer: array<Byte>, at: nat, n: nat, from: int) returns (result: int)
      requires at <= buffer.Length && n > 0 && (Inside(file, from) ==> at + n <= buffer.Length)
      modifies buffer
      ensures if !Inside(file, from) then result < 1 && buffer[..] == old(buffer[..])
              else result == Min(n, |file| - from) && Puts(old(buffer[..]), buffer[..], at, file[from..][..result])
    {
      if !Inside(file, from) {
        return 0;
      }
      result := Min(n, |file| - from);
      for i := 0 to result
        invariant forall k | 0 <= k < buffer.Length && !(at <= k < at + i) :: buffer[k] == old(buffer[k])
        invariant forall k | at <= k < at + i :: buffer[k] == file[from + (k - at)]
      {
        buffer[at + i] := file[from + i];
      }
    }

    /** The loop of `read_buffer_length` and of `read_buffer`. It does not advance the file offset, so behind a short
        read the same bytes come again. */
    method ReadAll(buffer: array<Byte>, at: nat, length: nat, from: int) returns (bytesRead: int)
      requires at <= buffer.Length && length > 0 && (Inside(file, from) ==> at + length <= buffer.Length)
      modifies buffer
      ensures if !Inside(file, from) then bytesRead == -1 && buffer[..] == old(buffer[..])
              else bytesRead == length && Puts(old(buffer[..]), buffer[..], at, Repeated(file[from..], length))
    {
      var bytesToRead := length;
      bytesRead := 0;
      ghost var before, got: Bytes := buffer[..], [];
      while bytesToRead > 0
        invariant 0 <= bytesToRead && bytesRead == |got| && bytesRead + bytesToRead == length
        invariant Puts(before, buffer[..], at, got)
        invariant Inside(file, from) ==> got + Repeated(file[from..], bytesToRead) == Repeated(file[from..], length)
        invariant !Inside(file, from) ==> bytesRead == 0 && buffer[..] == before
      {
        ghost var middle := buffer[..];
        var result := Pread(buffer, at + bytesRead, bytesToRead, from);
        if result < 1 {
          return -1;
        }
        OneRead(before, middle, buffer[..], at, got, file[from..], length, bytesToRead, result);
        got := got + file[from..][..result];
        bytesToRead := bytesToRead - result;
        bytesRead := bytesRead + result;
      }
    }

    /** `read_msg`. A length of 0 is no message, a length above the size of the buffer is returned as it is, and so is
        that of a message of which nothing is left in the file. */
    method ReadMsg(buffer: array<Byte>, from: int) returns (result: int)
      requires buffer.Length == MAX_MSG_SIZE && HasPlace(file, from)
      modifies buffer
      ensures result == MsgAt(file, from)
      ensures ReadsMsg(file, from) ==> result <= buffer.Length && buffer[..result] == MsgBytes(file, from)
    {
      var bytesRead := ReadAll(buffer, 0, HEADER, from);
      if bytesRead < 0 {
        return -1;
      }
      ghost var header := buffer[..HEADER];
      assert header == Repeated(file[from..], HEADER);
      var size := FromLe32(buffer[..HEADER]);
      if size == 0 || size > buffer.Length {
        return size;
      }
      var length := ReadAll(buffer, HEADER, size, from + HEADER);
      if length > 0 {
        assert buffer[..HEADER + size] == header + Repeated(file[from + HEADER..], size);
        return length + HEADER;
      }
      return size;
    }
  }

  function Min(a: int, b: int): int {
    if a < b then a else b
  }

  predicate Inside(file: Bytes, from: int) {
    0 <= from < |file|
  }

  /** The first n bytes of s again and again. */
  function Repeated(s: Bytes, n: nat): (r: Bytes)
    requires s != []
    ensures |r| == n
  {
    if n <= |s| then s[..n] else s + Repeated(s, n - |s|)
  }

  lemma RepeatedOn(s: Bytes, got: Bytes, n: nat)
    requires s != [] && n > 0
    ensures var r := Min(n, |s|); got + Repeated(s, n) == got + s[..r] + Repeated(s, n - r)
  {
    var r := Min(n, |s|);
    assert Repeated(s, n) == s[..r] + Repeated(s, n - r);
    assert got + (s[..r] + Repeated(s, n - r)) == got + s[..r] + Repeated(s, n - r);
  }

  /** b is a with x put at a position, and anything behind that. */
  ghost predicate Puts(a: Bytes, b: Bytes, at: nat, x: Bytes) {
    && |b| == |a| && at + |x| <= |a|
    && (forall k | 0 <= k < at :: b[k] == a[k]) && (forall k | 0 <= k < |x| :: b[at + k] == x[k])
  }

  lemma PutsOn(a: Bytes, b: Bytes, c: Bytes, at: nat, x: Bytes, y: Bytes)
    requires Puts(a, b, at, x) && Puts(b, c, at + |x|, y)
    ensures Puts(a, c, at, x + y)
  {
    forall k | 0 <= k < |x + y| ensures c[at + k] == (x + y)[k] {
      if k >= |x| { assert c[at + |x| + (k - |x|)] == y[k - |x|]; }
    }
  }

  /** One more read of a loop that has got `got` so far and n bytes to go. */
  lemma OneRead(a: Bytes, b: Bytes, c: Bytes, at: nat, got: Bytes, s: Bytes, length: nat, n: nat, result: nat)
    requires s != [] && n > 0 && result == Min(n, |s|) && got + Repeated(s, n) == Repeated(s, length)
    requires Puts(a, b, at, got) && Puts(b, c, at + |got|, s[..result])
    ensures Puts(a, c, at, got + s[..result])
    ensures got + s[..result] + Repeated(s, n - result) == Repeated(s, length)
  {
    RepeatedOn(s, got, n);
    PutsOn(a, b, c, at, got, s[..result]);
  }

  /** The number read as the length of a message at an offset. */
  function LengthAt(file: Bytes, from: int): nat
    requires Inside(file, from)
  {
    FromLe32(Repeated(file[from..], HEADER))
  }

  /** A length that is read is followed by that many bytes, which have a place in the buffer or are not read. */
  predicate HasPlace(file: Bytes, from: int) {
    Inside(file, from) && Inside(file, from + HEADER) ==>
      HEADER + LengthAt(file, from) <= MAX_MSG_SIZE || LengthAt(file, from) > MAX_MSG_SIZE
  }

  /** A length and bytes are read. */
  predicate ReadsMsg(file: Bytes, from: int) {
    Inside(file, from) && Inside(file, from + HEADER) && 0 < LengthAt(file, from) <= MAX_MSG_SIZE
  }

  function MsgBytes(file: Bytes, from: int): Bytes
    requires ReadsMsg(file, from)
  {
    Repeated(file[from..], HEADER) + Repeated(file[from + HEADER..], LengthAt(file, from))
  }

  /** The result of `read_msg`. */
  function MsgAt(file: Bytes, from: int): int {
    if !Inside(file, from) then -1
    else if ReadsMsg(file, from) then HEADER + LengthAt(file, from)
    else LengthAt(file, from)
  }

  /** A positive result is the size of a frame if and only if a message was read: otherwise it is the length alone. */
  lemma FrameSizeIffRead(file: Bytes, from: int)
    requires MsgAt(file, from) > 0
    ensures MsgAt(file, from) == HEADER + LengthAt(file, from) <==> ReadsMsg(file, from)
  {
  }

  /** Where the payload is missing the result is positive all the same. */
  lemma MissingPayload(n: nat)
    requires 0 < n < WORD32
    ensures MsgAt(Le32(n), 0) == n && !ReadsMsg(Le32(n), 0)
  {
    Le32ReadsBack(n, []);
    assert Le32(n)[0..] == Le32(n) && Le32(n)[..HEADER] == Le32(n) + [];
  }

  /** At a frame, the message is read. */
  lemma ReadsFrame(file: Bytes, offset: nat, from: int, msg: Bytes)
    requires offset <= |file| && HoldsFrame(file[..offset], from, msg)
    ensures HasPlace(file, from) && ReadsMsg(file, from)
    ensures MsgAt(file, from) == HEADER + |msg| && MsgBytes(file, from) == Frame(msg)
  {
    FrameOnFile(file, offset, from, msg);
    assert file[from..][..HEADER] == file[from..from + HEADER];
    assert file[from + HEADER..][..|msg|] == file[from + HEADER..from + HEADER + |msg|];
  }

  /** A frame in the part of a file that was written, in pieces. */
  lemma FrameOnFile(file: Bytes, offset: nat, from: nat, msg: Bytes)
    requires offset <= |file| && HoldsFrame(file[..offset], from, msg)
    ensures from + HEADER + |msg| <= |file|
    ensures file[from..from + HEADER] == Le32(|msg|) && FromLe32(Le32(|msg|)) == |msg|
    ensures file[from + HEADER..from + HEADER + |msg|] == msg
  {
    var n := HEADER + |msg|;
    var frame := file[from..from + n];
    assert file[..offset][from..][..n] == frame;
    assert frame[..HEADER] == file[from..from + HEADER] && frame[HEADER..] == file[from + HEADER..from + HEADER + |msg|];
    assert Frame(msg)[..HEADER] == Le32(|msg|) && Frame(msg)[HEADER..] == msg;
    Le32ReadsBack(|msg|, []);
    assert Le32(|msg|) + [] == Le32(|msg|);
  }

  /** No segment reaches beyond the offset. */
  ghost predicate AtEnd(l: Log, offset: nat) {
    Locate(l, offset, 0).0 == |l.segments|
  }

  /** Unless it is at the end, the offset is that of a message. */
  ghost predicate AtEndOrAt(l: Log, offset: nat, msg: Bytes) {
    var r := Locate(l, offset, 0);
    r.0 < |l.segments| ==> HoldsFrame(l.segments[r.0].data, r.1, msg)
  }

  class ConnectionFile {
    var files: seq<FileDetails>
    var current: nat
    const maxSize: nat
    var total: nat
    var counter: nat

    ghost predicate Valid()
      reads this, files
    {
      && maxSize > 0
      && (forall i | 0 <= i < |files| :: files[i].Valid())
      && (forall i, j | 0 <= i < j < |files| :: files[i] != files[j])
    }

    ghost function SegmentAt(i: nat): Segment
      requires Valid() && i < |files|
      reads this, files
    {
      Segment(files[i].Written(), files[i].across)
    }

    /** The log these files hold. */
    ghost function Contents(): (l: Log)
      requires Valid()
      reads this, files
      ensures |l.segments| == |files| && l.current == current && l.total == total && l.maxSize == maxSize
      ensures l.counter == counter
      ensures forall i | 0 <= i < |files| :: l.segments[i] == SegmentAt(i)
    {
      Log(seq(|files|, i requires 0 <= i < |files| reads this, files requires Valid() => SegmentAt(i)),
          current, maxSize, total, counter)
    }

    constructor (maxFileSize: nat)
      requires maxFileSize > 0
      ensures Valid() && Contents() == Log([], 0, maxFileSize, 0, 0) && files == []
    {
      files := [];
      current := 0;
      maxSize := maxFileSize;
      total := 0;
      counter := 0;
    }

    /** `set_current_file`; `existing` is what the file to be created may already hold. */
    method SetCurrentFile(existing: Bytes)
      requires Valid() && Usable(Contents())
      modifies this, files
      ensures Valid() && Contents() == SetCurrent(old(Contents()))
      ensures forall f | f in files && f !in old(files) :: fresh(f)
    {
      ghost var before := Contents();
      if |files| == 0 {
        var info := new FileDetails(existing);
        files := [info];
        assert Contents().segments == SetCurrent(before).segments;
        return;
      }
      SegmentForDivides(total, maxSize);
      var fdToUse := total / maxSize;
      if fdToUse > current {
        files[current].across := total;
        current := fdToUse;
        var info := new FileDetails(existing);
        files := files + [info];
        assert Contents().segments == SetCurrent(before).segments;
      }
    }

    /** `write_to_file`. The segment to write to must exist. */
    method WriteToFile(msg: Bytes, existing: Bytes) returns (bytesWritten: nat)
      requires Valid() && Usable(Contents()) && |msg| < WORD32
      requires SetCurrent(Contents()).current < |SetCurrent(Contents()).segments|
      modifies this, files
      ensures Valid() && Contents() == Append(SetCurrent(old(Contents())), msg)
      ensures bytesWritten == if msg == [] then 0 else HEADER + |msg|
      ensures forall f | f in files && f !in old(files) :: fresh(f)
    {
      SetCurrentFile(existing);
      ghost var middle := Contents();
      assert files[current] in files;
      bytesWritten := files[current].WriteMsg(msg);
      if bytesWritten > 0 {
        counter := counter + 1;
        total := total + bytesWritten;
        files[current].across := total;
      }
      assert Contents().segments == Append(middle, msg).segments;
    }

    /** The files as `read` goes through them: their bytes and running totals. */
    ghost function Stored(): (r: seq<(Bytes, nat)>)
      reads this, files
      ensures |r| == |files| && forall i | 0 <= i < |files| :: r[i] == (files[i].file, files[i].across)
    {
      seq(|files|, i requires 0 <= i < |files| reads this, files => (files[i].file, files[i].across))
    }

    /** `read`: the first message that can be read at the offset, -1 if there is none, 0 when there is no file yet. */
    method Read(buffer: array<Byte>, offset: nat) returns (result: int)
      requires buffer.Length == MAX_MSG_SIZE && AllHavePlace(Stored(), offset, 0, offset)
      modifies buffer
      ensures result == if |files| == 0 then 0 else ReadFrom(Stored(), offset, 0, offset).0
      ensures var place := ReadFrom(Stored(), offset, 0, offset).1;
              place.Some? && ReadsMsg(place.value.0, place.value.1) ==>
                0 < result <= buffer.Length && buffer[..result] == MsgBytes(place.value.0, place.value.1)
    {
      if |files| == 0 {
        return 0;
      }
      var offsetCurrent: int := offset;
      for i := 0 to |files|
        invariant AllHavePlace(Stored(), offset, i, offsetCurrent)
        invariant ReadFrom(Stored(), offset, i, offsetCurrent) == ReadFrom(Stored(), offset, 0, offset)
      {
        if offset >= files[i].across {
          continue;
        }
        if i > 0 {
          offsetCurrent := offsetCurrent - files[i - 1].across;
        }
        var bytesRead := files[i].ReadMsg(buffer, offsetCurrent);
        if bytesRead > 0 {
          return bytesRead;
        }
      }
      return -1;
    }
  }

  datatype Option<+T> = None | Some(value: T)

  /** The offset in file i: the running total before it is taken off, once more for every file tried. A negative
      offset is one that wrapped, and nothing is read there. */
  function OffsetIn(stored: seq<(Bytes, nat)>, i: nat, current: int): int
    requires i < |stored|
  {
    if i > 0 then current - stored[i - 1].1 else current
  }

  /** What `read` returns from file i on, and where it was read. */
  function ReadFrom(stored: seq<(Bytes, nat)>, offset: nat, i: nat, current: int): (r: (int, Option<(Bytes, int)>))
    requires i <= |stored|
    decreases |stored| - i
  {
    if i == |stored| then (-1, None)
    else if offset >= stored[i].1 then ReadFrom(stored, offset, i + 1, current)
    else
      var from := OffsetIn(stored, i, current);
      if MsgAt(stored[i].0, from) > 0 then (MsgAt(stored[i].0, from), Some((stored[i].0, from)))
      else ReadFrom(stored, offset, i + 1, from)
  }

  /** All messages that are tried have a place in the buffer. */
  predicate AllHavePlace(stored: seq<(Bytes, nat)>, offset: nat, i: nat, current: int)
    requires i <= |stored|
    decreases |stored| - i
  {
    if i == |stored| then true
    else if offset >= stored[i].1 then AllHavePlace(stored, offset, i + 1, current)
    else
      var from := OffsetIn(stored, i, current);
      && HasPlace(stored[i].0, from)
      && (MsgAt(stored[i].0, from) > 0 || AllHavePlace(stored, offset, i + 1, from))
  }

  /** The files hold the log, and may hold old bytes beyond. */
  ghost predicate Stores(stored: seq<(Bytes, nat)>, l: Log) {
    && |stored| == |l.segments|
    && forall i | 0 <= i < |stored| :: l.segments[i].data <= stored[i].0 && stored[i].1 == l.segments[i].across
  }

  /** Past the end nothing is read, and at a message the message is. */
  lemma {:induction false} ReadsAt(stored: seq<(Bytes, nat)>, l: Log, offset: nat, i: nat, msg: Bytes)
    requires Stores(stored, l) && i <= |stored| && Locate(l, offset, i) == Locate(l, offset, 0) && AtEndOrAt(l, offset, msg)
    ensures AllHavePlace(stored, offset, i, offset)
    ensures AtEnd(l, offset) ==> ReadFrom(stored, offset, i, offset) == (-1, None)
    ensures !AtEnd(l, offset) ==>
              var r := ReadFrom(stored, offset, i, offset);
              && r.1.Some? && r.0 == HEADER + |msg| <= MAX_MSG_SIZE
              && ReadsMsg(r.1.value.0, r.1.value.1) && MsgBytes(r.1.value.0, r.1.value.1) == Frame(msg)
    decreases |stored| - i
  {
    if i < |stored| {
      if offset >= stored[i].1 {
        ReadsAt(stored, l, offset, i + 1, msg);
      } else {
        var data := l.segments[i].data;
        assert stored[i].0[..|data|] == data;
        ReadsFrame(stored[i].0, |data|, OffsetIn(stored, i, offset), msg);
      }
    }
  }

  lemma NextSize(all: seq<Bytes>, k: nat)
    requires k < |all|
    ensures Size(all[..k + 1]) == Size(all[..k]) + HEADER + |all[k]| <= Size(all)
  {
    SizePush(all[..k], all[k]);
    assert all[..k + 1] == all[..k] + [all[k]];
    SizeConcat(all[..k + 1], all[k + 1..]);
    assert all[..k + 1] + all[k + 1..] == all;
  }

  /** Where the consumer's cursor points: at the next message, or at the end. */
  lemma NextMessage(l: Log, groups: seq<seq<Bytes>>, k: nat)
    requires LogOk(l, groups) && k <= |Flat(groups)|
    ensures k < |Flat(groups)| ==> var cursor := Size(Flat(groups)[..k]);
              && !AtEnd(l, cursor) && AtEndOrAt(l, cursor, Flat(groups)[k])
              && cursor + HEADER + |Flat(groups)[k]| <= l.total
    ensures k == |Flat(groups)| ==> AtEnd(l, Size(Flat(groups)[..k]))
  {
    TotalIsSize(l, groups);
    if k == |Flat(groups)| {
      assert Flat(groups)[..k] == Flat(groups);
      ReadEnds(l, groups);
    } else {
      ReadFinds(l, groups, k);
      NextSize(Flat(groups), k);
    }
  }

  /** The string terminator that `file_to_consumer` stores one byte behind the frame has a place in the buffer. */
  predicate TerminatorFits(msg: Bytes) {
    HEADER + |msg| + 1 < MAX_MSG_SIZE
  }

  /** Of the messages that fit the log, just the two largest sizes leave it no place. */
  lemma OnlyLargestOverrun(msg: Bytes)
    requires Fits(msg)
    ensures !TerminatorFits(msg) <==> |msg| == MAX_MSG_SIZE - HEADER - 1 || |msg| == MAX_MSG_SIZE - HEADER
  {
  }

  /** A file topic with one producer, and one consumer that keeps `total_bytes_read_`. */
  class FileTopic {
    const file: ConnectionFile
    const buffer: array<Byte>
    var cursor: nat
    ghost var groups: seq<seq<Bytes>>
    ghost var delivered: nat

    /** All messages appended, in order. */
    ghost function Messages(): seq<Bytes>
      reads this
    {
      Flat(groups)
    }

    ghost predicate Valid()
      reads this, file, file.files
    {
      && file.Valid() && LogOk(file.Contents(), groups) && buffer.Length == MAX_MSG_SIZE
      && delivered <= |Messages()| && cursor == Size(Messages()[..delivered])
    }

    constructor (maxFileSize: nat)
      requires maxFileSize > 0
      ensures Valid() && Messages() == [] && delivered == 0
      ensures fresh(file) && fresh(buffer) && file.files == [] && file.maxSize == maxFileSize
    {
      file := new ConnectionFile(maxFileSize);
      buffer := new Byte[MAX_MSG_SIZE];
      cursor := 0;
      groups := [];
      delivered := 0;
      new;
      EmptyLogOk(maxFileSize);
    }

    /** A message that fits a segment is appended. */
    method Produce(msg: Bytes, existing: Bytes)
      requires Valid() && Fits(msg) && HEADER + |msg| <= file.maxSize
      modifies this, file, file.files
      ensures Valid() && Messages() == old(Messages()) + [msg] && delivered == old(delivered)
      ensures forall f | f in file.files && f !in old(file.files) :: fresh(f)
      ensures |file.files| <= |old(file.files)| + 1
    {
      AppendKeeps(file.Contents(), groups, msg);
      SetCurrentAdvances(file.Contents(), groups);
      ghost var more := Grouped(file.Contents(), groups, msg);
      ghost var before := Messages();
      var written := file.WriteToFile(msg, existing);
      groups := more;
      assert Messages()[..delivered] == before[..delivered];
    }

    /** The read of `file_to_consumer`. The byte `buffer_[result + 1]`, which it stores next, exists if and only if
        the terminator fits the message. */
    method Fetch() returns (result: int)
      requires Valid()
      modifies buffer
      ensures Valid()
      ensures delivered == |Messages()| ==> -1 <= result <= 0
      ensures delivered < |Messages()| ==>
                && result == HEADER + |Messages()[delivered]| <= buffer.Length
                && buffer[..result] == Frame(Messages()[delivered])
                && (result + 1 < buffer.Length <==> TerminatorFits(Messages()[delivered]))
    {
      ghost var msg: Bytes := if delivered < |Messages()| then Messages()[delivered] else [];
      NextMessage(file.Contents(), groups, delivered);
      assert Stores(file.Stored(), file.Contents());
      ReadsAt(file.Stored(), file.Contents(), cursor, 0, msg);
      buffer[0] := 0;
      result := file.Read(buffer, cursor);
    }

    /** `file_to_consumer` up to the delivery: the next message not delivered yet, whatever was appended in
        between; nothing if there is none. */
    method Consume() returns (result: int)
      requires Valid() && (delivered < |Messages()| ==> TerminatorFits(Messages()[delivered]))
      modifies this, buffer
      ensures Valid() && groups == old(groups)
      ensures old(delivered) == |Messages()| ==> result == 0 && delivered == old(delivered)
      ensures old(delivered) < |Messages()| ==>
                && delivered == old(delivered) + 1
                && result == HEADER + |Messages()[old(delivered)]| <= buffer.Length
                && buffer[..result] == Frame(Messages()[old(delivered)])
    {
      NextMessage(file.Contents(), groups, delivered);
      if file.total + HEADER <= cursor {
        return 0;
      }
      result := Fetch();
      if result < 0 {
        return 0;
      }
      buffer[result + 1] := 0;
      if result > 0 {
        MoveCursor(result);
      }
    }

    /** `total_bytes_read_ += result`. */
    method MoveCursor(result: nat)
      requires Valid() && delivered < |Messages()| && result == HEADER + |Messages()[delivered]|
      modifies `cursor, `delivered
      ensures Valid() && delivered == old(delivered) + 1
    {
      NextSize(Messages(), delivered);
      cursor := cursor + result;
      delivered := delivered + 1;
    }
  }

  /** A topic accepts a message of the largest size, and reading it leaves no place for the terminator. */
  method LargestOverruns() returns (topic: FileTopic, result: int)
    ensures fresh(topic) && topic.Valid() && |topic.Messages()| == 1 && topic.delivered == 0
    ensures Fits(topic.Messages()[0]) && result == HEADER + |topic.Messages()[0]| && result + 1 >= topic.buffer.Length
  {
    var msg: Bytes := seq(MAX_MSG_SIZE - HEADER, _ => 0);
    topic := new FileTopic(MAX_MSG_SIZE);
    assert topic.Messages() == [];
    topic.Produce(msg, []);
    assert topic.Messages() == [msg];
    result := topic.Fetch();
  }
}
