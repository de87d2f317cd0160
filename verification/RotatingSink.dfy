/** The rotating log files of include/thirdparty/spdlog/sinks/file_sinks.h:69-150: `_sink_it`, `_rotate` and
  `calc_filename`, in a directory where no operation fails.
 */
module RotatingSink {
  import IntFormat
  import Digits

  datatype Option<+T> = None | Some(value: T)

  type Directory = map<string, string>

  function Entry(files: Directory, name: string): Option<string> {
    if name in files then Some(files[name]) else None
  }

  // ---------- file names ----------

  /** `calc_filename`: the newest file has no number. */
  function CalcFilename(base: string, index: nat, extension: string): string {
    if index > 0 then base + "." + IntFormat.Numeral(index, 10, false) + "." + extension
    else base + "." + extension
  }

  /** The newest file is "base.extension", generation i is "base.i.extension" with i in decimal. */
  lemma NameSpelled(base: string, index: nat, extension: string)
    ensures index == 0 ==> CalcFilename(base, index, extension) == base + "." + extension
    ensures index > 0 ==>
              exists digits :: IntFormat.Spells(digits, "0123456789", index) &&
                               CalcFilename(base, index, extension) == base + "." + digits + "." + extension
  {
    IntFormat.NumeralSpells(index, 10, false, "0123456789");
    assert IntFormat.Spells(IntFormat.Numeral(index, 10, false), "0123456789", index);
  }

  lemma NumeralInjective(i: nat, j: nat)
    requires IntFormat.Numeral(i, 10, false) == IntFormat.Numeral(j, 10, false)
    ensures i == j
  {
    IntFormat.NumeralReadsBack(i, 10, false, 0);
    IntFormat.NumeralReadsBack(j, 10, false, 0);
  }

  lemma Inside(base: string, middle: string, extension: string)
    ensures var name := base + "." + middle + "." + extension;
            |name| == |base| + |middle| + |extension| + 2 && name[|base| + 1..|base| + 1 + |middle|] == middle
  {
  }

  /** Different generations have different files. */
  lemma NamesDiffer(base: string, i: nat, j: nat, extension: string)
    requires i != j
    ensures CalcFilename(base, i, extension) != CalcFilename(base, j, extension)
  {
    var a, b := IntFormat.Numeral(i, 10, false), IntFormat.Numeral(j, 10, false);
    Inside(base, a, extension);
    Inside(base, b, extension);
    if CalcFilename(base, i, extension) == CalcFilename(base, j, extension) && i > 0 && j > 0 {
      assert a == b;
      NumeralInjective(i, j);
    }
  }

  // ---------- messages and generations ----------

  function Text(msgs: seq<string>): string {
    if msgs == [] then "" else Text(msgs[..|msgs| - 1]) + msgs[|msgs| - 1]
  }

  lemma TextPush(msgs: seq<string>, msg: string)
    ensures Text(msgs + [msg]) == Text(msgs) + msg
  {
    assert (msgs + [msg])[..|msgs|] == msgs;
  }

  lemma {:induction false} TextConcat(a: seq<string>, b: seq<string>)
    ensures Text(a + b) == Text(a) + Text(b)
  {
    if b == [] {
      assert a + b == a;
    } else {
      var n := |b| - 1;
      TextConcat(a, b[..n]);
      assert a + b == a + b[..n] + [b[n]];
      TextPush(a + b[..n], b[n]);
    }
  }

  /** The messages of all generations, oldest first; generation 0 is the newest. */
  function Oldest(gens: seq<seq<string>>): seq<string> {
    if gens == [] then [] else Oldest(gens[1..]) + gens[0]
  }

  lemma {:induction false} OldestSplit(gens: seq<seq<string>>, last: seq<string>)
    ensures Oldest(gens + [last]) == last + Oldest(gens)
  {
    if gens == [] {
      assert [last][1..] == [] && Oldest([]) == [];
      assert [] + last == last == last + [];
    } else {
      OldestSplit(gens[1..], last);
      assert (gens + [last])[1..] == gens[1..] + [last];
      assert last + Oldest(gens[1..]) + gens[0] == last + (Oldest(gens[1..]) + gens[0]);
    }
  }

  /** A new generation pushes the oldest one out. */
  function Rotated(gens: seq<seq<string>>): seq<seq<string>>
    requires gens != []
  {
    [[]] + gens[..|gens| - 1]
  }

  lemma RotatedOldest(gens: seq<seq<string>>)
    requires gens != []
    ensures Oldest(gens) == gens[|gens| - 1] + Oldest(Rotated(gens))
  {
    var n := |gens| - 1;
    var kept, last := gens[..n], gens[n];
    assert gens == kept + [last] && Rotated(gens) == [[]] + kept;
    OldestSplit(kept, last);
    OldestPush(kept);
  }

  lemma OldestPush(gens: seq<seq<string>>)
    ensures Oldest([[]] + gens) == Oldest(gens)
  {
    assert ([[]] + gens)[1..] == gens;
    assert Oldest(gens) + [] == Oldest(gens);
  }

  /** One more message, in the newest generation or in a new one. */
  function Logged(gens: seq<seq<string>>, msg: string, rotate: bool): seq<seq<string>>
    requires gens != []
  {
    if rotate then Rotated(gens)[0 := [msg]] else gens[0 := gens[0] + [msg]]
  }

  /** The message is alone in a new generation and the oldest is gone, or it is the last of the newest one. */
  lemma LoggedIs(gens: seq<seq<string>>, msg: string, rotate: bool)
    requires gens != []
    ensures Logged(gens, msg, rotate) ==
            if rotate then [[msg]] + gens[..|gens| - 1] else [gens[0] + [msg]] + gens[1..]
  {
  }

  lemma OldestSet(gens: seq<seq<string>>, newest: seq<string>)
    requires gens != []
    ensures Oldest(gens[0 := newest]) == Oldest(gens[1..]) + newest
  {
    assert gens[0 := newest][1..] == gens[1..];
  }

  lemma Associate(a: seq<string>, b: seq<string>, c: seq<string>)
    ensures a + b + c == a + (b + c) && a + [] == a && [] + a == a
  {
  }

  /** Nothing but the oldest generation goes, and the message comes last. */
  lemma LoggedOldest(gens: seq<seq<string>>, msg: string, rotate: bool)
    requires gens != []
    ensures (if rotate then gens[|gens| - 1] else []) + Oldest(Logged(gens, msg, rotate)) == Oldest(gens) + [msg]
  {
    if rotate {
      var r, last := Rotated(gens), gens[|gens| - 1];
      RotatedOldest(gens);
      OldestSet(r, [msg]);
      Associate(Oldest(r[1..]), [], []);
      Associate(last, Oldest(r[1..]), [msg]);
    } else {
      OldestSet(gens, gens[0] + [msg]);
      Associate(Oldest(gens[1..]), gens[0], [msg]);
      Associate(Oldest(Logged(gens, msg, rotate)), [], []);
    }
  }

  lemma LogGrows(log: seq<string>, dropped: seq<string>, gens: seq<seq<string>>, msg: string, rotate: bool)
    requires gens != [] && log == dropped + Oldest(gens)
    ensures log + [msg] ==
            dropped + (if rotate then gens[|gens| - 1] else []) + Oldest(Logged(gens, msg, rotate))
  {
    LoggedOldest(gens, msg, rotate);
    Associate(dropped, if rotate then gens[|gens| - 1] else [], Oldest(Logged(gens, msg, rotate)));
    Associate(dropped, Oldest(gens), [msg]);
  }

  // ---------- files ----------

  /** A file and the messages it is to hold; a file that does not exist holds none. */
  ghost predicate Holds(entry: Option<string>, msgs: seq<string>, maxSize: nat) {
    && (match entry case Some(text) => text == Text(msgs) case None => msgs == [])
    && (|Text(msgs)| <= maxSize || |msgs| == 1)
  }

  /** Removing the target and renaming the source to it, as far as they exist. */
  function Renamed(files: Directory, src: string, target: string): Directory {
    var cleared := files - {target};
    if src in cleared then cleared[target := cleared[src]] - {src} else cleared
  }

  lemma RenamedEntry(files: Directory, src: string, target: string, name: string)
    requires src != target
    ensures Entry(Renamed(files, src, target), name) ==
            if name == target then Entry(files, src) else if name == src then None else Entry(files, name)
  {
  }

  ghost predicate Distinct(names: seq<string>) {
    forall i, j | 0 <= i < j < |names| :: names[i] != names[j]
  }

  /** Every generation's file holds its messages. */
  ghost predicate AllHold(files: Directory, names: seq<string>, gens: seq<seq<string>>, maxSize: nat)
    requires |names| == |gens|
  {
    forall i | 0 <= i < |gens| :: Holds(Entry(files, names[i]), gens[i], maxSize)
  }

  /** The files from index i on have moved on by one; file i itself is gone unless nothing moved yet. */
  ghost predicate MovedFrom(before: Directory, files: Directory, names: seq<string>, i: nat)
    requires i < |names|
  {
    && (forall k | i < k < |names| :: Entry(files, names[k]) == Entry(before, names[k - 1]))
    && (forall k | 0 <= k < i :: Entry(files, names[k]) == Entry(before, names[k]))
    && (if i + 1 == |names| then Entry(files, names[i]) == Entry(before, names[i]) else Entry(files, names[i]) == None)
    && SameElsewhere(before, files, names)
  }

  ghost predicate SameElsewhere(before: Directory, files: Directory, names: seq<string>) {
    forall name | name !in names :: Entry(files, name) == Entry(before, name)
  }

  lemma MoveOne(before: Directory, files: Directory, names: seq<string>, i: nat)
    requires 1 <= i < |names| && Distinct(names) && MovedFrom(before, files, names, i)
    ensures MovedFrom(before, Renamed(files, names[i - 1], names[i]), names, i - 1)
  {
    var files' := Renamed(files, names[i - 1], names[i]);
    assert names[i - 1] != names[i];
    forall k | 0 <= k < |names| && k != i && k != i - 1 ensures Entry(files', names[k]) == Entry(files, names[k]) {
      assert if k < i then names[k] != names[i] else names[i] != names[k];
      assert if k < i - 1 then names[k] != names[i - 1] else names[i - 1] != names[k];
      RenamedEntry(files, names[i - 1], names[i], names[k]);
    }
    RenamedEntry(files, names[i - 1], names[i], names[i]);
    RenamedEntry(files, names[i - 1], names[i], names[i - 1]);
    forall name | name !in names ensures Entry(files', name) == Entry(before, name) {
      assert names[i - 1] in names && names[i] in names;
      RenamedEntry(files, names[i - 1], names[i], name);
    }
  }

  /** The directory after a rotation: the newest file is empty. */
  ghost predicate RotatedFiles(before: Directory, files: Directory, names: seq<string>)
    requires names != []
  {
    && Entry(files, names[0]) == Some("") && SameElsewhere(before, files, names)
    && forall k | 1 <= k < |names| :: Entry(files, names[k]) == Entry(before, names[k - 1])
  }

  lemma Reopened(before: Directory, files: Directory, names: seq<string>)
    requires names != [] && Distinct(names) && MovedFrom(before, files, names, 0)
    ensures RotatedFiles(before, files[names[0] := ""], names)
  {
    assert names[0] in names;
    forall k | 1 <= k < |names| ensures names[k] != names[0] { assert names[0] != names[k]; }
  }

  /** The files after the message was written to the newest one. */
  lemma Sunk(entries: Directory, rotated: Directory, names: seq<string>, gens: seq<seq<string>>, maxSize: nat,
             msg: string, rotate: bool)
    requires |names| == |gens| >= 1 && Distinct(names) && AllHold(entries, names, gens, maxSize)
    requires names[0] in entries && (rotate <==> |Text(gens[0])| + |msg| > maxSize)
    requires if rotate then RotatedFiles(entries, rotated, names) else rotated == entries
    ensures names[0] in rotated
    ensures AllHold(rotated[names[0] := rotated[names[0]] + msg], names, Logged(gens, msg, rotate), maxSize)
    ensures |Text(Logged(gens, msg, rotate)[0])| == (if rotate then 0 else |Text(gens[0])|) + |msg|
    ensures SameElsewhere(entries, rotated[names[0] := rotated[names[0]] + msg], names)
  {
    var written, after := rotated[names[0] := rotated[names[0]] + msg], Logged(gens, msg, rotate);
    assert names[0] in names;
    forall i | 1 <= i < |gens| ensures Holds(Entry(written, names[i]), after[i], maxSize) {
      assert names[0] != names[i];
      assert Entry(written, names[i]) == Entry(rotated, names[i]);
      assert Holds(Entry(entries, names[i]), gens[i], maxSize);
      assert Holds(Entry(entries, names[i - 1]), gens[i - 1], maxSize);
    }
    SunkNewest(entries, gens, msg, rotate, names[0], maxSize);
  }

  lemma SunkNewest(entries: Directory, gens: seq<seq<string>>, msg: string, rotate: bool, name: string, maxSize: nat)
    requires gens != [] && name in entries && Holds(Entry(entries, name), gens[0], maxSize)
    requires rotate <==> |Text(gens[0])| + |msg| > maxSize
    ensures var newest := Logged(gens, msg, rotate)[0];
            && Holds(Some((if rotate then "" else entries[name]) + msg), newest, maxSize)
            && |Text(newest)| == (if rotate then 0 else |Text(gens[0])|) + |msg|
  {
    TextPush(gens[0], msg);
    TextPush([], msg);
    assert [] + [msg] == [msg] && "" + msg == msg;
  }

  class Sink {
    const base: string
    const extension: string
    const maxSize: nat
    const maxFiles: nat
    var currentSize: nat
    var files: Directory

    /** Every message logged; those that were deleted with an oldest file; those of each generation. */
    ghost var log: seq<string>
    ghost var dropped: seq<string>
    ghost var gens: seq<seq<string>>

    /** The file name of each generation. */
    ghost const names: seq<string>

    ghost predicate NamesOk() {
      && |names| == maxFiles + 1 && Distinct(names)
      && forall i | 0 <= i <= maxFiles :: names[i] == CalcFilename(base, i, extension)
    }

    ghost predicate Valid()
      reads this
    {
      && NamesOk() && |gens| == maxFiles + 1 && AllHold(files, names, gens, maxSize)
      && names[0] in files && currentSize == |Text(gens[0])|
      && log == dropped + Oldest(gens)
    }

    /** Opens the newest file in a directory that has none of the files. */
    constructor (base0: string, extension0: string, maxSize0: nat, maxFiles0: nat, dir: Directory)
      requires forall i | 0 <= i <= maxFiles0 :: CalcFilename(base0, i, extension0) !in dir
      ensures Valid() && log == [] && dropped == []
      ensures maxSize == maxSize0 && maxFiles == maxFiles0
    {
      base, extension, maxSize, maxFiles := base0, extension0, maxSize0, maxFiles0;
      currentSize := 0;
      files := dir[CalcFilename(base0, 0, extension0) := ""];
      log := [];
      dropped := [];
      gens := seq(maxFiles0 + 1, _ => []);
      names := seq(maxFiles0 + 1, i requires 0 <= i < maxFiles0 + 1 => CalcFilename(base0, i, extension0));
      new;
      AllEmpty(gens);
      forall i, j | 0 <= i < j < |names| ensures names[i] != names[j] { NamesDiffer(base, i, j, extension); }
      forall i | 0 <= i < |gens| ensures Holds(Entry(files, names[i]), gens[i], maxSize) {
        if i > 0 { assert names[0] != names[i]; }
      }
    }

    /** `_rotate`: every file moves on by one, the oldest is deleted, the newest starts empty. */
    method Rotate()
      requires NamesOk() && names[0] in files
      modifies this`files
      ensures RotatedFiles(old(files), files, names)
    {
      var i := maxFiles;
      while i > 0
        invariant 0 <= i <= maxFiles && MovedFrom(old(files), files, names, i)
      {
        MoveOne(old(files), files, names, i);
        MoveOn(i);
        i := i - 1;
      }
      Reopened(old(files), files, names);
      files := files[CalcFilename(base, 0, extension) := ""];
    }

    /** One round of the loop: generation i - 1 becomes generation i. */
    method MoveOn(i: nat)
      requires NamesOk() && 1 <= i <= maxFiles
      modifies this`files
      ensures files == Renamed(old(files), names[i - 1], names[i])
    {
      var src := CalcFilename(base, i - 1, extension);
      var target := CalcFilename(base, i, extension);
      assert src == names[i - 1] && target == names[i] && src != target;
      if target in files {
        files := files - {target};
      }
      assert files == old(files) - {target};
      if src in files {
        files := files[target := files[src]] - {src};
      }
    }

    /** `_sink_it`. */
    method SinkIt(msg: string)
      requires Valid()
      modifies this
      ensures Valid() && log == old(log) + [msg]
      ensures gens == Logged(old(gens), msg, old(currentSize) + |msg| > maxSize)
      ensures dropped == old(dropped) + if old(currentSize) + |msg| > maxSize then old(gens)[maxFiles] else []
      ensures SameElsewhere(old(files), files, names)
    {
      ghost var rotate := currentSize + |msg| > maxSize;
      LogGrows(log, dropped, gens, msg, rotate);
      currentSize := currentSize + |msg|;
      if currentSize > maxSize {
        Rotate();
        currentSize := |msg|;
      }
      Sunk(old(files), files, names, gens, maxSize, msg, rotate);
      var newest := CalcFilename(base, 0, extension);
      assert newest == names[0];
      files := files[newest := files[newest] + msg];
      dropped := dropped + if rotate then gens[maxFiles] else [];
      gens := Logged(gens, msg, rotate);
      log := log + [msg];
    }

    /** Any number of messages, one after the other: what the files hold, oldest generation first, is the text of
        the last messages logged, cut between messages; and no file is larger than the limit unless it holds one
        message. */
    method SinkAll(msgs: seq<string>)
      requires Valid()
      modifies this
      ensures Valid() && log == old(log) + msgs
      ensures log == dropped + Oldest(gens) && Text(log) == Text(dropped) + Text(Oldest(gens))
      ensures AllHold(files, names, gens, maxSize)
    {
      for i := 0 to |msgs|
        invariant Valid() && log == old(log) + msgs[..i]
      {
        SinkIt(msgs[i]);
        assert msgs[..i + 1] == msgs[..i] + [msgs[i]];
      }
      assert msgs[..|msgs|] == msgs;
      TextConcat(dropped, Oldest(gens));
    }
  }

  lemma {:induction false} AllEmpty(gens: seq<seq<string>>)
    requires forall i | 0 <= i < |gens| :: gens[i] == []
    ensures Oldest(gens) == []
  {
    if gens != [] { AllEmpty(gens[1..]); }
  }
}
