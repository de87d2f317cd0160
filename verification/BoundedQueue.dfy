/** The queue of include/thirdparty/spdlog/details/mpmc_bounded_q.h:71-161 as a class, called by one thread at a
  time; MpmcQueue has its behaviour under any number of threads.
 */
module BoundedQueue {
  import Modular
  import PowersOfTwo

  datatype Option<+T> = None | Some(value: T)

  /** The cell of position p. */
  function Cell(p: nat, size: nat): (cell: nat)
    requires size > 0
    ensures cell < size
  {
    p % size
  }

  /** The cells of [lo, hi) carry the stamp of a published position, the others the stamp of a free one. */
  ghost predicate Stamped(stamps: seq<nat>, lo: nat, hi: nat)
    requires |stamps| > 0
  {
    && lo <= hi <= lo + |stamps|
    && (forall p: nat | lo <= p < hi :: stamps[Cell(p, |stamps|)] == p + 1)
    && (forall p: nat | hi <= p < lo + |stamps| :: stamps[Cell(p, |stamps|)] == p)
  }

  /** The values at the positions of [lo, hi), oldest first. */
  ghost function Held<T>(data: seq<T>, lo: nat, hi: nat): (held: seq<T>)
    requires |data| > 0 && lo <= hi
    ensures |held| == hi - lo
    ensures forall i: nat | i < hi - lo :: held[i] == data[Cell(lo + i, |data|)]
  {
    seq(hi - lo, i requires 0 <= i < hi - lo => data[Cell(lo + i, |data|)])
  }

  class Queue<T(0)> {
    const sequence: array<nat>
    const data: array<T>
    /** `buffer_mask_` is the size less one. */
    const mask: nat
    var enqueuePos: nat
    var dequeuePos: nat

    ghost predicate Valid()
      reads this, sequence
    {
      && (sequence as object) != data && sequence.Length == data.Length == mask + 1 >= 2
      && PowersOfTwo.IsPow2(mask + 1)
      && Stamped(sequence[..], dequeuePos, enqueuePos)
    }

    /** What is in the queue, oldest first. */
    ghost function Contents(): seq<T>
      requires Valid()
      reads this, sequence, data
    {
      Held(data[..], dequeuePos, enqueuePos)
    }

    constructor (size: nat)
      requires size >= 2 && PowersOfTwo.IsPow2(size)
      ensures Valid() && Contents() == [] && mask + 1 == size && fresh(sequence) && fresh(data)
    {
      sequence := new nat[size](i => i);
      data := new T[size];
      mask := size - 1;
      enqueuePos := 0;
      dequeuePos := 0;
      new;
      FreshStamps(sequence[..]);
    }

    /** `enqueue`: false exactly when the queue is full. Without competition the exchange of the source succeeds. */
    method Enqueue(v: T) returns (ok: bool)
      requires Valid()
      modifies this`enqueuePos, sequence, data
      ensures Valid() && (ok <==> old(|Contents()|) <= mask)
      ensures Contents() == if ok then old(Contents()) + [v] else old(Contents())
    {
      var pos := enqueuePos;
      MaskOf(pos, mask);
      var cell := PowersOfTwo.And(pos, mask);
      HeadStamp(sequence[..], dequeuePos, pos);
      if sequence[cell] < pos {
        return false;
      }
      HeldPush(data[..], dequeuePos, pos, v);
      StampedPush(sequence[..], dequeuePos, pos);
      enqueuePos := pos + 1;
      data[cell] := v;
      sequence[cell] := pos + 1;
      assert sequence[..] == old(sequence[..])[cell := pos + 1] && data[..] == old(data[..])[cell := v];
      return true;
    }

    /** `dequeue`: nothing exactly when the queue is empty, else the oldest value. */
    method Dequeue() returns (r: Option<T>)
      requires Valid()
      modifies this`dequeuePos, sequence
      ensures Valid()
      ensures if old(Contents()) == [] then r == None && Contents() == []
              else r == Some(old(Contents())[0]) && Contents() == old(Contents())[1..]
    {
      var pos := dequeuePos;
      MaskOf(pos, mask);
      var cell := PowersOfTwo.And(pos, mask);
      TailStamp(sequence[..], pos, enqueuePos);
      if sequence[cell] < pos + 1 {
        return None;
      }
      HeldPop(data[..], pos, enqueuePos);
      StampedPop(sequence[..], pos, enqueuePos);
      dequeuePos := pos + 1;
      var v := data[cell];
      sequence[cell] := pos + mask + 1;
      assert sequence[..] == old(sequence[..])[cell := pos + mask + 1];
      return Some(v);
    }
  }

  lemma FreshStamps(stamps: seq<nat>)
    requires |stamps| > 0 && forall i | 0 <= i < |stamps| :: stamps[i] == i
    ensures Stamped(stamps, 0, 0)
  {
    forall p: nat | p < |stamps| ensures Cell(p, |stamps|) == p { Modular.Unique(p, |stamps|, 0, p); }
  }

  /** The cell of the next enqueue is behind it exactly when the queue is full, and never ahead of it. */
  lemma HeadStamp(stamps: seq<nat>, lo: nat, hi: nat)
    requires |stamps| > 0 && Stamped(stamps, lo, hi)
    ensures stamps[Cell(hi, |stamps|)] <= hi
    ensures stamps[Cell(hi, |stamps|)] < hi <==> hi == lo + |stamps| && |stamps| > 1
  {
    if hi == lo + |stamps| { SameCell(lo, |stamps|); }
  }

  /** The cell of the next dequeue is behind it exactly when the queue is empty, and never ahead of it. */
  lemma TailStamp(stamps: seq<nat>, lo: nat, hi: nat)
    requires |stamps| > 0 && Stamped(stamps, lo, hi)
    ensures stamps[Cell(lo, |stamps|)] == if lo == hi then lo else lo + 1
  {}

  lemma StampedPush(stamps: seq<nat>, lo: nat, hi: nat)
    requires |stamps| > 0 && Stamped(stamps, lo, hi) && hi < lo + |stamps|
    ensures Stamped(stamps[Cell(hi, |stamps|) := hi + 1], lo, hi + 1)
  {
    var after := stamps[Cell(hi, |stamps|) := hi + 1];
    forall p: nat | lo <= p < lo + |stamps| && p != hi
      ensures after[Cell(p, |stamps|)] == stamps[Cell(p, |stamps|)]
    {
      OtherCell(p, hi, |stamps|);
    }
  }

  /** The freed cell is stamped for the position one round later. */
  lemma StampedPop(stamps: seq<nat>, lo: nat, hi: nat)
    requires |stamps| > 0 && Stamped(stamps, lo, hi) && lo < hi
    ensures Stamped(stamps[Cell(lo, |stamps|) := lo + |stamps|], lo + 1, hi)
  {
    var after := stamps[Cell(lo, |stamps|) := lo + |stamps|];
    forall p: nat | lo < p < lo + |stamps| ensures after[Cell(p, |stamps|)] == stamps[Cell(p, |stamps|)] {
      OtherCell(p, lo, |stamps|);
    }
    SameCell(lo, |stamps|);
  }

  lemma HeldPush<T>(data: seq<T>, lo: nat, hi: nat, v: T)
    requires |data| > 0 && lo <= hi < lo + |data|
    ensures Held(data[Cell(hi, |data|) := v], lo, hi + 1) == Held(data, lo, hi) + [v]
  {
    var after := data[Cell(hi, |data|) := v];
    forall i: nat | i < hi - lo ensures Held(after, lo, hi + 1)[i] == Held(data, lo, hi)[i] {
      OtherCell(lo + i, hi, |data|);
    }
  }

  lemma HeldPop<T>(data: seq<T>, lo: nat, hi: nat)
    requires |data| > 0 && lo < hi
    ensures Held(data, lo, hi) == [data[Cell(lo, |data|)]] + Held(data, lo + 1, hi)
  {
    var rest := Held(data, lo + 1, hi);
    forall i: nat | i < |rest| ensures Held(data, lo, hi)[1 + i] == rest[i] {
      assert lo + (1 + i) == lo + 1 + i;
    }
  }

  lemma MaskOf(pos: nat, mask: nat)
    requires PowersOfTwo.IsPow2(mask + 1)
    ensures PowersOfTwo.And(pos, mask) == Cell(pos, mask + 1)
  {
    var k: nat :| mask + 1 == PowersOfTwo.Pow2(k);
    PowersOfTwo.MaskIsRemainder(pos, k);
  }

  /** A round later the cell is the same. */
  lemma SameCell(p: nat, size: nat)
    requires size > 0
    ensures Cell(p + size, size) == Cell(p, size)
  {
    Modular.AddMultiple(p, size, 1);
  }

  /** Within a round the cells differ. */
  lemma OtherCell(p: nat, q: nat, size: nat)
    requires size > 0 && p != q && p - q < size && q - p < size
    ensures Cell(p, size) != Cell(q, size)
  {
    if p % size == q % size { Modular.Distinct(p, q, size); }
  }

  /** The constructor of the source refuses every size that is not a power of two from 2 on. */
  method Make<T(0)>(size: nat) returns (q: Option<Queue<T>>)
    ensures q.Some? <==> size >= 2 && PowersOfTwo.IsPow2(size)
    ensures q.Some? ==> fresh(q.value) && q.value.Valid() && q.value.Contents() == [] && q.value.mask + 1 == size
  {
    if size >= 1 { PowersOfTwo.PowerTest(size); }
    if !(size >= 2 && PowersOfTwo.And(size, size - 1) == 0) {
      return None;
    }
    var queue := new Queue<T>(size);
    return Some(queue);
  }
}
