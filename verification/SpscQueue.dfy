/** The single-producer single-consumer queue of include/thirdparty/readerwriterqueue.h: a circular list of
  ring buffers, one wasted slot each, with a shadow copy of the other side's index in every block.

  Each load or store of a variable the other thread also uses is one step. `index & sizeMask` is `Wrap`,
  the same number for indices at most one round too large. Block pointers are indices into `blocks`.
 */
module SpscQueue {
  import Modular
  import PowersOfTwo

  datatype Option<+T> = None | Some(value: T)

  /** `|data|` is the capacity, `sizeMask + 1` in the source. `front` and `localTail` belong to the consumer,
      `tail`, `localFront` and `next` to the producer. */
  datatype Block<T> = Block(front: nat, localTail: nat, tail: nat, localFront: nat, next: nat, data: seq<T>)

  /** `inner_enqueue` of v, named by the access it performs next; `alloc` is `CanAlloc`. */
  datatype Producer<T> =
    | PIdle
    | PReadFront(v: T, alloc: bool)
    | PWrite(v: T)
    | PPublish(v: T)
    | PCheckNext(v: T, alloc: bool)
    | PNextFront(v: T)
    | PNextWrite(v: T)
    | PNextTail(v: T)
    | PNextPublish(v: T)
    | PAlloc(v: T)
    | PLink(v: T, block: nat)
    | PLinkPublish(v: T, block: nat)
    | PDone(ok: bool)
  {
    predicate Resting() { PIdle? || PDone? }
    /** The tail block was seen full in this call. */
    predicate SawFull() {
      PCheckNext? || PNextFront? || PNextWrite? || PNextTail? || PNextPublish? || PAlloc? || PLink? || PLinkPublish?
    }
    predicate AtNext() { PNextFront? || PNextWrite? || PNextTail? || PNextPublish? || PLinkPublish? }
  }

  /** `try_dequeue` or `peek`; `pop` is `try_dequeue` with the value thrown away. */
  datatype Consumer<T> =
    | CIdle
    | CReadTail(peek: bool)
    | CCheckTail(peek: bool)
    | CReread(peek: bool)
    | CNext(peek: bool)
    | CPeekNext(next: nat)
    | CNextTail(next: nat)
    | CSetFront(next: nat)
    | CRead(peek: bool)
    | CPublish(v: T)
    | CDone(r: Option<T>)
  {
    predicate Resting() { CIdle? || CDone? }
    predicate Peeking() {
      CPeekNext? || ((CReadTail? || CCheckTail? || CReread? || CNext? || CRead?) && peek)
    }
    /** The front block was seen empty with another block ahead. */
    predicate Advancing() { CNext? || CPeekNext? || CNextTail? || CSetFront? }
  }

  /** `ring` lists the linked blocks in `next` order from `frontBlock` and `tpos` is the place of `tailBlock`
      in it; `enqueued` and `dequeued` are all values in the order of their linearization. These four are
      history that no step reads. */
  datatype Core<T> = Core(
    blocks: seq<Block<T>>,
    frontBlock: nat,
    tailBlock: nat,
    largest: nat,
    maxBlock: nat,
    p: Producer<T>,
    c: Consumer<T>,
    ring: seq<nat>,
    tpos: nat,
    enqueued: seq<T>,
    dequeued: seq<T>)

  function Wrap(i: nat, n: nat): nat
    requires i < n + n
  {
    if i < n then i else i - n
  }

  /** How far b is after a on a circle of n places: `(b - a) & (n - 1)`. */
  function Dist(a: nat, b: nat, n: nat): nat
    requires a < n && b < n
  {
    if a <= b then b - a else b + n - a
  }

  predicate BlockOk<T>(b: Block<T>) {
    |b.data| >= 2 && b.front < |b.data| && b.localTail < |b.data| && b.tail < |b.data| && b.localFront < |b.data|
  }

  function Used<T>(b: Block<T>): nat
    requires BlockOk(b)
  {
    Dist(b.front, b.tail, |b.data|)
  }

  predicate Full<T>(b: Block<T>)
    requires BlockOk(b)
  {
    Used(b) == |b.data| - 1
  }

  /** The values of a block, oldest first. */
  ghost function Items<T>(b: Block<T>): (items: seq<T>)
    requires BlockOk(b)
    ensures |items| == Used(b) && forall k | 0 <= k < |items| :: items[k] == b.data[Wrap(b.front + k, |b.data|)]
  {
    seq(Used(b), k requires 0 <= k < Used(b) => b.data[Wrap(b.front + k, |b.data|)])
  }

  ghost predicate Shape<T>(s: Core<T>) {
    && (forall i | 0 <= i < |s.blocks| :: BlockOk(s.blocks[i]))
    && s.frontBlock < |s.blocks| && s.tailBlock < |s.blocks|
  }

  function Tail<T>(s: Core<T>): Block<T>
    requires s.tailBlock < |s.blocks|
  {
    s.blocks[s.tailBlock]
  }

  function Front<T>(s: Core<T>): Block<T>
    requires s.frontBlock < |s.blocks|
  {
    s.blocks[s.frontBlock]
  }

  ghost function SetBlock<T>(s: Core<T>, i: nat, b: Block<T>): Core<T>
    requires i < |s.blocks|
  {
    s.(blocks := s.blocks[i := b])
  }

  /** `try_enqueue` (no allocation) or `enqueue` is called: the producer first compares its own indices. */
  ghost predicate EnqueueCall<T>(s: Core<T>, s': Core<T>, v: T, alloc: bool)
    requires Shape(s)
  {
    var b := Tail(s);
    && s.p.Resting()
    && s' == s.(p := if Wrap(b.tail + 1, |b.data|) != b.localFront then PWrite(v) else PReadFront(v, alloc))
  }

  ghost predicate ProducerStep<T>(s: Core<T>, s': Core<T>)
    requires Shape(s)
  {
    var b := Tail(s);
    match s.p
    case PReadFront(v, alloc) =>
      s' == SetBlock(s, s.tailBlock, b.(localFront := b.front)).(
              p := if Wrap(b.tail + 1, |b.data|) != b.front then PWrite(v) else PCheckNext(v, alloc))
    case PWrite(v) =>
      s' == SetBlock(s, s.tailBlock, b.(data := b.data[b.tail := v])).(p := PPublish(v))
    case PPublish(v) =>
      s' == SetBlock(s, s.tailBlock, b.(tail := Wrap(b.tail + 1, |b.data|))).(
              p := PDone(true), enqueued := s.enqueued + [v])
    case PCheckNext(v, alloc) =>
      s' == s.(p := if b.next != s.frontBlock then PNextFront(v) else if alloc then PAlloc(v) else PDone(false))
    case PNextFront(v) =>
      && b.next < |s.blocks|
      && var n := s.blocks[b.next];
         s' == SetBlock(s, b.next, n.(localFront := n.front)).(p := PNextWrite(v))
    case PNextWrite(v) =>
      && b.next < |s.blocks|
      && var n := s.blocks[b.next];
         s' == SetBlock(s, b.next, n.(data := n.data[n.tail := v])).(p := PNextTail(v))
    case PNextTail(v) =>
      && b.next < |s.blocks|
      && var n := s.blocks[b.next];
         s' == SetBlock(s, b.next, n.(tail := Wrap(n.tail + 1, |n.data|))).(p := PNextPublish(v))
    case PNextPublish(v) =>
      s' == s.(p := PDone(true), tailBlock := b.next, tpos := s.tpos + 1, enqueued := s.enqueued + [v])
    case PAlloc(v) =>
      || s' == s.(p := PDone(false))                       // malloc failed
      || (&& |s'.blocks| == |s.blocks| + 1
          && var size := if s.largest >= s.maxBlock then s.largest else s.largest * 2;
             var f := s'.blocks[|s.blocks|];
          && |f.data| == size > 0 && f == Block(0, 1, 1, 0, b.next, f.data) && f.data[0] == v
          && s' == s.(blocks := s.blocks + [f], largest := size, p := PLink(v, |s.blocks|)))
    case PLink(v, f) =>
      && s.tpos < |s.ring|
      && s' == SetBlock(s, s.tailBlock, b.(next := f)).(
                 p := PLinkPublish(v, f), ring := s.ring[..s.tpos + 1] + [f] + s.ring[s.tpos + 1..])
    case PLinkPublish(v, f) =>
      s' == s.(p := PDone(true), tailBlock := f, tpos := s.tpos + 1, enqueued := s.enqueued + [v])
    case _ => false
  }

  /** `try_dequeue`, `pop` or `peek` is called: the consumer first compares its own indices. */
  ghost predicate DequeueCall<T>(s: Core<T>, s': Core<T>, peek: bool)
    requires Shape(s)
  {
    var b := Front(s);
    && s.c.Resting()
    && s' == s.(c := if b.front != b.localTail then CRead(peek) else CReadTail(peek))
  }

  ghost predicate ConsumerStep<T>(s: Core<T>, s': Core<T>)
    requires Shape(s)
  {
    var b := Front(s);
    match s.c
    case CReadTail(peek) =>
      s' == SetBlock(s, s.frontBlock, b.(localTail := b.tail)).(
              c := if b.front != b.tail then CRead(peek) else CCheckTail(peek))
    case CCheckTail(peek) =>
      s' == s.(c := if s.frontBlock != s.tailBlock then CReread(peek) else CDone(None))
    case CReread(peek) =>
      s' == SetBlock(s, s.frontBlock, b.(localTail := b.tail)).(
              c := if b.front != b.tail then CRead(peek) else CNext(peek))
    case CNext(peek) => s' == s.(c := if peek then CPeekNext(b.next) else CNextTail(b.next))
    case CPeekNext(n) =>
      && n < |s.blocks|
      && s' == s.(c := CDone(Some(s.blocks[n].data[s.blocks[n].front])))
    case CNextTail(n) =>
      && n < |s.blocks|
      && s' == SetBlock(s, n, s.blocks[n].(localTail := s.blocks[n].tail)).(c := CSetFront(n))
    case CSetFront(n) =>
      && |s.ring| > 0 && s.tpos > 0
      && s' == s.(frontBlock := n, c := CRead(false), ring := s.ring[1..] + [s.ring[0]], tpos := s.tpos - 1)
    case CRead(peek) =>
      s' == s.(c := if peek then CDone(Some(b.data[b.front])) else CPublish(b.data[b.front]))
    case CPublish(v) =>
      s' == SetBlock(s, s.frontBlock, b.(front := Wrap(b.front + 1, |b.data|))).(
              c := CDone(Some(v)), dequeued := s.dequeued + [v])
    case _ => false
  }

  /** The values of the blocks named by `order`, one block after the other. */
  ghost function Flat<T>(blocks: seq<Block<T>>, order: seq<nat>): seq<T>
    requires forall i | 0 <= i < |order| :: order[i] < |blocks| && BlockOk(blocks[order[i]])
  {
    if order == [] then [] else Items(blocks[order[0]]) + Flat(blocks, order[1..])
  }

  ghost predicate RingOk<T>(s: Core<T>)
    requires Shape(s)
  {
    && s.tpos < |s.ring|
    && (forall i | 0 <= i < |s.ring| :: s.ring[i] < |s.blocks|)
    && (forall i, j | 0 <= i < j < |s.ring| :: s.ring[i] != s.ring[j])
    && s.ring[0] == s.frontBlock && s.ring[s.tpos] == s.tailBlock
    && (forall i | 0 <= i < |s.ring| ::
          s.blocks[s.ring[i]].next == s.ring[if i + 1 < |s.ring| then i + 1 else 0])
    && (if s.p.PLink? then
          s.p.block + 1 == |s.blocks| == |s.ring| + 1 && (forall i | 0 <= i < |s.ring| :: s.ring[i] != s.p.block)
        else |s.blocks| == |s.ring|)
  }

  ghost function At<T>(s: Core<T>, i: nat): Block<T>
    requires Shape(s) && RingOk(s) && i < |s.ring|
  {
    s.blocks[s.ring[i]]
  }

  /** How full the block at place i is allowed to be. */
  ghost predicate FillOk<T>(s: Core<T>, i: nat)
    requires Shape(s) && RingOk(s) && i < |s.ring|
  {
    var b := At(s, i);
    && (0 < i < s.tpos ==> Full(b))
    && (0 < i == s.tpos ==> Used(b) >= 1 && (s.p.SawFull() ==> Full(b)))
    && (i == s.tpos + 1 && (s.p.PNextPublish? || s.p.PLinkPublish?) ==> Items(b) == [s.p.v])
    && (i > s.tpos && !(i == s.tpos + 1 && (s.p.PNextPublish? || s.p.PLinkPublish?)) ==> Used(b) == 0)
  }

  ghost predicate ProducerOk<T>(s: Core<T>)
    requires Shape(s) && RingOk(s)
  {
    var b := Tail(s);
    && Used(b) <= Dist(b.localFront, b.tail, |b.data|)
    && (s.p.PWrite? || s.p.PPublish? ==> Wrap(b.tail + 1, |b.data|) != b.localFront)
    && (s.p.PPublish? ==> b.data[b.tail] == s.p.v)
    && (s.p.AtNext() ==> s.tpos + 1 < |s.ring|)
    && (s.p.PNextWrite? || s.p.PNextTail? ==> At(s, s.tpos + 1).localFront == At(s, s.tpos + 1).tail)
    && (s.p.PNextTail? ==> At(s, s.tpos + 1).data[At(s, s.tpos + 1).tail] == s.p.v)
    && (s.p.PNextPublish? || s.p.PLinkPublish? ==>
          At(s, s.tpos + 1).localFront == At(s, s.tpos + 1).front)
    && (s.p.PLinkPublish? ==> s.ring[s.tpos + 1] == s.p.block)
    && (s.p.PLink? ==>
          var f := s.blocks[s.p.block];
          f.front == 0 && f.localFront == 0 && f.tail == 1 && f.next == b.next && f.data[0] == s.p.v)
  }

  ghost predicate ConsumerOk<T>(s: Core<T>)
    requires Shape(s) && RingOk(s)
  {
    var b := Front(s);
    && Dist(b.front, b.localTail, |b.data|) <= Used(b)
    && (s.c.CRead? || s.c.CPublish? ==> b.front != b.localTail)
    && (s.c.CPublish? ==> b.data[b.front] == s.c.v)
    && (s.c.CReread? || s.c.Advancing() ==> s.tpos > 0)
    && (s.c.Advancing() ==> Used(b) == 0)
    && (s.c.CPeekNext? || s.c.CNextTail? || s.c.CSetFront? ==> s.c.next == s.ring[1])
    && (s.c.CSetFront? ==>
          var n := At(s, 1);
          n.front != n.localTail && Dist(n.front, n.localTail, |n.data|) <= Used(n))
  }

  /** The values in the queue, oldest first. */
  ghost function Contents<T>(s: Core<T>): seq<T>
    requires Shape(s) && RingOk(s)
  {
    Flat(s.blocks, s.ring[..s.tpos + 1])
  }

  ghost predicate Inv<T>(s: Core<T>) {
    && Shape(s) && RingOk(s) && s.largest >= 2
    && (forall i | 0 <= i < |s.ring| :: FillOk(s, i))
    && ProducerOk(s) && ConsumerOk(s)
    && s.enqueued == s.dequeued + Contents(s)
  }

  // ---------- the items of one block ----------

  lemma ItemsKept<T>(b: Block<T>, b': Block<T>)
    requires BlockOk(b) && BlockOk(b') && |b'.data| == |b.data| && b'.front == b.front && b'.tail == b.tail
    requires forall i | 0 <= i < |b.data| && i != b.tail :: b'.data[i] == b.data[i]
    ensures Items(b') == Items(b)
  {
    forall k | 0 <= k < Used(b) ensures Items(b')[k] == Items(b)[k] {
      assert Wrap(b.front + k, |b.data|) != b.tail;
    }
  }

  lemma ItemsPushed<T>(b: Block<T>, b': Block<T>)
    requires BlockOk(b) && !Full(b) && b' == b.(tail := Wrap(b.tail + 1, |b.data|))
    ensures BlockOk(b') && Used(b') == Used(b) + 1 && Items(b') == Items(b) + [b.data[b.tail]]
  {
    assert Items(b')[Used(b)] == b.data[b.tail];
  }

  lemma ItemsPopped<T>(b: Block<T>, b': Block<T>)
    requires BlockOk(b) && Used(b) >= 1 && b' == b.(front := Wrap(b.front + 1, |b.data|))
    ensures BlockOk(b') && Used(b') == Used(b) - 1 && Items(b) == [b.data[b.front]] + Items(b')
  {
    assert Items(b)[0] == b.data[b.front];
    forall k | 0 <= k < Used(b') ensures Items(b')[k] == Items(b)[k + 1] {
      assert Wrap(b'.front + k, |b.data|) == Wrap(b.front + k + 1, |b.data|);
    }
  }

  // ---------- the items of many blocks ----------

  lemma {:induction false} FlatSame<T>(blocks: seq<Block<T>>, blocks': seq<Block<T>>, order: seq<nat>)
    requires forall i | 0 <= i < |order| ::
               && order[i] < |blocks| && BlockOk(blocks[order[i]])
               && order[i] < |blocks'| && BlockOk(blocks'[order[i]])
               && Items(blocks'[order[i]]) == Items(blocks[order[i]])
    ensures Flat(blocks', order) == Flat(blocks, order)
  {
    if order != [] { FlatSame(blocks, blocks', order[1..]); }
  }

  lemma {:induction false} FlatSnoc<T>(blocks: seq<Block<T>>, order: seq<nat>, x: nat)
    requires forall i | 0 <= i < |order| :: order[i] < |blocks| && BlockOk(blocks[order[i]])
    requires x < |blocks| && BlockOk(blocks[x])
    ensures Flat(blocks, order + [x]) == Flat(blocks, order) + Items(blocks[x])
  {
    if order == [] {
      assert Flat(blocks, [x]) == Items(blocks[x]) + Flat(blocks, [x][1..]);
    } else {
      assert (order + [x])[1..] == order[1..] + [x];
      FlatSnoc(blocks, order[1..], x);
      assert Flat(blocks, order + [x]) == Items(blocks[order[0]]) + Flat(blocks, order[1..] + [x]);
    }
  }

  // ---------- steps that rewrite one block ----------

  /** s' is s with the block at place k replaced by b, and possibly other program counters. */
  ghost predicate Edits<T>(s: Core<T>, s': Core<T>, k: nat, b: Block<T>)
    requires Shape(s) && RingOk(s) && k < |s.ring|
  {
    && BlockOk(b) && b.next == At(s, k).next
    && s'.blocks == s.blocks[s.ring[k] := b]
    && s'.ring == s.ring && s'.tpos == s.tpos && s'.largest == s.largest
    && s'.frontBlock == s.frontBlock && s'.tailBlock == s.tailBlock
    && (s'.p == s.p || (!s.p.PLink? && !s'.p.PLink?))
  }

  lemma EditKeepsRing<T>(s: Core<T>, s': Core<T>, k: nat, b: Block<T>)
    requires Shape(s) && RingOk(s) && k < |s.ring| && Edits(s, s', k, b)
    ensures Shape(s') && RingOk(s') && At(s', k) == b
    ensures forall i | 0 <= i < |s.ring| && i != k :: At(s', i) == At(s, i)
  {
    forall i | 0 <= i < |s.ring| ensures s'.blocks[s.ring[i]] == if i == k then b else At(s, i) {
    }
  }

  lemma ContentsKept<T>(s: Core<T>, s': Core<T>)
    requires Shape(s) && RingOk(s) && Shape(s') && RingOk(s')
    requires s'.tpos == s.tpos && s.tpos < |s'.ring| && s'.ring[..s.tpos + 1] == s.ring[..s.tpos + 1]
    requires forall i | 0 <= i <= s.tpos :: Items(At(s', i)) == Items(At(s, i))
    ensures Contents(s') == Contents(s)
  {
    var order := s.ring[..s.tpos + 1];
    forall i | 0 <= i < |order|
      ensures Items(s'.blocks[order[i]]) == Items(s.blocks[order[i]])
    {
      assert Items(At(s', i)) == Items(At(s, i));
    }
    FlatSame(s.blocks, s'.blocks, order);
  }

  // ---------- the producer ----------

  lemma EnqueueCallKeepsInv<T>(s: Core<T>, s': Core<T>, v: T, alloc: bool)
    requires Inv(s) && EnqueueCall(s, s', v, alloc)
    ensures Inv(s')
  {
    PcKeepsRing(s, s');
    forall i | 0 <= i < |s'.ring| ensures FillOk(s', i) {
      assert FillOk(s, i) && At(s', i) == At(s, i);
    }
    EnqueueCallKeepsThreads(s, s', v, alloc);
  }

  lemma EnqueueCallKeepsThreads<T>(s: Core<T>, s': Core<T>, v: T, alloc: bool)
    requires Shape(s) && RingOk(s) && Shape(s') && RingOk(s') && ProducerOk(s) && ConsumerOk(s)
    requires EnqueueCall(s, s', v, alloc) && forall i | 0 <= i < |s.ring| :: At(s', i) == At(s, i)
    ensures ProducerOk(s') && ConsumerOk(s')
  {
  }

  lemma ReadFrontKeepsInv<T>(s: Core<T>, s': Core<T>)
    requires Inv(s) && s.p.PReadFront? && ProducerStep(s, s')
    ensures Inv(s')
  {
    EditKeepsRing(s, s', s.tpos, Tail(s'));
    ItemsKept(Tail(s), Tail(s'));
    forall i | 0 <= i < |s'.ring| ensures FillOk(s', i) {
      assert FillOk(s, i);
      assert i != s.tpos ==> At(s', i) == At(s, i);
    }
    ReadFrontKeepsThreads(s, s');
    ContentsKept(s, s');
  }

  lemma ReadFrontKeepsThreads<T>(s: Core<T>, s': Core<T>)
    requires Shape(s) && RingOk(s) && Shape(s') && RingOk(s') && ProducerOk(s) && ConsumerOk(s)
    requires s.p.PReadFront? && ProducerStep(s, s')
    requires At(s', s.tpos) == Tail(s') && forall i | 0 <= i < |s.ring| && i != s.tpos :: At(s', i) == At(s, i)
    ensures ProducerOk(s') && ConsumerOk(s')
  {
  }

  lemma WriteKeepsInv<T>(s: Core<T>, s': Core<T>)
    requires Inv(s) && s.p.PWrite? && ProducerStep(s, s')
    ensures Inv(s')
  {
    EditKeepsRing(s, s', s.tpos, Tail(s'));
    ItemsKept(Tail(s), Tail(s'));
    forall i | 0 <= i < |s'.ring| ensures FillOk(s', i) {
      assert FillOk(s, i);
      assert i != s.tpos ==> At(s', i) == At(s, i);
    }
    WriteKeepsThreads(s, s');
    ContentsKept(s, s');
  }

  lemma WriteKeepsThreads<T>(s: Core<T>, s': Core<T>)
    requires Shape(s) && RingOk(s) && Shape(s') && RingOk(s') && ProducerOk(s) && ConsumerOk(s)
    requires s.p.PWrite? && ProducerStep(s, s')
    requires At(s', s.tpos) == Tail(s') && forall i | 0 <= i < |s.ring| && i != s.tpos :: At(s', i) == At(s, i)
    ensures ProducerOk(s') && ConsumerOk(s')
  {
  }

  lemma PublishKeepsInv<T>(s: Core<T>, s': Core<T>)
    requires Inv(s) && s.p.PPublish? && ProducerStep(s, s')
    ensures Inv(s')
  {
    EditKeepsRing(s, s', s.tpos, Tail(s'));
    ItemsPushed(Tail(s), Tail(s'));
    forall i | 0 <= i < |s'.ring| ensures FillOk(s', i) {
      assert FillOk(s, i);
      assert i != s.tpos ==> At(s', i) == At(s, i);
    }
    PublishKeepsThreads(s, s');
    ContentsPushed(s, s');
  }

  lemma PublishKeepsThreads<T>(s: Core<T>, s': Core<T>)
    requires Shape(s) && RingOk(s) && Shape(s') && RingOk(s') && ProducerOk(s) && ConsumerOk(s)
    requires s.p.PPublish? && ProducerStep(s, s')
    requires At(s', s.tpos) == Tail(s') && forall i | 0 <= i < |s.ring| && i != s.tpos :: At(s', i) == At(s, i)
    ensures ProducerOk(s') && ConsumerOk(s')
  {
  }

  /** The tail block gains one value, the blocks before it keep theirs. */
  lemma ContentsPushed<T>(s: Core<T>, s': Core<T>)
    requires Shape(s) && RingOk(s) && Shape(s') && RingOk(s')
    requires s'.tpos == s.tpos && s'.ring == s.ring
    requires forall i | 0 <= i < s.tpos :: Items(At(s', i)) == Items(At(s, i))
    requires Items(Tail(s')) == Items(Tail(s)) + [Tail(s).data[Tail(s).tail]]
    ensures Contents(s') == Contents(s) + [Tail(s).data[Tail(s).tail]]
  {
    var order := s.ring[..s.tpos];
    forall i | 0 <= i < |order|
      ensures Items(s'.blocks[order[i]]) == Items(s.blocks[order[i]])
    {
      assert Items(At(s', i)) == Items(At(s, i));
    }
    FlatSame(s.blocks, s'.blocks, order);
    ContentsSnoc(s);
    ContentsSnoc(s');
  }

  lemma ContentsSnoc<T>(s: Core<T>)
    requires Shape(s) && RingOk(s)
    ensures Contents(s) == Flat(s.blocks, s.ring[..s.tpos]) + Items(Tail(s))
  {
    assert s.ring[..s.tpos + 1] == s.ring[..s.tpos] + [s.tailBlock];
    FlatSnoc(s.blocks, s.ring[..s.tpos], s.tailBlock);
  }

  /** Steps that leave every block and the ring alone. */
  lemma PcKeepsRing<T>(s: Core<T>, s': Core<T>)
    requires Shape(s) && RingOk(s) && (s'.p == s.p || (!s.p.PLink? && !s'.p.PLink?))
    requires s'.blocks == s.blocks && s'.ring == s.ring && s'.tpos == s.tpos
    requires s'.frontBlock == s.frontBlock && s'.tailBlock == s.tailBlock
    ensures Shape(s') && RingOk(s') && Contents(s') == Contents(s)
    ensures forall i | 0 <= i < |s.ring| :: At(s', i) == At(s, i)
  {
  }

  lemma CheckNextKeepsInv<T>(s: Core<T>, s': Core<T>)
    requires Inv(s) && s.p.PCheckNext? && ProducerStep(s, s')
    ensures Inv(s')
  {
    PcKeepsRing(s, s');
    assert At(s, s.tpos).next == s.ring[if s.tpos + 1 < |s.ring| then s.tpos + 1 else 0];
    forall i | 0 <= i < |s'.ring| ensures FillOk(s', i) {
      assert FillOk(s, i);
    }
  }

  lemma NextFrontKeepsInv<T>(s: Core<T>, s': Core<T>)
    requires Inv(s) && s.p.PNextFront? && ProducerStep(s, s')
    ensures Inv(s')
  {
    var k := s.tpos + 1;
    assert At(s, s.tpos).next == s.ring[k] && FillOk(s, k);
    EditKeepsRing(s, s', k, s'.blocks[s.ring[k]]);
    ItemsKept(At(s, k), At(s', k));
    forall i | 0 <= i < |s'.ring| ensures FillOk(s', i) {
      assert FillOk(s, i);
      assert i != k ==> At(s', i) == At(s, i);
    }
    ContentsKept(s, s');
  }

  lemma NextWriteKeepsInv<T>(s: Core<T>, s': Core<T>)
    requires Inv(s) && s.p.PNextWrite? && ProducerStep(s, s')
    ensures Inv(s')
  {
    var k := s.tpos + 1;
    assert At(s, s.tpos).next == s.ring[k] && FillOk(s, k);
    EditKeepsRing(s, s', k, s'.blocks[s.ring[k]]);
    ItemsKept(At(s, k), At(s', k));
    forall i | 0 <= i < |s'.ring| ensures FillOk(s', i) {
      assert FillOk(s, i);
      assert i != k ==> At(s', i) == At(s, i);
    }
    ContentsKept(s, s');
  }

  lemma NextTailKeepsInv<T>(s: Core<T>, s': Core<T>)
    requires Inv(s) && s.p.PNextTail? && ProducerStep(s, s')
    ensures Inv(s')
  {
    var k := s.tpos + 1;
    assert At(s, s.tpos).next == s.ring[k] && FillOk(s, k);
    EditKeepsRing(s, s', k, s'.blocks[s.ring[k]]);
    ItemsPushed(At(s, k), At(s', k));
    forall i | 0 <= i < |s'.ring| ensures FillOk(s', i) {
      assert FillOk(s, i);
      assert i != k ==> At(s', i) == At(s, i);
    }
    ContentsKept(s, s');
  }

  /** The tail moves to the next block, which already holds the new value. */
  lemma AdvanceTailKeepsInv<T>(s: Core<T>, s': Core<T>)
    requires Inv(s) && (s.p.PNextPublish? || s.p.PLinkPublish?) && ProducerStep(s, s')
    ensures Inv(s')
  {
    var k := s.tpos + 1;
    assert At(s, s.tpos).next == s.ring[k] && FillOk(s, k) && FillOk(s, s.tpos);
    AdvanceTailKeepsRing(s, s');
    AdvanceTailKeepsThreads(s, s');
    forall i | 0 <= i < |s'.ring| ensures FillOk(s', i) {
      assert FillOk(s, i);
    }
  }

  lemma AdvanceTailKeepsThreads<T>(s: Core<T>, s': Core<T>)
    requires Shape(s) && RingOk(s) && Shape(s') && RingOk(s') && ProducerOk(s) && ConsumerOk(s)
    requires (s.p.PNextPublish? || s.p.PLinkPublish?) && ProducerStep(s, s')
    requires forall i | 0 <= i < |s.ring| :: At(s', i) == At(s, i)
    ensures ProducerOk(s') && ConsumerOk(s')
  {
  }

  lemma AdvanceTailKeepsRing<T>(s: Core<T>, s': Core<T>)
    requires Shape(s) && RingOk(s) && !s.p.PLink? && !s'.p.PLink? && s.tpos + 1 < |s.ring|
    requires s'.blocks == s.blocks && s'.ring == s.ring && s'.tpos == s.tpos + 1
    requires s'.frontBlock == s.frontBlock && s'.tailBlock == s.ring[s.tpos + 1]
    ensures Shape(s') && RingOk(s') && Contents(s') == Contents(s) + Items(At(s, s.tpos + 1))
    ensures forall i | 0 <= i < |s.ring| :: At(s', i) == At(s, i)
  {
    var k := s.tpos + 1;
    assert s.ring[..k + 1] == s.ring[..k] + [s.ring[k]];
    FlatSnoc(s.blocks, s.ring[..k], s.ring[k]);
  }

  /** A new block is prepared; it is not linked yet. */
  lemma AllocKeepsInv<T>(s: Core<T>, s': Core<T>)
    requires Inv(s) && s.p.PAlloc? && ProducerStep(s, s')
    ensures Inv(s')
  {
    AllocKeepsRing(s, s');
    forall i | 0 <= i < |s'.ring| ensures FillOk(s', i) {
      assert FillOk(s, i) && At(s', i) == At(s, i);
    }
    ContentsKept(s, s');
  }

  lemma AllocKeepsRing<T>(s: Core<T>, s': Core<T>)
    requires Shape(s) && RingOk(s) && s.largest >= 2 && s.p.PAlloc? && ProducerStep(s, s')
    ensures Shape(s') && RingOk(s') && s'.largest >= 2
  {
  }

  /** The new block goes into the circle right after the tail block. */
  ghost predicate Links<T>(s: Core<T>, s': Core<T>, f: nat)
    requires Shape(s) && RingOk(s)
  {
    var t := s.tpos;
    && s.p.PLink? && s.p.block == f && s'.p.PLinkPublish? && s.blocks[f].next == Tail(s).next
    && s'.blocks == s.blocks[s.tailBlock := Tail(s).(next := f)]
    && |s'.ring| == |s.ring| + 1
    && (forall i | 0 <= i <= t :: s'.ring[i] == s.ring[i])
    && s'.ring[t + 1] == f
    && (forall i | t + 1 < i < |s'.ring| :: s'.ring[i] == s.ring[i - 1])
    && s'.tpos == t && s'.frontBlock == s.frontBlock && s'.tailBlock == s.tailBlock
  }

  lemma LinkKeepsDistinct<T>(s: Core<T>, s': Core<T>, f: nat)
    requires Shape(s) && RingOk(s) && Links(s, s', f)
    ensures forall i, j | 0 <= i < j < |s'.ring| :: s'.ring[i] != s'.ring[j]
  {
    var t := s.tpos;
    forall i, j | 0 <= i < j < |s'.ring| ensures s'.ring[i] != s'.ring[j] {
      var i', j' := if i <= t then i else i - 1, if j <= t then j else j - 1;
      assert s.ring[i'] != f && s.ring[j'] != f;
      if i' != j' { assert s.ring[i'] != s.ring[j']; }
    }
  }

  lemma LinkKeepsNext<T>(s: Core<T>, s': Core<T>, f: nat, i: nat)
    requires Shape(s) && RingOk(s) && Links(s, s', f) && i < |s'.ring| && s'.ring[i] < |s'.blocks|
    ensures s'.blocks[s'.ring[i]].next == s'.ring[if i + 1 < |s'.ring| then i + 1 else 0]
  {
    var t, n := s.tpos, |s.ring|;
    if i < t {
      assert s.blocks[s.ring[i]].next == s.ring[i + 1];
      assert s.ring[i] != s.ring[t];
    } else if i == t + 1 {
      assert s.blocks[s.ring[t]].next == s.ring[if t + 1 < n then t + 1 else 0];
    } else if i > t + 1 {
      assert s.blocks[s.ring[i - 1]].next == s.ring[if i < n then i else 0];
      assert s.ring[t] != s.ring[i - 1];
    }
  }

  lemma LinkKeepsRing<T>(s: Core<T>, s': Core<T>, f: nat)
    requires Shape(s) && RingOk(s) && Links(s, s', f)
    ensures Shape(s') && RingOk(s')
    ensures forall i | 0 <= i <= s.tpos :: At(s', i) == At(s, i).(next := At(s', i).next)
    ensures At(s', s.tpos + 1) == s.blocks[f]
    ensures forall i | s.tpos + 1 < i < |s'.ring| :: At(s', i) == At(s, i - 1)
  {
    LinkKeepsDistinct(s, s', f);
    forall i | 0 <= i < |s'.ring|
      ensures s'.blocks[s'.ring[i]].next == s'.ring[if i + 1 < |s'.ring| then i + 1 else 0]
    {
      LinkKeepsNext(s, s', f, i);
    }
    forall i | s.tpos + 1 < i < |s'.ring| ensures s'.ring[i] != s.tailBlock && s'.ring[i] == s.ring[i - 1] {
      assert s.ring[s.tpos] != s.ring[i - 1];
    }
  }

  lemma LinkLinks<T>(s: Core<T>, s': Core<T>)
    requires Shape(s) && RingOk(s) && ProducerOk(s) && s.p.PLink? && ProducerStep(s, s')
    ensures Links(s, s', s.p.block) && s'.largest == s.largest && s'.enqueued == s.enqueued && s'.dequeued == s.dequeued
  {
  }

  lemma LinkKeepsInv<T>(s: Core<T>, s': Core<T>)
    requires Inv(s) && s.p.PLink? && ProducerStep(s, s')
    ensures Inv(s')
  {
    LinkLinks(s, s');
    LinkKeepsRing(s, s', s.p.block);
    LinkKeepsRest(s, s');
    LinkKeepsContents(s, s');
  }

  lemma LinkKeepsContents<T>(s: Core<T>, s': Core<T>)
    requires Shape(s) && RingOk(s) && Shape(s') && RingOk(s') && s'.tpos == s.tpos < |s'.ring|
    requires forall i | 0 <= i <= s.tpos :: s'.ring[i] == s.ring[i] && At(s', i) == At(s, i).(next := At(s', i).next)
    ensures Contents(s') == Contents(s)
  {
    assert s'.ring[..s.tpos + 1] == s.ring[..s.tpos + 1];
    forall i | 0 <= i <= s.tpos ensures Items(At(s', i)) == Items(At(s, i)) {
    }
    ContentsKept(s, s');
  }

  lemma LinkKeepsRest<T>(s: Core<T>, s': Core<T>)
    requires Inv(s) && s.p.PLink? && ProducerStep(s, s') && Shape(s') && RingOk(s')
    requires forall i | 0 <= i <= s.tpos :: At(s', i) == At(s, i).(next := At(s', i).next)
    requires At(s', s.tpos + 1) == s.blocks[s.p.block]
    requires forall i | s.tpos + 1 < i < |s'.ring| :: At(s', i) == At(s, i - 1)
    ensures ProducerOk(s') && ConsumerOk(s') && forall i | 0 <= i < |s'.ring| :: FillOk(s', i)
  {
    forall i | 0 <= i < |s'.ring| ensures FillOk(s', i) {
      if i <= s.tpos { assert FillOk(s, i); }
      else if i == s.tpos + 1 { assert Items(At(s', i)) == [s.p.v]; }
      else { assert FillOk(s, i - 1); }
    }
    assert At(s', 0) == At(s, 0).(next := At(s', 0).next);
    assert At(s', s.tpos) == At(s, s.tpos).(next := At(s', s.tpos).next);
  }

  lemma ProducerKeepsInv<T>(s: Core<T>, s': Core<T>)
    requires Inv(s) && ProducerStep(s, s')
    ensures Inv(s')
  {
    match s.p
    case PReadFront(_, _) => ReadFrontKeepsInv(s, s');
    case PWrite(_) => WriteKeepsInv(s, s');
    case PPublish(_) => PublishKeepsInv(s, s');
    case PCheckNext(_, _) => CheckNextKeepsInv(s, s');
    case PNextFront(_) => NextFrontKeepsInv(s, s');
    case PNextWrite(_) => NextWriteKeepsInv(s, s');
    case PNextTail(_) => NextTailKeepsInv(s, s');
    case PAlloc(_) => AllocKeepsInv(s, s');
    case PLink(_, _) => LinkKeepsInv(s, s');
    case PNextPublish(_) => AdvanceTailKeepsInv(s, s');
    case PLinkPublish(_, _) => AdvanceTailKeepsInv(s, s');
  }

  // ---------- the consumer ----------

  lemma DequeueCallKeepsInv<T>(s: Core<T>, s': Core<T>, peek: bool)
    requires Inv(s) && DequeueCall(s, s', peek)
    ensures Inv(s')
  {
    LookKeepsRest(s, s');
  }

  /** Rewriting a shadow of the consumer does not concern the producer or the values. */
  lemma ShadowEdit<T>(s: Core<T>, s': Core<T>, k: nat, b: Block<T>)
    requires Shape(s) && RingOk(s) && ProducerOk(s) && (forall i | 0 <= i < |s.ring| :: FillOk(s, i))
    requires k < |s.ring| && Edits(s, s', k, b) && s'.p == s.p && b == At(s, k).(localTail := b.localTail)
    ensures Shape(s') && RingOk(s') && ProducerOk(s') && Contents(s') == Contents(s)
    ensures forall i | 0 <= i < |s'.ring| :: FillOk(s', i)
    ensures At(s', k) == b && forall i | 0 <= i < |s.ring| && i != k :: At(s', i) == At(s, i)
  {
    EditKeepsRing(s, s', k, b);
    ItemsKept(At(s, k), b);
    ContentsKept(s, s');
    ShadowKeepsProducer(s, s');
    forall i | 0 <= i < |s'.ring| ensures FillOk(s', i) {
      ShadowKeepsFill(s, s', i);
    }
  }

  /** Shadows of the consumer aside, the block at place i is the same. */
  ghost predicate ShadowOnly<T>(s: Core<T>, s': Core<T>, i: nat)
    requires Shape(s) && RingOk(s) && Shape(s') && RingOk(s') && i < |s.ring| == |s'.ring|
  {
    At(s', i) == At(s, i).(localTail := At(s', i).localTail) && Items(At(s', i)) == Items(At(s, i))
  }

  lemma ShadowKeepsFill<T>(s: Core<T>, s': Core<T>, i: nat)
    requires Shape(s) && RingOk(s) && Shape(s') && RingOk(s') && i < |s.ring| == |s'.ring|
    requires s'.tpos == s.tpos && s'.p == s.p && ShadowOnly(s, s', i) && FillOk(s, i)
    ensures FillOk(s', i)
  {
  }

  lemma ShadowKeepsProducer<T>(s: Core<T>, s': Core<T>)
    requires Shape(s) && RingOk(s) && Shape(s') && RingOk(s') && ProducerOk(s)
    requires |s'.ring| == |s.ring| && s'.ring == s.ring && s'.tpos == s.tpos && s'.p == s.p && |s'.blocks| == |s.blocks|
    requires s'.tailBlock == s.tailBlock
    requires forall i | 0 <= i < |s.ring| :: ShadowOnly(s, s', i)
    requires s.p.PLink? ==> s'.blocks[s.p.block] == s.blocks[s.p.block]
    ensures ProducerOk(s')
  {
    assert ShadowOnly(s, s', s.tpos);
    if s.p.AtNext() { assert ShadowOnly(s, s', s.tpos + 1); }
  }

  /** The consumer refreshes its shadow of the tail of its own block. */
  lemma ReadTailKeepsInv<T>(s: Core<T>, s': Core<T>)
    requires Inv(s) && (s.c.CReadTail? || s.c.CReread?) && ConsumerStep(s, s')
    ensures Inv(s')
  {
    ShadowEdit(s, s', 0, Front(s'));
  }

  /** The consumer refreshes its shadow of the tail of the next block, which cannot be empty. */
  lemma NextTailReadKeepsInv<T>(s: Core<T>, s': Core<T>)
    requires Inv(s) && s.c.CNextTail? && ConsumerStep(s, s')
    ensures Inv(s')
  {
    assert FillOk(s, 1);
    ShadowEdit(s, s', 1, s'.blocks[s.ring[1]]);
  }

  /** Steps of the consumer that only read. */
  lemma LookKeepsInv<T>(s: Core<T>, s': Core<T>)
    requires Inv(s) && (s.c.CCheckTail? || s.c.CNext? || s.c.CPeekNext? || s.c.CRead?) && ConsumerStep(s, s')
    ensures Inv(s')
  {
    LookKeepsRest(s, s');
    assert s.blocks[s.ring[0]].next == s.ring[if 1 < |s.ring| then 1 else 0];
  }

  lemma LookKeepsRest<T>(s: Core<T>, s': Core<T>)
    requires Inv(s) && s' == s.(c := s'.c)
    ensures Shape(s') && RingOk(s') && ProducerOk(s') && Contents(s') == Contents(s)
    ensures forall i | 0 <= i < |s'.ring| :: FillOk(s', i)
    ensures forall i | 0 <= i < |s.ring| :: At(s', i) == At(s, i)
  {
    PcKeepsRing(s, s');
    forall i | 0 <= i < |s'.ring| ensures FillOk(s', i) {
      assert FillOk(s, i);
    }
  }

  /** The front moves one block ahead and the circle is listed from there. */
  lemma RotateKeepsRing<T>(s: Core<T>, s': Core<T>)
    requires Shape(s) && RingOk(s) && s.tpos > 0 && s'.p == s.p
    requires s'.blocks == s.blocks && s'.tailBlock == s.tailBlock && s'.tpos == s.tpos - 1
    requires s'.ring == s.ring[1..] + [s.ring[0]] && s'.frontBlock == s.ring[1]
    requires Used(At(s, 0)) == 0
    ensures Shape(s') && RingOk(s') && Contents(s') == Contents(s)
    ensures forall i | 0 < i < |s.ring| :: At(s', i - 1) == At(s, i)
    ensures At(s', |s.ring| - 1) == At(s, 0)
  {
    RotateKeepsNext(s, s');
    assert s.ring[..s.tpos + 1][1..] == s'.ring[..s'.tpos + 1];
  }

  lemma RotateKeepsNext<T>(s: Core<T>, s': Core<T>)
    requires Shape(s) && RingOk(s) && s.tpos > 0 && s'.p == s.p
    requires s'.blocks == s.blocks && s'.tailBlock == s.tailBlock && s'.tpos == s.tpos - 1
    requires s'.ring == s.ring[1..] + [s.ring[0]] && s'.frontBlock == s.ring[1]
    ensures Shape(s') && RingOk(s')
    ensures forall i | 0 <= i < |s.ring| :: s'.ring[i] == s.ring[if i + 1 < |s.ring| then i + 1 else 0]
  {
    var n := |s.ring|;
    forall i | 0 <= i < n ensures s'.ring[i] == s.ring[if i + 1 < n then i + 1 else 0] {
    }
    forall i | 0 <= i < n ensures s'.blocks[s'.ring[i]].next == s'.ring[if i + 1 < n then i + 1 else 0] {
      var k := if i + 1 < n then i + 1 else 0;
      assert s.blocks[s.ring[k]].next == s.ring[if k + 1 < n then k + 1 else 0];
    }
  }

  lemma RotateKeepsFill<T>(s: Core<T>, s': Core<T>)
    requires Shape(s) && RingOk(s) && Shape(s') && RingOk(s') && |s'.ring| == |s.ring| && s'.tpos == s.tpos - 1
    requires s'.p == s.p && Used(At(s, 0)) == 0 && At(s', |s.ring| - 1) == At(s, 0)
    requires forall i | 0 < i < |s.ring| :: At(s', i - 1) == At(s, i)
    requires forall i | 0 <= i < |s.ring| :: FillOk(s, i)
    requires !(s.tpos == |s.ring| - 1 && s.p.AtNext())
    ensures forall i | 0 <= i < |s'.ring| :: FillOk(s', i)
  {
    forall i | 0 <= i < |s'.ring| ensures FillOk(s', i) {
      if i + 1 < |s.ring| { assert FillOk(s, i + 1) && At(s', i) == At(s, i + 1); }
    }
  }

  lemma RotateKeepsThreads<T>(s: Core<T>, s': Core<T>)
    requires Shape(s) && RingOk(s) && Shape(s') && RingOk(s') && ProducerOk(s) && ConsumerOk(s)
    requires s.c.CSetFront? && ConsumerStep(s, s') && |s'.ring| == |s.ring|
    requires forall i | 0 < i < |s.ring| :: At(s', i - 1) == At(s, i)
    ensures ProducerOk(s') && ConsumerOk(s')
  {
    assert s.tpos > 0 ==> At(s', s.tpos - 1) == At(s, s.tpos);
  }

  lemma SetFrontKeepsInv<T>(s: Core<T>, s': Core<T>)
    requires Inv(s) && s.c.CSetFront? && ConsumerStep(s, s')
    ensures Inv(s')
  {
    assert FillOk(s, 1) && FillOk(s, 0);
    RotateKeepsRing(s, s');
    RotateKeepsFill(s, s');
    RotateKeepsThreads(s, s');
  }

  lemma CPublishKeepsInv<T>(s: Core<T>, s': Core<T>)
    requires Inv(s) && s.c.CPublish? && ConsumerStep(s, s')
    ensures Inv(s')
  {
    EditKeepsRing(s, s', 0, Front(s'));
    ItemsPopped(Front(s), Front(s'));
    PopKeepsRest(s, s');
    forall i | 0 < i <= s.tpos ensures Items(At(s', i)) == Items(At(s, i)) {
    }
    ContentsPopped(s, s');
  }

  lemma PopKeepsRest<T>(s: Core<T>, s': Core<T>)
    requires Inv(s) && Shape(s') && RingOk(s') && Edits(s, s', 0, Front(s')) && s'.p == s.p
    requires forall i | 0 < i < |s.ring| :: At(s', i) == At(s, i)
    requires Front(s') == Front(s).(front := Front(s').front) && Used(Front(s')) <= Used(Front(s))
    ensures ProducerOk(s') && forall i | 0 <= i < |s'.ring| :: FillOk(s', i)
  {
    forall i | 0 <= i < |s'.ring| ensures FillOk(s', i) {
      assert FillOk(s, i);
    }
    assert s.tpos != 0 ==> At(s', s.tpos) == At(s, s.tpos);
  }

  lemma ContentsFirst<T>(s: Core<T>)
    requires Shape(s) && RingOk(s)
    ensures Contents(s) == Items(Front(s)) + Flat(s.blocks, s.ring[1..s.tpos + 1])
  {
    assert s.ring[..s.tpos + 1][1..] == s.ring[1..s.tpos + 1];
  }

  lemma ContentsPopped<T>(s: Core<T>, s': Core<T>)
    requires Shape(s) && RingOk(s) && Shape(s') && RingOk(s')
    requires s'.tpos == s.tpos && s'.ring == s.ring && Used(Front(s)) >= 1
    requires forall i | 0 < i <= s.tpos :: Items(At(s', i)) == Items(At(s, i))
    requires Items(Front(s)) == [Front(s).data[Front(s).front]] + Items(Front(s'))
    ensures Contents(s) == [Front(s).data[Front(s).front]] + Contents(s')
  {
    RestSame(s, s');
    ContentsFirst(s);
    ContentsFirst(s');
    Regroup([Front(s).data[Front(s).front]], Items(Front(s')), Flat(s.blocks, s.ring[1..s.tpos + 1]));
  }

  lemma Regroup<T>(a: seq<T>, b: seq<T>, c: seq<T>)
    ensures a + b + c == a + (b + c)
  {
  }

  lemma RestSame<T>(s: Core<T>, s': Core<T>)
    requires Shape(s) && RingOk(s) && Shape(s') && RingOk(s') && s'.tpos == s.tpos && s'.ring == s.ring
    requires forall i | 0 < i <= s.tpos :: Items(At(s', i)) == Items(At(s, i))
    ensures Flat(s'.blocks, s.ring[1..s.tpos + 1]) == Flat(s.blocks, s.ring[1..s.tpos + 1])
  {
    var order := s.ring[1..s.tpos + 1];
    forall i | 0 <= i < |order|
      ensures Items(s'.blocks[order[i]]) == Items(s.blocks[order[i]])
    {
      assert Items(At(s', i + 1)) == Items(At(s, i + 1));
    }
    FlatSame(s.blocks, s'.blocks, order);
  }

  lemma ConsumerKeepsInv<T>(s: Core<T>, s': Core<T>)
    requires Inv(s) && ConsumerStep(s, s')
    ensures Inv(s')
  {
    match s.c
    case CReadTail(_) => ReadTailKeepsInv(s, s');
    case CReread(_) => ReadTailKeepsInv(s, s');
    case CNextTail(_) => NextTailReadKeepsInv(s, s');
    case CSetFront(_) => SetFrontKeepsInv(s, s');
    case CPublish(_) => CPublishKeepsInv(s, s');
    case _ => LookKeepsInv(s, s');
  }

  // ---------- the first state ----------

  /** How many blocks of which size hold `maxSize` values, with blocks of at most `maxBlock` slots: one block, or
      one more than the least number of blocks that are large enough together. */
  ghost predicate Layout(maxSize: nat, maxBlock: nat, count: nat, size: nat) {
    && maxSize > 0 && maxBlock >= 2 && PowersOfTwo.IsPow2(maxBlock)
    && exists p: nat :: PowersOfTwo.LeastPow2(maxSize + 1, p) && LayoutFor(maxSize, maxBlock, count, size, p)
  }

  ghost predicate LayoutFor(maxSize: nat, maxBlock: nat, count: nat, size: nat, p: nat)
    requires maxBlock >= 2
  {
    if p > maxBlock * 2 then
      size == maxBlock && count >= 2 && Times(count - 2, maxBlock - 1) < maxSize <= Times(count - 1, maxBlock - 1)
    else size == p && count == 1
  }

  /** n times k, counted out. */
  function Times(n: nat, k: nat): nat {
    if n == 0 then 0 else Times(n - 1, k) + k
  }

  lemma {:induction false} TimesIs(n: nat, k: nat)
    ensures Times(n, k) == n * k
  {
    if n > 0 {
      TimesIs(n - 1, k);
      assert n * k == (n - 1) * k + k;
    }
  }

  ghost predicate InitCore<T>(s: Core<T>, maxSize: nat) {
    && Layout(maxSize, s.maxBlock, |s.blocks|, s.largest)
    && (forall i | 0 <= i < |s.blocks| ::
          && |s.blocks[i].data| == s.largest
          && s.blocks[i] == Block(0, 0, 0, 0, if i + 1 < |s.blocks| then i + 1 else 0, s.blocks[i].data))
    && s.frontBlock == 0 && s.tailBlock == 0
    && s.p == PIdle && s.c == CIdle
    && |s.ring| == |s.blocks| && (forall i | 0 <= i < |s.ring| :: s.ring[i] == i)
    && s.tpos == 0 && s.enqueued == [] && s.dequeued == []
  }

  /** `(maxSize + 2M - 3) / (M - 1)` is one more than `maxSize / (M - 1)` rounded up. */
  lemma BlockCount(maxSize: nat, maxBlock: nat)
    requires maxSize > 0 && maxBlock >= 2
    ensures var n, d := (maxSize + maxBlock * 2 - 3) / (maxBlock - 1), maxBlock - 1;
            n >= 2 && Times(n - 2, d) < maxSize <= Times(n - 1, d)
  {
    var d := maxBlock - 1;
    var q, r := (maxSize - 1) / d, (maxSize - 1) % d;
    assert maxSize - 1 == d * q + r;
    assert maxSize + maxBlock * 2 - 3 == d * (q + 2) + r;
    Modular.Unique(maxSize + maxBlock * 2 - 3, d, q + 2, r);
    assert (q + 1) * d == d * q + d && q * d == d * q;
    TimesIs(q, d);
    TimesIs(q + 1, d);
  }

  lemma InitRing<T>(s: Core<T>, maxSize: nat)
    requires InitCore(s, maxSize) && |s.blocks| >= 1 && s.largest >= 2
    ensures Shape(s) && RingOk(s) && ProducerOk(s) && ConsumerOk(s) && Contents(s) == []
    ensures forall i | 0 <= i < |s.ring| :: FillOk(s, i)
  {
    assert s.ring[..1] == [0];
    assert Flat(s.blocks, [0]) == Items(s.blocks[0]) + Flat(s.blocks, [0][1..]);
    forall i | 0 <= i < |s.ring| ensures FillOk(s, i) {
    }
  }

  lemma InitCapacity<T>(s: Core<T>, maxSize: nat)
    requires InitCore(s, maxSize)
    ensures |s.blocks| >= 1 && s.largest >= 2 && CapacityOk(s, maxSize)
  {
    if |s.blocks| == 1 { assert OneSuffices(s, maxSize); } else { assert AllButOneSuffice(s, maxSize); }
  }

  lemma InitInv<T>(s: Core<T>, maxSize: nat)
    requires InitCore(s, maxSize)
    ensures Inv(s) && CapacityOk(s, maxSize)
  {
    InitCapacity(s, maxSize);
    InitRing(s, maxSize);
  }

  // ---------- capacity ----------

  ghost predicate OneSuffices<T>(s: Core<T>, maxSize: nat) {
    s.largest > maxSize && forall i | 0 <= i < |s.blocks| :: |s.blocks[i].data| > maxSize
  }

  ghost predicate AllButOneSuffice<T>(s: Core<T>, maxSize: nat) {
    && s.largest == s.maxBlock && (forall i | 0 <= i < |s.blocks| :: |s.blocks[i].data| == s.maxBlock)
    && |s.ring| >= 1 && s.maxBlock >= 2 && Times(|s.ring| - 1, s.maxBlock - 1) >= maxSize > 0
  }

  ghost predicate CapacityOk<T>(s: Core<T>, maxSize: nat) {
    OneSuffices(s, maxSize) || AllButOneSuffice(s, maxSize)
  }

  /** No step shrinks a block or the circle; a new block is twice as large as the largest so far, until that is as large
      as blocks become. */
  ghost predicate SizesGrow<T>(s: Core<T>, s': Core<T>) {
    && |s'.blocks| >= |s.blocks| && (forall i | 0 <= i < |s.blocks| :: |s'.blocks[i].data| == |s.blocks[i].data|)
    && (forall i | |s.blocks| <= i < |s'.blocks| :: |s'.blocks[i].data| == s'.largest)
    && s'.maxBlock == s.maxBlock && |s.ring| <= |s'.ring| <= |s.ring| + 1
    && s'.largest == if |s'.blocks| > |s.blocks| && s.largest < s.maxBlock then 2 * s.largest else s.largest
  }

  lemma SizesKept<T(!new)>(s: Core<T>, s': Core<T>)
    requires Inv(s) && CoreNext(s, s')
    ensures SizesGrow(s, s')
  {
    if ProducerStep(s, s') { ProducerSizes(s, s'); }
    else if ConsumerStep(s, s') { ConsumerSizes(s, s'); }
  }

  lemma ProducerSizes<T>(s: Core<T>, s': Core<T>)
    requires Shape(s) && RingOk(s) && ProducerStep(s, s')
    ensures SizesGrow(s, s')
  {
  }

  lemma ConsumerSizes<T>(s: Core<T>, s': Core<T>)
    requires Shape(s) && RingOk(s) && ConsumerStep(s, s')
    ensures SizesGrow(s, s')
  {
  }

  lemma CapacityGrows<T>(s: Core<T>, s': Core<T>, maxSize: nat)
    requires s.largest >= 2 && |s.ring| >= 1 && CapacityOk(s, maxSize) && SizesGrow(s, s')
    ensures CapacityOk(s', maxSize)
  {
    if OneSuffices(s, maxSize) {
      assert OneSuffices(s', maxSize);
    } else {
      assert AllButOneSuffice(s', maxSize);
    }
  }

  lemma CapacityKept<T(!new)>(s: Core<T>, s': Core<T>, maxSize: nat)
    requires Inv(s) && CapacityOk(s, maxSize) && CoreNext(s, s')
    ensures CapacityOk(s', maxSize)
  {
    SizesKept(s, s');
    CapacityGrows(s, s', maxSize);
  }

  ghost predicate EachUsed<T>(blocks: seq<Block<T>>, order: seq<nat>, each: nat) {
    forall i | 0 <= i < |order| :: order[i] < |blocks| && BlockOk(blocks[order[i]]) && Used(blocks[order[i]]) >= each
  }

  lemma FlatStep<T>(blocks: seq<Block<T>>, order: seq<nat>, each: nat)
    requires order != [] && EachUsed(blocks, order, each)
    ensures EachUsed(blocks, order[1..], each) && |Flat(blocks, order)| >= |Flat(blocks, order[1..])| + each
  {
    forall i | 0 <= i < |order[1..]|
      ensures order[1..][i] < |blocks| && BlockOk(blocks[order[1..][i]]) && Used(blocks[order[1..][i]]) >= each
    {
      assert order[1..][i] == order[i + 1];
    }
  }

  /** Blocks that each hold at least `each` values hold as many times more together. */
  lemma {:induction false} FlatAtLeast<T>(blocks: seq<Block<T>>, order: seq<nat>, each: nat)
    requires EachUsed(blocks, order, each)
    ensures |Flat(blocks, order)| >= Times(|order|, each)
  {
    if order != [] {
      FlatStep(blocks, order, each);
      FlatAtLeast(blocks, order[1..], each);
    }
  }

  /** All blocks but the front one are full. */
  lemma OthersFull<T>(s: Core<T>, each: nat)
    requires Inv(s) && s.tpos + 1 == |s.ring| && s.tpos > 0 && s.p.SawFull()
    requires forall i | 0 <= i < |s.blocks| :: |s.blocks[i].data| > each
    ensures |Contents(s)| >= Times(|s.ring| - 1, each)
  {
    assert s.ring[..s.tpos + 1] == s.ring;
    var others := s.ring[1..];
    forall i | 0 <= i < |others|
      ensures others[i] < |s.blocks| && BlockOk(s.blocks[others[i]]) && Used(s.blocks[others[i]]) >= each
    {
      assert FillOk(s, i + 1) && At(s, i + 1) == s.blocks[others[i]];
    }
    assert EachUsed(s.blocks, others, each);
    FlatAtLeast(s.blocks, others, each);
  }

  /** Seen from the producer, a queue with no free block ahead of a full tail block holds maxSize values. */
  lemma NoRoomAhead<T>(s: Core<T>, maxSize: nat)
    requires Inv(s) && CapacityOk(s, maxSize) && s.tpos + 1 == |s.ring|
    requires s.tpos > 0 ==> s.p.SawFull()
    requires s.tpos == 0 ==> Full(Tail(s))
    ensures |Contents(s)| >= maxSize
  {
    if s.tpos == 0 {
      OneBlock(s);
    } else if OneSuffices(s, maxSize) {
      OthersFull(s, maxSize);
      TimesIs(|s.ring| - 1, maxSize);
      Modular.AtLeastOneTimes(maxSize, |s.ring| - 1);
    } else {
      OthersFull(s, s.maxBlock - 1);
    }
  }

  // ---------- whole runs ----------

  /** The queue with two observations: whether it was empty at some moment of the consumer's current (or
      last) call, and whether it held `maxSize` values at some moment of the producer's. */
  datatype State<T> = State(core: Core<T>, maxSize: nat, emptySeen: bool, fullSeen: bool)

  ghost function Count<T>(s: Core<T>): int {
    |s.enqueued| - |s.dequeued|
  }

  /** One step of either thread. */
  ghost predicate CoreNext<T(!new)>(s: Core<T>, s': Core<T>) {
    && Shape(s)
    && (|| (exists v, alloc :: EnqueueCall(s, s', v, alloc))
        || ProducerStep(s, s')
        || (exists peek :: DequeueCall(s, s', peek))
        || ConsumerStep(s, s'))
  }

  ghost predicate Starts<T>(s: Core<T>, s': Core<T>, consumer: bool) {
    if consumer then s.c.Resting() && !s'.c.Resting() else s.p.Resting() && !s'.p.Resting()
  }

  ghost predicate Next<T(!new)>(s: State<T>, s': State<T>) {
    && CoreNext(s.core, s'.core)
    && s'.maxSize == s.maxSize
    && (s'.emptySeen <==> (s.emptySeen && !Starts(s.core, s'.core, true)) || Count(s'.core) == 0)
    && (s'.fullSeen <==> (s.fullSeen && !Starts(s.core, s'.core, false)) || Count(s'.core) >= s.maxSize)
  }

  ghost predicate Init<T>(s: State<T>) {
    InitCore(s.core, s.maxSize) && s.emptySeen && !s.fullSeen
  }

  ghost predicate Run<T(!new)>(run: seq<State<T>>) {
    |run| > 0 && forall i | 0 <= i < |run| :: Follows(run, i)
  }

  /** The first state is an initial one, every other is one step after the one before. */
  ghost predicate Follows<T(!new)>(run: seq<State<T>>, i: nat)
    requires i < |run|
  {
    if i == 0 then Init(run[0]) else Next(run[i - 1], run[i])
  }

  ghost predicate Reachable<T(!new)>(s: State<T>) {
    exists run: seq<State<T>> :: Run(run) && run[|run| - 1] == s
  }

  ghost predicate StateInv<T>(s: State<T>) {
    && Inv(s.core) && CapacityOk(s.core, s.maxSize)
    && (Count(s.core) == 0 ==> s.emptySeen)
    && (Count(s.core) >= s.maxSize ==> s.fullSeen)
    && (s.core.c.CCheckTail? && s.core.tpos == 0 ==> s.emptySeen)
    && (s.core.p.PCheckNext? && |s.core.ring| == 1 ==> s.fullSeen)
  }

  lemma CoreKeepsInv<T(!new)>(s: Core<T>, s': Core<T>)
    requires Inv(s) && CoreNext(s, s')
    ensures Inv(s')
  {
    if ProducerStep(s, s') {
      ProducerKeepsInv(s, s');
    } else if ConsumerStep(s, s') {
      ConsumerKeepsInv(s, s');
    } else if exists v, alloc :: EnqueueCall(s, s', v, alloc) {
      var v, alloc :| EnqueueCall(s, s', v, alloc);
      EnqueueCallKeepsInv(s, s', v, alloc);
    } else {
      var peek :| DequeueCall(s, s', peek);
      DequeueCallKeepsInv(s, s', peek);
    }
  }

  /** How the consumer gets to compare front and tail block. */
  lemma ToCheckTail<T(!new)>(s: Core<T>, s': Core<T>)
    requires CoreNext(s, s') && s'.c.CCheckTail?
    ensures Shape(s) && (s.c == s'.c || (ConsumerStep(s, s') && s.c.CReadTail?))
    ensures s.c == s'.c ==> s.tpos <= s'.tpos
    ensures s.c.CReadTail? ==> s'.frontBlock < |s'.blocks| && Front(s').front == Front(s').tail
  {
  }

  /** A consumer that finds its block empty while it is the last one has found the queue empty. */
  lemma EmptySeenKept<T(!new)>(s: State<T>, s': State<T>)
    requires StateInv(s) && Next(s, s') && Inv(s'.core)
    ensures s'.core.c.CCheckTail? && s'.core.tpos == 0 ==> s'.emptySeen
  {
    if s'.core.c.CCheckTail? && s'.core.tpos == 0 {
      ToCheckTail(s.core, s'.core);
      if s.core.c != s'.core.c { OneBlock(s'.core); }
    }
  }

  lemma FullSeenKept<T(!new)>(s: State<T>, s': State<T>)
    requires StateInv(s) && Next(s, s') && Inv(s'.core) && CapacityOk(s'.core, s'.maxSize)
    ensures s'.core.p.PCheckNext? && |s'.core.ring| == 1 ==> s'.fullSeen
  {
    WhoMoved(s.core, s'.core);
    if s'.core.p.PCheckNext? && |s'.core.ring| == 1 && s.core.p != s'.core.p {
      assert s.core.p.PReadFront? && ProducerStep(s.core, s'.core);
      OneBlock(s'.core);
      NoRoomAhead(s'.core, s'.maxSize);
    }
  }

  lemma OneBlock<T>(s: Core<T>)
    requires Inv(s) && s.tpos == 0
    ensures Count(s) == |Contents(s)| == Used(Front(s))
  {
    assert s.ring[..1] == [s.ring[0]];
    assert Flat(s.blocks, [s.ring[0]]) == Items(Front(s)) + Flat(s.blocks, [s.ring[0]][1..]);
  }

  lemma {:induction false} RunInv<T(!new)>(run: seq<State<T>>, i: nat)
    requires Run(run) && i < |run|
    ensures StateInv(run[i])
  {
    assert Follows(run, i);
    if i == 0 {
      InitInv(run[0].core, run[0].maxSize);
    } else {
      RunInv(run, i - 1);
      var s, s' := run[i - 1], run[i];
      CoreKeepsInv(s.core, s'.core);
      CapacityKept(s.core, s'.core, s.maxSize);
      EmptySeenKept(s, s');
      FullSeenKept(s, s');
    }
  }

  lemma ReachableInv<T(!new)>(s: State<T>)
    requires Reachable(s)
    ensures StateInv(s)
  {
    var run: seq<State<T>> :| Run(run) && run[|run| - 1] == s;
    RunInv(run, |run| - 1);
  }

  lemma ReachableNext<T(!new)>(s: State<T>, s': State<T>)
    requires Reachable(s) && Next(s, s')
    ensures Reachable(s')
  {
    var run: seq<State<T>> :| Run(run) && run[|run| - 1] == s;
    var run' := run + [s'];
    forall i | 0 <= i < |run'| ensures Follows(run', i) {
      assert i < |run| ==> Follows(run, i);
    }
    assert Run(run') && run'[|run'| - 1] == s';
  }

  /** A step of one thread leaves the other thread's position and results alone. */
  lemma WhoMoved<T(!new)>(s: Core<T>, s': Core<T>)
    requires CoreNext(s, s')
    ensures s'.c != s.c && !s.c.Resting() ==> ConsumerStep(s, s')
    ensures s'.p != s.p && !s.p.Resting() ==> ProducerStep(s, s')
    ensures s'.c == s.c ==> s'.dequeued == s.dequeued
    ensures s'.p == s.p ==> s'.enqueued == s.enqueued
  {
  }

  // ---------- main results ----------

  /** First in, first out, over every interleaving: what was dequeued, followed by what is still in the
      blocks from the front block to the tail block, is what was enqueued. */
  lemma FirstInFirstOut<T(!new)>(s: State<T>)
    requires Reachable(s)
    ensures Shape(s.core) && RingOk(s.core)
    ensures s.core.enqueued == s.core.dequeued + Contents(s.core)
  {
    ReachableInv(s);
  }

  /** The blocks strictly between front and tail are full, those after the tail are empty up to the one the
      producer is filling, and the consumer's shadow of the tail lies between front and tail. */
  lemma RingShape<T(!new)>(s: State<T>, i: nat)
    requires Reachable(s) && i < |s.core.ring|
    ensures Shape(s.core) && RingOk(s.core)
    ensures 0 < i < s.core.tpos ==> Full(At(s.core, i))
    ensures i > s.core.tpos + 1 || (i > s.core.tpos && !s.core.p.AtNext()) ==> Used(At(s.core, i)) == 0
    ensures var b := Front(s.core); Dist(b.front, b.localTail, |b.data|) <= Dist(b.front, b.tail, |b.data|)
    ensures var b := Tail(s.core); Dist(b.localFront, b.tail, |b.data|) >= Dist(b.front, b.tail, |b.data|)
  {
    ReachableInv(s);
    assert FillOk(s.core, i);
  }

  /** What the producer's steps do to the sequence of enqueued values: nothing, except that the step with
      which a call returns true appends the value of that call. */
  lemma EnqueueAppendsOnce<T(!new)>(s: State<T>, s': State<T>)
    requires Reachable(s) && Next(s, s') && !s.core.p.Resting()
    ensures s'.core.p != s.core.p ==>
              s'.core.enqueued == if s'.core.p == PDone(true) then s.core.enqueued + [s.core.p.v] else s.core.enqueued
    ensures s'.core.p == s.core.p ==> s'.core.enqueued == s.core.enqueued
  {
    WhoMoved(s.core, s'.core);
    if s'.core.p != s.core.p { EnqueueEffect(s.core, s'.core); }
  }

  lemma EnqueueEffect<T>(s: Core<T>, s': Core<T>)
    requires Shape(s) && ProducerStep(s, s')
    ensures s'.enqueued == if s'.p == PDone(true) then s.enqueued + [s.p.v] else s.enqueued
  {
  }

  /** `try_dequeue` returns the oldest value not yet dequeued and removes it at that moment; `peek` returns
      that value and removes nothing; no other step removes anything. */
  lemma DequeueTakesOldest<T(!new)>(s: State<T>, s': State<T>)
    requires Reachable(s) && Next(s, s') && !s.core.c.Resting()
    ensures s'.core.c.CDone? && s'.core.c.r.Some? ==>
              |s.core.dequeued| < |s.core.enqueued| && s'.core.c.r.value == s.core.enqueued[|s.core.dequeued|]
    ensures s.core.c.CPublish? && s'.core.c.CDone? ==>
              s'.core.c.r.Some? && s'.core.dequeued == s.core.dequeued + [s'.core.c.r.value]
    ensures !(s.core.c.CPublish? && s'.core.c.CDone?) ==> s'.core.dequeued == s.core.dequeued
  {
    ReachableInv(s);
    WhoMoved(s.core, s'.core);
    OldestValue(s.core);
    if s'.core.c != s.core.c { DequeueEffect(s.core, s'.core); }
  }

  lemma DequeueEffect<T>(s: Core<T>, s': Core<T>)
    requires Inv(s) && ConsumerStep(s, s')
    ensures s'.dequeued == if s.c.CPublish? && s'.c.CDone? then s.dequeued + [s'.c.r.value] else s.dequeued
    ensures s'.c.CDone? && s'.c.r.Some? ==>
              || (Used(Front(s)) >= 1 && s'.c.r.value == Front(s).data[Front(s).front])
              || (s.tpos > 0 && Used(Front(s)) == 0 && s'.c.r.value == At(s, 1).data[At(s, 1).front])
  {
  }

  lemma FlatFirst<T>(blocks: seq<Block<T>>, order: seq<nat>)
    requires order != [] && forall i | 0 <= i < |order| :: order[i] < |blocks| && BlockOk(blocks[order[i]])
    ensures forall i | 0 <= i < |order[1..]| :: order[1..][i] < |blocks| && BlockOk(blocks[order[1..][i]])
    ensures Flat(blocks, order) == Items(blocks[order[0]]) + Flat(blocks, order[1..])
  {
    forall i | 0 <= i < |order[1..]| ensures order[1..][i] < |blocks| && BlockOk(blocks[order[1..][i]]) {
      assert order[1..][i] == order[i + 1];
    }
  }

  lemma OldestValue<T>(s: Core<T>)
    requires Inv(s)
    ensures Used(Front(s)) >= 1 ==> |s.dequeued| < |s.enqueued| && s.enqueued[|s.dequeued|] == Front(s).data[Front(s).front]
    ensures s.tpos > 0 && Used(Front(s)) == 0 ==>
              var n := At(s, 1); |s.dequeued| < |s.enqueued| && s.enqueued[|s.dequeued|] == n.data[n.front]
  {
    var order := s.ring[..s.tpos + 1];
    FlatFirst(s.blocks, order);
    if s.tpos > 0 {
      assert FillOk(s, 1);
      FlatFirst(s.blocks, order[1..]);
      assert order[1..][0] == s.ring[1];
      assert Items(At(s, 1))[0] == At(s, 1).data[At(s, 1).front];
    }
  }

  /** `try_dequeue` and `peek` find nothing only if the queue was empty at some moment of the call. */
  lemma NothingOnlyWhenEmpty<T(!new)>(s: State<T>, s': State<T>)
    requires Reachable(s) && Next(s, s') && !s.core.c.Resting() && s'.core.c == CDone(None)
    ensures s'.emptySeen
  {
    ReachableInv(s);
    WhoMoved(s.core, s'.core);
    assert s.core.c.CCheckTail?;
  }

  /** `try_enqueue` finds no room only if the queue held `maxSize` values at some moment of the call. */
  lemma NoRoomOnlyWhenFull<T(!new)>(s: State<T>, s': State<T>)
    requires Reachable(s) && Next(s, s') && s.core.p.PCheckNext? && s'.core.p == PDone(false)
    ensures s'.fullSeen && !s.core.p.alloc
  {
    ReachableInv(s);
    WhoMoved(s.core, s'.core);
    NoRoomIn(s.core, s'.core, s.maxSize);
  }

  lemma NoRoomIn<T>(c: Core<T>, c': Core<T>, maxSize: nat)
    requires Inv(c) && CapacityOk(c, maxSize) && c.p.PCheckNext? && ProducerStep(c, c') && c'.p == PDone(false)
    ensures !c.p.alloc && c'.enqueued == c.enqueued && c'.dequeued == c.dequeued
    ensures |c.ring| > 1 ==> Count(c) >= maxSize
  {
    assert c.blocks[c.ring[c.tpos]].next == c.ring[if c.tpos + 1 < |c.ring| then c.tpos + 1 else 0];
    if |c.ring| > 1 { NoRoomAhead(c, maxSize); }
  }

  /** The assertions of the source at lines 252, 317, 368, 459 and 482 hold whenever they are reached. */
  lemma AssertionsHold<T(!new)>(s: State<T>)
    requires Reachable(s)
    ensures s.core.c.CNextTail? || s.core.c.CPeekNext? ==>
              s.core.c.next < |s.core.blocks| &&
              s.core.blocks[s.core.c.next].front != s.core.blocks[s.core.c.next].tail
    ensures s.core.p.PNextFront? ==>
              s.core.tailBlock < |s.core.blocks| && Tail(s.core).next < |s.core.blocks| &&
              s.core.blocks[Tail(s.core).next].front == s.core.blocks[Tail(s.core).next].tail
    ensures s.core.p.PLink? ==> s.core.p.block < |s.core.blocks| && s.core.blocks[s.core.p.block].front == 0
  {
    ReachableInv(s);
    var c := s.core;
    if c.c.CNextTail? || c.c.CPeekNext? { assert FillOk(c, 1); }
    if c.p.PNextFront? {
      assert c.blocks[c.ring[c.tpos]].next == c.ring[c.tpos + 1];
      assert FillOk(c, c.tpos + 1);
    }
  }

  /** A producer in a call can take its next step, and an allocation can succeed. */
  lemma ProducerNeverStuck<T(!new)>(s: State<T>) returns (c': Core<T>)
    requires Reachable(s) && !s.core.p.Resting()
    ensures Shape(s.core) && ProducerStep(s.core, c') && (s.core.p.PAlloc? ==> c'.p.PLink?)
  {
    ReachableInv(s);
    if s.core.p.PReadFront? || s.core.p.PWrite? || s.core.p.PPublish? || s.core.p.PCheckNext? {
      c' := TailOn(s.core);
    } else {
      NextInBlocks(s.core);
      c' := NextOn(s.core);
    }
  }

  lemma NextInBlocks<T>(s: Core<T>)
    requires Inv(s)
    ensures Tail(s).next < |s.blocks|
  {
    assert s.blocks[s.ring[s.tpos]].next == s.ring[if s.tpos + 1 < |s.ring| then s.tpos + 1 else 0];
  }

  lemma TailOn<T>(s: Core<T>) returns (s': Core<T>)
    requires Shape(s) && (s.p.PReadFront? || s.p.PWrite? || s.p.PPublish? || s.p.PCheckNext?)
    ensures ProducerStep(s, s')
  {
    var b, k := Tail(s), s.tailBlock;
    match s.p
    case PReadFront(v, alloc) =>
      s' := SetBlock(s, k, b.(localFront := b.front)).(
              p := if Wrap(b.tail + 1, |b.data|) != b.front then PWrite(v) else PCheckNext(v, alloc));
    case PWrite(v) => s' := SetBlock(s, k, b.(data := b.data[b.tail := v])).(p := PPublish(v));
    case PPublish(v) =>
      s' := SetBlock(s, k, b.(tail := Wrap(b.tail + 1, |b.data|))).(p := PDone(true), enqueued := s.enqueued + [v]);
    case PCheckNext(v, alloc) =>
      s' := s.(p := if b.next != s.frontBlock then PNextFront(v) else if alloc then PAlloc(v) else PDone(false));
  }

  lemma NextOn<T>(s: Core<T>) returns (s': Core<T>)
    requires Shape(s) && Tail(s).next < |s.blocks| && s.tpos < |s.ring| && s.largest >= 1
    requires s.p.PNextFront? || s.p.PNextWrite? || s.p.PNextTail? || s.p.PNextPublish? || s.p.PAlloc? || s.p.PLink?
             || s.p.PLinkPublish?
    ensures ProducerStep(s, s') && (s.p.PAlloc? ==> s'.p.PLink?)
  {
    var b, k := Tail(s), Tail(s).next;
    var n := s.blocks[k];
    match s.p
    case PNextFront(v) => s' := SetBlock(s, k, n.(localFront := n.front)).(p := PNextWrite(v));
    case PNextWrite(v) => s' := SetBlock(s, k, n.(data := n.data[n.tail := v])).(p := PNextTail(v));
    case PNextTail(v) => s' := SetBlock(s, k, n.(tail := Wrap(n.tail + 1, |n.data|))).(p := PNextPublish(v));
    case PNextPublish(v) =>
      s' := s.(p := PDone(true), tailBlock := b.next, tpos := s.tpos + 1, enqueued := s.enqueued + [v]);
    case PAlloc(v) =>
      var size := if s.largest >= s.maxBlock then s.largest else s.largest * 2;
      var f := Block(0, 1, 1, 0, b.next, seq(size, _ => v));
      s' := s.(blocks := s.blocks + [f], largest := size, p := PLink(v, |s.blocks|));
    case PLink(v, f) =>
      s' := SetBlock(s, s.tailBlock, b.(next := f)).(
              p := PLinkPublish(v, f), ring := s.ring[..s.tpos + 1] + [f] + s.ring[s.tpos + 1..]);
    case PLinkPublish(v, f) =>
      s' := s.(p := PDone(true), tailBlock := f, tpos := s.tpos + 1, enqueued := s.enqueued + [v]);
  }

  /** A consumer in a call can take its next step. */
  lemma ConsumerNeverStuck<T(!new)>(s: State<T>) returns (c': Core<T>)
    requires Reachable(s) && !s.core.c.Resting()
    ensures Shape(s.core) && ConsumerStep(s.core, c')
  {
    ReachableInv(s);
    c' := ConsumesOn(s.core);
  }

  lemma ConsumesOn<T>(s: Core<T>) returns (s': Core<T>)
    requires Shape(s) && RingOk(s) && !s.c.Resting()
    requires s.c.CPeekNext? || s.c.CNextTail? ==> s.c.next < |s.blocks|
    requires s.c.CSetFront? ==> s.tpos > 0
    ensures ConsumerStep(s, s')
  {
    var b, k := Front(s), s.frontBlock;
    match s.c
    case CReadTail(peek) =>
      s' := SetBlock(s, k, b.(localTail := b.tail)).(c := if b.front != b.tail then CRead(peek) else CCheckTail(peek));
    case CCheckTail(peek) => s' := s.(c := if s.frontBlock != s.tailBlock then CReread(peek) else CDone(None));
    case CReread(peek) =>
      s' := SetBlock(s, k, b.(localTail := b.tail)).(c := if b.front != b.tail then CRead(peek) else CNext(peek));
    case CNext(peek) => s' := s.(c := if peek then CPeekNext(b.next) else CNextTail(b.next));
    case CPeekNext(n) => s' := s.(c := CDone(Some(s.blocks[n].data[s.blocks[n].front])));
    case CNextTail(n) => s' := SetBlock(s, n, s.blocks[n].(localTail := s.blocks[n].tail)).(c := CSetFront(n));
    case CSetFront(n) =>
      s' := s.(frontBlock := n, c := CRead(false), ring := s.ring[1..] + [s.ring[0]], tpos := s.tpos - 1);
    case CRead(peek) => s' := s.(c := if peek then CDone(Some(b.data[b.front])) else CPublish(b.data[b.front]));
    case CPublish(v) =>
      s' := SetBlock(s, k, b.(front := Wrap(b.front + 1, |b.data|))).(c := CDone(Some(v)), dequeued := s.dequeued + [v]);
  }

  /** How many steps a call of the consumer can still take. */
  function ConsumerLeft<T>(c: Consumer<T>): nat {
    match c
    case CReadTail(_) => 8
    case CCheckTail(_) => 7
    case CReread(_) => 6
    case CNext(_) => 5
    case CPeekNext(_) => 4
    case CNextTail(_) => 4
    case CSetFront(_) => 3
    case CRead(_) => 2
    case CPublish(_) => 1
    case _ => 0
  }

  function ProducerLeft<T>(p: Producer<T>): nat {
    match p
    case PReadFront(_, _) => 6
    case PCheckNext(_, _) => 5
    case PNextFront(_) => 4
    case PNextWrite(_) => 3
    case PNextTail(_) => 2
    case PNextPublish(_) => 1
    case PAlloc(_) => 3
    case PLink(_, _) => 2
    case PLinkPublish(_, _) => 1
    case PWrite(_) => 2
    case PPublish(_) => 1
    case _ => 0
  }

  /** Every call ends after a bounded number of steps of its own, whatever the other thread does: each brings it
      nearer to its end, and the steps of the other thread do not take it back. */
  lemma CallsEnd<T(!new)>(s: Core<T>, s': Core<T>)
    requires CoreNext(s, s')
    ensures !s.c.Resting() ==> if ConsumerStep(s, s') then ConsumerLeft(s'.c) < ConsumerLeft(s.c) <= 8 else s'.c == s.c
    ensures !s.p.Resting() ==> if ProducerStep(s, s') then ProducerLeft(s'.p) < ProducerLeft(s.p) <= 6 else s'.p == s.p
  {
    WhoMoved(s, s');
    if ConsumerStep(s, s') {
      ConsumerNearer(s, s');
    } else if ProducerStep(s, s') {
      ProducerNearer(s, s');
    }
  }

  lemma ConsumerNearer<T>(s: Core<T>, s': Core<T>)
    requires Shape(s) && ConsumerStep(s, s')
    ensures ConsumerLeft(s'.c) < ConsumerLeft(s.c) && s'.p == s.p
  {
  }

  lemma ProducerNearer<T>(s: Core<T>, s': Core<T>)
    requires Shape(s) && ProducerStep(s, s')
    ensures ProducerLeft(s'.p) < ProducerLeft(s.p) && s'.c == s.c
  {
  }

  /** A step of the queue with its observations. */
  ghost function Observed<T>(s: State<T>, c': Core<T>): State<T> {
    State(c', s.maxSize, (s.emptySeen && !Starts(s.core, c', true)) || Count(c') == 0,
          (s.fullSeen && !Starts(s.core, c', false)) || Count(c') >= s.maxSize)
  }

  /** A consumer outside a call can call `try_dequeue`. */
  lemma DequeueBegins<T(!new)>(s: State<T>) returns (s': State<T>)
    requires Shape(s.core) && s.core.c.Resting()
    ensures Next(s, s') && DequeueCall(s.core, s'.core, false)
  {
    var b := Front(s.core);
    s' := Observed(s, s.core.(c := if b.front != b.localTail then CRead(false) else CReadTail(false)));
    assert DequeueCall(s.core, s'.core, false);
  }

  /** A producer outside a call can call `try_enqueue`; the call has not seen a full queue yet, unless it is full now. */
  lemma EnqueueBegins<T(!new)>(s: State<T>, v: T) returns (s': State<T>)
    requires Shape(s.core) && s.core.p.Resting()
    ensures Next(s, s') && EnqueueCall(s.core, s'.core, v, false)
    ensures s'.maxSize == s.maxSize && (Count(s.core) < s.maxSize ==> !s'.fullSeen)
  {
    var b := Tail(s.core);
    s' := Observed(s, s.core.(p := if Wrap(b.tail + 1, |b.data|) != b.localFront then PWrite(v) else PReadFront(v, false)));
    assert EnqueueCall(s.core, s'.core, v, false);
  }

  /** With room in the queue the producer's call goes on to its end without seeing it full. */
  lemma EnqueueGoesOn<T(!new)>(s: State<T>) returns (s': State<T>)
    requires Reachable(s) && !s.core.p.Resting() && Count(s.core) < s.maxSize && !s.fullSeen
    ensures Shape(s.core) && Next(s, s') && ProducerStep(s.core, s'.core) && s'.maxSize == s.maxSize
    ensures ProducerLeft(s'.core.p) < ProducerLeft(s.core.p)
    ensures s'.core.p == PDone(true) || (!s'.core.p.Resting() && Count(s'.core) < s'.maxSize && !s'.fullSeen)
  {
    var c' := ProducerNeverStuck(s);
    ProducerNearer(s.core, c');
    s' := Observed(s, c');
    ProducerEffect(s, s');
    if s.core.p.PCheckNext? && c'.p == PDone(false) { NoRoomOnlyWhenFull(s, s'); }
  }

  // ---------- what a caller can rely on ----------

  /** What every step keeps or counts, whoever takes it. */
  ghost predicate Observes<T>(s: State<T>, s': State<T>) {
    s'.maxSize == s.maxSize && (s'.emptySeen ==> (s.emptySeen && !Starts(s.core, s'.core, true)) || Count(s'.core) == 0)
  }

  lemma EnqueueCallEffect<T(!new)>(s: State<T>, s': State<T>, v: T, alloc: bool)
    requires Reachable(s) && Shape(s.core) && Next(s, s') && EnqueueCall(s.core, s'.core, v, alloc)
    ensures Reachable(s') && Observes(s, s')
    ensures s'.core.c == s.core.c && s'.core.enqueued == s.core.enqueued && s'.core.dequeued == s.core.dequeued
    ensures !s'.core.p.Resting() && s'.core.p.v == v
  {
    ReachableNext(s, s');
  }

  lemma ProducerEffect<T(!new)>(s: State<T>, s': State<T>)
    requires Reachable(s) && Shape(s.core) && Next(s, s') && ProducerStep(s.core, s'.core)
    ensures Reachable(s') && Observes(s, s')
    ensures s'.core.c == s.core.c && s'.core.dequeued == s.core.dequeued
    ensures !s.core.p.Resting() && if s'.core.p.Resting() then s'.core.p.PDone? else s'.core.p.v == s.core.p.v
    ensures s'.core.enqueued == if s'.core.p == PDone(true) then s.core.enqueued + [s.core.p.v] else s.core.enqueued
  {
    ReachableNext(s, s');
  }

  lemma DequeueCallEffect<T(!new)>(s: State<T>, s': State<T>, peek: bool)
    requires Reachable(s) && Shape(s.core) && Next(s, s') && DequeueCall(s.core, s'.core, peek)
    ensures Reachable(s') && Observes(s, s') && Starts(s.core, s'.core, true)
    ensures s'.core.p == s.core.p && s'.core.enqueued == s.core.enqueued && s'.core.dequeued == s.core.dequeued
    ensures !s'.core.c.Resting() && (s'.core.c.Peeking() <==> peek)
  {
    ReachableNext(s, s');
  }

  lemma ConsumerEffect<T(!new)>(s: State<T>, s': State<T>)
    requires Reachable(s) && Shape(s.core) && Next(s, s') && ConsumerStep(s.core, s'.core) && !s.core.c.Peeking()
    ensures Reachable(s') && Observes(s, s')
    ensures s'.core.p == s.core.p && s'.core.enqueued == s.core.enqueued
    ensures !s.core.c.Resting() && if s'.core.c.Resting() then s'.core.c.CDone? else !s'.core.c.Peeking()
    ensures s'.core.c == CDone(None) ==> s'.emptySeen
    ensures s'.core.dequeued ==
            if s'.core.c.CDone? && s'.core.c.r.Some? then s.core.dequeued + [s'.core.c.r.value] else s.core.dequeued
  {
    ReachableNext(s, s');
    DequeueTakesOldest(s, s');
    if s'.core.c == CDone(None) { NothingOnlyWhenEmpty(s, s'); }
  }

  /** Blocks after the tail add nothing. */
  lemma FlatTail<T>(s: Core<T>)
    requires Inv(s) && s.p.Resting()
    ensures |Flat(s.blocks, s.ring)| == |Contents(s)|
  {
    var k := s.tpos + 1;
    while k < |s.ring|
      invariant s.tpos + 1 <= k <= |s.ring|
      invariant |Flat(s.blocks, s.ring[..k])| == |Contents(s)|
    {
      assert FillOk(s, k);
      assert s.ring[..k + 1] == s.ring[..k] + [s.ring[k]];
      FlatSnoc(s.blocks, s.ring[..k], s.ring[k]);
      k := k + 1;
    }
    assert s.ring[..k] == s.ring;
  }
}
