/** The queue of include/thirdparty/readerwriterqueue.h in the form of the source: a class over linked blocks that
  are updated in place, called by one thread. A call is proved to be a run of the steps of SpscQueue, so the
  objects are always in one of the states it can reach.
 */
module ReaderWriterQueue {
  import Modular
  import PowersOfTwo
  import S = SpscQueue

  class Block<T(0)> {
    /** History: the place of the block in `Queue.blocks`. */
    ghost const id: nat
    const sizeMask: nat
    const data: array<T>
    var front: nat
    var localTail: nat
    var tail: nat
    var localFront: nat
    var next: Block?<T>

    constructor (size: nat, ghost id: nat)
      requires size > 0
      ensures this.id == id && sizeMask == size - 1 && data.Length == size && fresh(data)
      ensures front == localTail == tail == localFront == 0 && next == null
    {
      this.id := id;
      sizeMask := size - 1;
      data := new T[size];
      front, localTail, tail, localFront, next := 0, 0, 0, 0, null;
    }

    ghost function Value(): S.Block<T>
      reads this, data
    {
      S.Block(front, localTail, tail, localFront, if next == null then id else next.id, data[..])
    }
  }

  class Queue<T(0,!new)> {
    /** `MAX_BLOCK_SIZE`. */
    const maxBlockSize: nat
    var frontBlock: Block<T>
    var tailBlock: Block<T>
    var largestBlockSize: nat
    /** History: the blocks in the order of their allocation, and the state of SpscQueue. */
    ghost var blocks: seq<Block<T>>
    ghost var seen: S.State<T>

    ghost function Objects(): set<object>
      reads this
    {
      {this} + (set b: Block<T> | b in blocks :: b as object) + Arrays()
    }

    ghost function Arrays(): set<object>
      reads this
    {
      set b: Block<T> | b in blocks :: b.data as object
    }

    ghost predicate HasBlock(b: Block?<T>)
      reads this
    {
      b != null && b.id < |blocks| && blocks[b.id] == b
    }

    ghost predicate LinkedBlock(i: nat)
      requires i < |blocks| == |seen.core.blocks|
      reads this, blocks[i], blocks[i].data
    {
      var b := blocks[i];
      && b.id == i && b.Value() == seen.core.blocks[i] && HasBlock(b.next)
      && b.sizeMask + 1 == b.data.Length && MaskSize(b.data.Length) && S.BlockOk(b.Value())
    }

    ghost predicate Apart()
      reads this
    {
      forall i, j | 0 <= i < j < |blocks| :: blocks[i].data != blocks[j].data
    }

    /** The objects are what the state says they are. */
    ghost predicate Linked()
      reads this, Objects()
    {
      && |blocks| == |seen.core.blocks| && Apart()
      && (forall i | 0 <= i < |blocks| :: LinkedBlock(i))
      && HasBlock(frontBlock) && seen.core.frontBlock == frontBlock.id
      && HasBlock(tailBlock) && seen.core.tailBlock == tailBlock.id
      && seen.core.largest == largestBlockSize >= 2 && MaskSize(largestBlockSize)
      && seen.core.maxBlock == maxBlockSize && MaskSize(maxBlockSize)
    }

    ghost predicate Valid()
      reads this, Objects()
    {
      Linked() && S.Reachable(seen) && seen.core.p.Resting() && seen.core.c.Resting()
    }

    /** The values in the queue, oldest first. */
    ghost function Contents(): seq<T>
      requires Valid()
      reads this, Objects()
    {
      Queued(seen)
    }

    ghost method Start(maxSize: nat)
      requires Circle(blocks, largestBlockSize) && blocks != [] && frontBlock == tailBlock == blocks[0]
      requires S.Layout(maxSize, maxBlockSize, |blocks|, largestBlockSize)
      requires largestBlockSize >= 2 && MaskSize(largestBlockSize) && MaskSize(maxBlockSize)
      modifies this`seen
      ensures Valid() && Contents() == [] && Capacity() == maxSize
    {
      seen := S.State(FirstCore(blocks, largestBlockSize, maxBlockSize), maxSize, true, false);
      FirstInit(blocks, seen);
      FirstReachable(seen);
      FirstLinked();
    }

    lemma FirstLinked()
      requires Circle(blocks, largestBlockSize) && blocks != [] && frontBlock == tailBlock == blocks[0]
      requires seen.core == FirstCore(blocks, largestBlockSize, maxBlockSize)
      requires largestBlockSize >= 2 && MaskSize(largestBlockSize) && MaskSize(maxBlockSize)
      ensures Linked()
    {
      forall i | 0 <= i < |blocks| ensures LinkedBlock(i) {
        assert blocks[if i + 1 < |blocks| then i + 1 else 0].id == if i + 1 < |blocks| then i + 1 else 0;
      }
    }

    /** The blocks other than b that were not touched are still linked. */
    twostate lemma OthersKept(b: Block<T>)
      requires old(Linked()) && old(blocks) <= blocks && HasBlock(b) && |seen.core.blocks| == |blocks|
      requires forall i | 0 <= i < old(|blocks|) && i != b.id ::
                 unchanged(blocks[i]) && unchanged(blocks[i].data) && seen.core.blocks[i] == old(seen.core.blocks[i])
      ensures forall i | 0 <= i < old(|blocks|) && i != b.id :: LinkedBlock(i)
    {
      assert forall i | 0 <= i < old(|blocks|) && i != b.id :: old(LinkedBlock(i)) ==> LinkedBlock(i);
    }

    /** Every block is an object of its own. */
    lemma Distinct(b: Block<T>)
      requires Linked() && HasBlock(b)
      ensures forall i | 0 <= i < |blocks| && i != b.id :: blocks[i] != b && blocks[i].data != b.data
    {
      forall i | 0 <= i < |blocks| && i != b.id ensures blocks[i] != b && blocks[i].data != b.data {
        assert LinkedBlock(i);
      }
    }

    /** The size asked for. */
    ghost function Capacity(): nat
      reads this
    {
      seen.maxSize
    }

    constructor (maxSize: nat, maxBlockSize: nat)
      requires 0 < maxSize < PowersOfTwo.WORD_SIZE / 2
      requires maxBlockSize >= 2 && MaskSize(maxBlockSize)
      ensures Valid() && Contents() == [] && Capacity() == maxSize && fresh(Objects())
    {
      var initialBlockCount, largest := FirstLayout(maxSize, maxBlockSize);
      var first, all := MakeBlocks<T>(initialBlockCount, largest);
      this.maxBlockSize := maxBlockSize;
      frontBlock, tailBlock, largestBlockSize, blocks := first, first, largest, all;
      new;
      assert fresh(Objects());
      Start(maxSize);
    }

    /** `try_dequeue`. */
    method TryDequeue() returns (r: S.Option<T>)
      requires Valid()
      modifies this`seen, this`frontBlock, blocks
      ensures Valid() && Capacity() == old(Capacity())
      ensures if old(Contents()) == [] then r == S.None && Contents() == []
              else r == S.Some(old(Contents())[0]) && Contents() == old(Contents())[1..]
    {
      ghost var s', r' := Dequeues(seen);
      r := RemoveFront(s', r');
    }

    method RemoveFront(ghost s': S.State<T>, ghost r': S.Option<T>) returns (r: S.Option<T>)
      requires Linked() && DequeueMemory(seen.core, s'.core, r')
      modifies this`seen, this`frontBlock, blocks
      ensures Linked() && seen == s' && r == r'
    {
      assert LinkedBlock(frontBlock.id);
      var found := HasFront();
      assert LinkedBlock(frontBlock.id);
      if found {
        r := TakeFront();
      } else if frontBlock != tailBlock {
        LookAgain();
        MoveOn();
        r := TakeFront();
      } else {
        r := S.None;
      }
      Renamed(s');
    }

    /** The consumer compares its own indices first, and looks at `tail` only if they leave nothing. */
    method HasFront() returns (found: bool)
      requires Linked()
      modifies this`seen, frontBlock`localTail
      ensures Linked() && InBlocks(old(seen.core)) && S.BlockOk(S.Front(old(seen.core)))
      ensures var c, f := old(seen.core), S.Front(old(seen.core));
              && seen.core == S.SetBlock(c, c.frontBlock, f.(localTail := SeenTail(f)))
              && (found <==> f.front != SeenTail(f))
    {
      var b := frontBlock;
      assert LinkedBlock(b.id);
      Distinct(b);
      var blockTail := b.localTail;
      var blockFront := b.front;
      ghost var f := S.Front(seen.core);
      seen := seen.(core := S.SetBlock(seen.core, b.id, f.(localTail := SeenTail(f))));
      found := blockFront != blockTail;
      if !found {
        b.localTail := b.tail;
        found := blockFront != b.localTail;
      }
      OthersKept(b);
      assert LinkedBlock(b.id);
    }

    /** With another block ahead the consumer looks at `tail` again; nothing was added meanwhile. */
    method LookAgain()
      requires Linked() && InBlocks(seen.core) && S.Front(seen.core).front == S.Front(seen.core).localTail
      requires S.Front(seen.core).front == S.Front(seen.core).tail
      modifies frontBlock`localTail
      ensures Linked()
    {
      var b := frontBlock;
      assert LinkedBlock(b.id);
      Distinct(b);
      b.localTail := b.tail;
      assert b.front == b.localTail;
      OthersKept(b);
      assert LinkedBlock(b.id);
    }

    /** The next block, which has an element as the source asserts, becomes the front block. */
    method MoveOn()
      requires Linked() && InBlocks(seen.core) && NextFilled(seen.core)
      modifies this`seen, this`frontBlock, blocks
      ensures Linked() && InBlocks(old(seen.core)) && S.Front(old(seen.core)).next < |old(seen.core).blocks|
      ensures var c, k := old(seen.core), S.Front(old(seen.core)).next;
              seen.core == S.SetBlock(c, k, c.blocks[k].(localTail := c.blocks[k].tail)).(frontBlock := k)
    {
      assert LinkedBlock(frontBlock.id);
      var b: Block<T> := frontBlock.next;
      assert LinkedBlock(b.id);
      Distinct(b);
      ghost var n := seen.core.blocks[b.id];
      seen := seen.(core := S.SetBlock(seen.core, b.id, n.(localTail := n.tail)).(frontBlock := b.id));
      b.localTail := b.tail;
      assert b.front != b.localTail;
      frontBlock := b;
      OthersKept(b);
      assert LinkedBlock(b.id);
    }

    /** The front element is read and `front` moves on. */
    method TakeFront() returns (r: S.Option<T>)
      requires Linked()
      modifies this`seen, frontBlock`front
      ensures Linked() && InBlocks(old(seen.core)) && S.BlockOk(S.Front(old(seen.core)))
      ensures var c, f := old(seen.core), S.Front(old(seen.core));
              && seen.core == S.SetBlock(c, c.frontBlock, f.(front := S.Wrap(f.front + 1, |f.data|)))
              && r == S.Some(f.data[f.front])
    {
      var b := frontBlock;
      assert LinkedBlock(b.id);
      Distinct(b);
      r := S.Some(b.data[b.front]);
      ghost var f := S.Front(seen.core);
      seen := seen.(core := S.SetBlock(seen.core, b.id, f.(front := S.Wrap(f.front + 1, |f.data|))));
      Mask(b.front, b.sizeMask);
      b.front := PowersOfTwo.And(b.front + 1, b.sizeMask);
      OthersKept(b);
      assert LinkedBlock(b.id);
    }

    /** `pop`: `try_dequeue` without the value. */
    method Pop() returns (ok: bool)
      requires Valid()
      modifies this`seen, this`frontBlock, blocks
      ensures Valid() && Capacity() == old(Capacity())
      ensures ok <==> old(Contents()) != []
      ensures Contents() == if ok then old(Contents())[1..] else []
    {
      var r := TryDequeue();
      ok := r.Some?;
    }

    /** `peek`, with the element in place of a pointer to it. */
    method Peek() returns (r: S.Option<T>)
      requires Valid()
      modifies this`seen, blocks
      ensures Valid() && Capacity() == old(Capacity()) && Contents() == old(Contents())
      ensures r == if Contents() == [] then S.None else S.Some(Contents()[0])
    {
      ghost var s', r' := Peeks(seen);
      r := LookAtFront(s', r');
    }

    method LookAtFront(ghost s': S.State<T>, ghost r': S.Option<T>) returns (r: S.Option<T>)
      requires Linked() && PeekMemory(seen.core, s'.core, r')
      modifies this`seen, blocks
      ensures Linked() && seen == s' && r == r'
    {
      assert LinkedBlock(frontBlock.id);
      var found := HasFront();
      Renamed(s');
      var b := frontBlock;
      assert LinkedBlock(b.id);
      if !found {
        if b == tailBlock { return S.None; }
        LookAgain();
        b := b.next;
        assert LinkedBlock(b.id);
        assert b.front != b.tail;
      }
      r := S.Some(b.data[b.front]);
    }

    /** `try_enqueue`: false only when the queue holds as much as was asked for. */
    method TryEnqueue(v: T) returns (ok: bool)
      requires Valid()
      modifies this, blocks, Arrays()
      ensures Valid() && Capacity() == old(Capacity()) && blocks == old(blocks)
      ensures Contents() == if ok then old(Contents()) + [v] else old(Contents())
      ensures !ok ==> |Contents()| >= Capacity()
    {
      ok := InnerEnqueue(v, false, true);
    }

    /** `enqueue`: false only when there is no memory. */
    method Enqueue(v: T, memory: bool) returns (ok: bool)
      requires Valid()
      modifies this, blocks, Arrays()
      ensures Valid() && Capacity() == old(Capacity()) && fresh(Objects() - old(Objects()))
      ensures Contents() == if ok then old(Contents()) + [v] else old(Contents())
      ensures memory ==> ok
    {
      ok := InnerEnqueue(v, true, memory);
    }

    /** `inner_enqueue`; `memory` is whether `malloc` would succeed. */
    method InnerEnqueue(v: T, canAlloc: bool, memory: bool) returns (ok: bool)
      requires Valid()
      modifies this, blocks, Arrays()
      ensures Valid() && Capacity() == old(Capacity()) && fresh(Objects() - old(Objects()))
      ensures Contents() == if ok then old(Contents()) + [v] else old(Contents())
      ensures !canAlloc ==> blocks == old(blocks)
      ensures !ok ==> if canAlloc then !memory else |Contents()| >= Capacity()
    {
      ghost var before := seen;
      ghost var data;
      NextIsEmpty(before);
      ok, data := AddBack(v, canAlloc, memory);
      ghost var s' := Enqueues(before, v, canAlloc, memory, ok, data, seen.core);
      Renamed(s');
    }

    /** Only the history of the state changes. */
    ghost method Renamed(s': S.State<T>)
      requires Linked() && SameMemory(seen.core, s'.core)
      modifies this`seen
      ensures Linked() && seen == s'
    {
      seen := s';
      assert forall i | 0 <= i < |blocks| :: old(LinkedBlock(i)) ==> LinkedBlock(i);
    }

    method AddBack(v: T, canAlloc: bool, memory: bool) returns (ok: bool, ghost data: seq<T>)
      requires Linked() && NextEmpty(seen.core)
      modifies this, blocks, Arrays()
      ensures Linked() && EnqueueMemory(old(seen.core), seen.core, v, canAlloc, memory, ok, data)
      ensures fresh(Objects() - old(Objects())) && (!canAlloc ==> blocks == old(blocks))
    {
      data := [];
      assert LinkedBlock(tailBlock.id);
      var room := HasRoom();
      ghost var c1 := seen.core;
      assert LinkedBlock(tailBlock.id);
      if room {
        AddTo(tailBlock, v);
        ok := true;
      } else if tailBlock.next != frontBlock {
        AddAhead(v);
        ok := true;
      } else if canAlloc && memory {
        data := AddBlock(v);
        ok := true;
      } else {
        ok := false;
      }
    }

    /** The producer compares its own indices first, and looks at `front` only if they leave no room. */
    method HasRoom() returns (room: bool)
      requires Linked()
      modifies this`seen, tailBlock`localFront
      ensures Linked() && InBlocks(old(seen.core)) && S.BlockOk(S.Tail(old(seen.core)))
      ensures var c, t := old(seen.core), S.Tail(old(seen.core));
              && seen.core == S.SetBlock(c, c.tailBlock, t.(localFront := SeenFront(t)))
              && (room <==> S.Wrap(t.tail + 1, |t.data|) != SeenFront(t))
    {
      var b := tailBlock;
      assert LinkedBlock(b.id);
      Distinct(b);
      var blockFront := b.localFront;
      Mask(b.tail, b.sizeMask);
      var nextBlockTail := PowersOfTwo.And(b.tail + 1, b.sizeMask);
      room := nextBlockTail != blockFront;
      ghost var t := S.Tail(seen.core);
      seen := seen.(core := S.SetBlock(seen.core, b.id, t.(localFront := SeenFront(t))));
      if !room {
        b.localFront := b.front;
        room := nextBlockTail != b.localFront;
      }
      OthersKept(b);
      assert LinkedBlock(b.id);
    }

    /** v is written behind the last element of b. */
    method AddTo(b: Block<T>, v: T)
      requires Linked() && HasBlock(b)
      modifies this`seen, b`tail, b.data
      ensures Linked() && b.id < |old(seen.core).blocks| && S.BlockOk(old(seen.core).blocks[b.id])
      ensures seen.core == S.SetBlock(old(seen.core), b.id, Pushed(old(seen.core).blocks[b.id], v))
    {
      assert LinkedBlock(b.id);
      Distinct(b);
      seen := seen.(core := S.SetBlock(seen.core, b.id, Pushed(seen.core.blocks[b.id], v)));
      b.data[b.tail] := v;
      Mask(b.tail, b.sizeMask);
      b.tail := PowersOfTwo.And(b.tail + 1, b.sizeMask);
      OthersKept(b);
      assert LinkedBlock(b.id);
    }

    /** The next block, which is empty as the source asserts, becomes the tail block. */
    method AddAhead(v: T)
      requires Linked() && NextEmpty(seen.core) && tailBlock.next != frontBlock
      modifies this`seen, this`tailBlock, blocks, Arrays()
      ensures Linked() && InBlocks(old(seen.core)) && S.Tail(old(seen.core)).next < |old(seen.core).blocks|
      ensures var c := old(seen.core);
              var k := S.Tail(c).next;
              && S.BlockOk(c.blocks[k])
              && seen.core == S.SetBlock(c, k, Pushed(c.blocks[k].(localFront := c.blocks[k].front), v)).(tailBlock := k)
    {
      assert LinkedBlock(tailBlock.id);
      var b: Block<T> := tailBlock.next;
      assert LinkedBlock(b.id);
      ghost var c := seen.core;
      ghost var n := c.blocks[b.id];
      LookAtItsFront(b);
      AddTo(b, v);
      assert seen.core.blocks == c.blocks[b.id := Pushed(n.(localFront := n.front), v)];
      MoveTail(b);
    }

    /** `tailBlockNext->localFront = tailBlockNext->front`. */
    method LookAtItsFront(b: Block<T>)
      requires Linked() && HasBlock(b) && seen.core.blocks[b.id].front == seen.core.blocks[b.id].tail
      modifies this`seen, b`localFront
      ensures Linked() && b.id < |old(seen.core).blocks|
      ensures var n := old(seen.core).blocks[b.id];
              seen.core == S.SetBlock(old(seen.core), b.id, n.(localFront := n.front))
    {
      assert LinkedBlock(b.id);
      Distinct(b);
      ghost var n := seen.core.blocks[b.id];
      seen := seen.(core := S.SetBlock(seen.core, b.id, n.(localFront := n.front)));
      b.localFront := b.front;
      assert b.localFront == b.tail;
      OthersKept(b);
      assert LinkedBlock(b.id);
    }

    method MoveTail(b: Block<T>)
      requires Linked() && HasBlock(b)
      modifies this`seen, this`tailBlock
      ensures Linked() && seen.core == old(seen.core).(tailBlock := b.id)
    {
      tailBlock := b;
      seen := seen.(core := seen.core.(tailBlock := b.id));
      assert forall i | 0 <= i < |blocks| :: old(LinkedBlock(i)) ==> LinkedBlock(i);
    }

    /** A new block with v in it goes behind the tail block and becomes the tail block. */
    method AddBlock(v: T) returns (ghost data: seq<T>)
      requires Linked() && InBlocks(seen.core)
      modifies this, tailBlock`next
      ensures Linked() && InBlocks(old(seen.core)) && fresh(Objects() - old(Objects()))
      ensures |data| == NewSize(old(seen.core)) >= 2 && data[0] == v
      ensures AddsBlock(old(seen.core), seen.core, data)
    {
      ghost var t := S.Tail(seen.core);
      var newBlock := NewBlock(v);
      data := newBlock.data[..];
      assert S.Tail(seen.core) == t;
      LinkTail(newBlock);
      MoveTail(newBlock);
    }

    method NewBlock(v: T) returns (newBlock: Block<T>)
      requires Linked()
      modifies this`seen, this`blocks, this`largestBlockSize
      ensures Linked() && InBlocks(old(seen.core)) && blocks == old(blocks) + [newBlock] && newBlock.id == |old(blocks)|
      ensures fresh(newBlock) && fresh(newBlock.data)
      ensures newBlock.data.Length == NewSize(old(seen.core)) >= 2 && newBlock.data[0] == v
      ensures var c := old(seen.core);
              seen.core == c.(blocks := c.blocks + [S.Block(0, 1, 1, 0, S.Tail(c).next, newBlock.data[..])],
                              largest := NewSize(c))
    {
      var b := tailBlock;
      assert LinkedBlock(b.id);
      var newBlockSize := if largestBlockSize >= maxBlockSize then largestBlockSize else largestBlockSize * 2;
      Doubled(largestBlockSize, maxBlockSize);
      newBlock := NewTail(newBlockSize, |blocks|, v, b.next);
      largestBlockSize := newBlockSize;
      blocks := blocks + [newBlock];
      ghost var c := seen.core;
      seen := seen.(core := c.(blocks := c.blocks + [newBlock.Value()], largest := newBlockSize));
      assert forall i | 0 <= i < |blocks| - 1 :: old(LinkedBlock(i)) ==> LinkedBlock(i);
      assert LinkedBlock(newBlock.id);
    }

    /** `tailBlock_->next = newBlock`. */
    method LinkTail(newBlock: Block<T>)
      requires Linked() && HasBlock(newBlock)
      modifies this`seen, tailBlock`next
      ensures Linked() && InBlocks(old(seen.core))
      ensures var c := old(seen.core);
              seen.core == S.SetBlock(c, c.tailBlock, S.Tail(c).(next := newBlock.id))
    {
      var b := tailBlock;
      assert LinkedBlock(b.id);
      Distinct(b);
      seen := seen.(core := S.SetBlock(seen.core, b.id, S.Tail(seen.core).(next := newBlock.id)));
      b.next := newBlock;
      OthersKept(b);
      assert LinkedBlock(b.id);
    }

    /** `size_approx`: `(blockTail - blockFront) & sizeMask`, unsigned, summed around the circle. */
    method SizeApprox() returns (result: nat)
      requires Valid()
      ensures result == |Contents()|
    {
      ghost var c := seen.core;
      RingStart(seen);
      var block: Block<T> := frontBlock;
      ghost var k := 0;
      result := 0;
      while true
        invariant 0 <= k < |c.ring| && block.id == c.ring[k] && HasBlock(block)
        invariant result == InFirst(seen, k)
        decreases |c.ring| - k
      {
        assert LinkedBlock(block.id) && HasBlock(block.next);
        MaskedDifference(block.front, block.tail, block.sizeMask);
        result := result + PowersOfTwo.And(Minus(block.tail, block.front), block.sizeMask);
        RingStep(seen, k);
        k := k + 1;
        block := block.next;
        if block == frontBlock {
          break;
        }
      }
      RingEnd(seen);
    }
  }

  /** A size that a mask can stand for. */
  ghost predicate MaskSize(size: nat) {
    PowersOfTwo.IsPow2(size) && size <= PowersOfTwo.WORD_SIZE
  }

  /** `(i + 1) & sizeMask`. */
  lemma Mask(i: nat, mask: nat)
    requires i <= mask && MaskSize(mask + 1)
    ensures PowersOfTwo.And(i + 1, mask) == S.Wrap(i + 1, mask + 1)
  {
    var k: nat :| mask + 1 == PowersOfTwo.Pow2(k);
    PowersOfTwo.MaskIsRemainder(i + 1, k);
    if i == mask { Modular.Unique(i + 1, mask + 1, 1, 0); } else { Modular.Unique(i + 1, mask + 1, 0, i + 1); }
  }

  // ---------- runs that nothing interrupts ----------

  /** What was enqueued and not dequeued. */
  ghost function Queued<T(!new)>(s: S.State<T>): seq<T>
    requires S.Reachable(s)
  {
    QueuedIs(s);
    s.core.enqueued[|s.core.dequeued|..]
  }

  /** That is what is in the blocks from the front block to the tail block. */
  lemma QueuedIs<T(!new)>(s: S.State<T>)
    requires S.Reachable(s)
    ensures |s.core.dequeued| <= |s.core.enqueued|
    ensures S.Shape(s.core) && S.RingOk(s.core)
    ensures S.Contents(s.core) == s.core.enqueued[|s.core.dequeued|..]
    ensures s.core.dequeued <= s.core.enqueued
  {
    S.FirstInFirstOut(s);
  }

  ghost predicate InBlocks<T>(c: S.Core<T>) {
    c.frontBlock < |c.blocks| && c.tailBlock < |c.blocks|
  }

  /** One step later. */
  ghost predicate Then<T(!new)>(s: S.State<T>, s': S.State<T>, c': S.Core<T>) {
    S.Reachable(s') && s'.maxSize == s.maxSize && s'.core == c'
  }

  lemma Steps<T(!new)>(s: S.State<T>, c': S.Core<T>) returns (s': S.State<T>)
    requires S.Reachable(s) && S.CoreNext(s.core, c')
    ensures Then(s, s', c')
  {
    s' := S.State(c', s.maxSize, (s.emptySeen && !S.Starts(s.core, c', true)) || S.Count(c') == 0,
                  (s.fullSeen && !S.Starts(s.core, c', false)) || S.Count(c') >= s.maxSize);
    S.ReachableNext(s, s');
  }

  lemma Shaped<T(!new)>(s: S.State<T>)
    requires S.Reachable(s)
    ensures S.Shape(s.core)
  {
    S.ReachableInv(s);
  }

  lemma CallsDequeue<T(!new)>(s: S.State<T>, peek: bool) returns (s': S.State<T>)
    requires S.Reachable(s) && s.core.c.Resting()
    ensures InBlocks(s.core)
    ensures var f := S.Front(s.core);
            Then(s, s', s.core.(c := if f.front != f.localTail then S.CRead(peek) else S.CReadTail(peek)))
  {
    Shaped(s);
    var f := S.Front(s.core);
    var c' := s.core.(c := if f.front != f.localTail then S.CRead(peek) else S.CReadTail(peek));
    assert S.DequeueCall(s.core, c', peek);
    s' := Steps(s, c');
  }

  lemma LooksAtTail<T(!new)>(s: S.State<T>) returns (s': S.State<T>)
    requires S.Reachable(s) && (s.core.c.CReadTail? || s.core.c.CReread?)
    ensures InBlocks(s.core)
    ensures var f := S.Front(s.core);
            var empty := if s.core.c.CReadTail? then S.CCheckTail(s.core.c.peek) else S.CNext(s.core.c.peek);
            Then(s, s', S.SetBlock(s.core, s.core.frontBlock, f.(localTail := f.tail)).(
                          c := if f.front != f.tail then S.CRead(s.core.c.peek) else empty))
  {
    Shaped(s);
    var f := S.Front(s.core);
    var empty := if s.core.c.CReadTail? then S.CCheckTail(s.core.c.peek) else S.CNext(s.core.c.peek);
    var c' := S.SetBlock(s.core, s.core.frontBlock, f.(localTail := f.tail)).(
            c := if f.front != f.tail then S.CRead(s.core.c.peek) else empty);
    assert S.ConsumerStep(s.core, c');
    s' := Steps(s, c');
  }

  /** With the front block empty and no block ahead the queue is empty. */
  lemma FindsNothing<T(!new)>(s: S.State<T>) returns (s': S.State<T>)
    requires S.Reachable(s) && s.core.c.CCheckTail? && InBlocks(s.core) && s.core.frontBlock == s.core.tailBlock
    requires S.Front(s.core).front == S.Front(s.core).tail
    ensures Then(s, s', s.core.(c := S.CDone(S.None))) && Queued(s) == []
  {
    S.ReachableInv(s);
    S.OneBlock(s.core);
    assert S.ConsumerStep(s.core, s.core.(c := S.CDone(S.None)));
    s' := Steps(s, s.core.(c := S.CDone(S.None)));
  }

  lemma SeesAnother<T(!new)>(s: S.State<T>) returns (s': S.State<T>)
    requires S.Reachable(s) && s.core.c.CCheckTail? && InBlocks(s.core) && s.core.frontBlock != s.core.tailBlock
    ensures Then(s, s', s.core.(c := S.CReread(s.core.c.peek)))
  {
    Shaped(s);
    assert S.ConsumerStep(s.core, s.core.(c := S.CReread(s.core.c.peek)));
    s' := Steps(s, s.core.(c := S.CReread(s.core.c.peek)));
  }

  /** The next block has a front element, as the source asserts. */
  lemma FindsNext<T(!new)>(s: S.State<T>) returns (s': S.State<T>)
    requires S.Reachable(s) && s.core.c.CNext?
    ensures InBlocks(s.core)
    ensures var n := S.Front(s.core).next;
            && n < |s.core.blocks| && n != s.core.frontBlock && s.core.blocks[n].front != s.core.blocks[n].tail
            && Then(s, s', s.core.(c := if s.core.c.peek then S.CPeekNext(n) else S.CNextTail(n)))
  {
    S.ReachableInv(s);
    var n := S.Front(s.core).next;
    var c' := s.core.(c := if s.core.c.peek then S.CPeekNext(n) else S.CNextTail(n));
    assert S.ConsumerStep(s.core, c');
    s' := Steps(s, c');
    S.AssertionsHold(s');
  }

  lemma Advances<T(!new)>(s: S.State<T>) returns (s': S.State<T>)
    requires S.Reachable(s) && s.core.c.CNextTail? && s.core.c.next < |s.core.blocks|
    ensures var n := s.core.c.next;
            var b := s.core.blocks[n];
            Then(s, s', S.SetBlock(s.core, n, b.(localTail := b.tail)).(
                          frontBlock := n, c := S.CRead(false), ring := s'.core.ring, tpos := s'.core.tpos))
  {
    Shaped(s);
    var n := s.core.c.next;
    var b := s.core.blocks[n];
    var c1 := S.SetBlock(s.core, n, b.(localTail := b.tail)).(c := S.CSetFront(n));
    assert S.ConsumerStep(s.core, c1);
    var s1 := Steps(s, c1);
    s' := SetsFront(s1);
  }

  lemma SetsFront<T(!new)>(s: S.State<T>) returns (s': S.State<T>)
    requires S.Reachable(s) && s.core.c.CSetFront?
    ensures Then(s, s', s.core.(frontBlock := s.core.c.next, c := S.CRead(false), ring := s'.core.ring, tpos := s'.core.tpos))
  {
    S.ReachableInv(s);
    var c := s.core;
    var c' := c.(frontBlock := c.c.next, c := S.CRead(false), ring := c.ring[1..] + [c.ring[0]], tpos := c.tpos - 1);
    assert S.ConsumerStep(c, c');
    s' := Steps(s, c');
  }

  lemma Takes<T(!new)>(s: S.State<T>) returns (s': S.State<T>)
    requires S.Reachable(s) && s.core.c == S.CRead(false)
    ensures InBlocks(s.core) && S.BlockOk(S.Front(s.core))
    ensures var f := S.Front(s.core);
            var v := f.data[f.front];
            && Then(s, s', S.SetBlock(s.core, s.core.frontBlock, f.(front := S.Wrap(f.front + 1, |f.data|))).(
                             c := S.CDone(S.Some(v)), dequeued := s.core.dequeued + [v]))
            && Queued(s) == [v] + Queued(s')
  {
    Shaped(s);
    var f := S.Front(s.core);
    var v := f.data[f.front];
    var c1 := s.core.(c := S.CPublish(v));
    assert S.ConsumerStep(s.core, c1);
    var s1 := Steps(s, c1);
    s' := Publishes(s1);
    OneLess(s, s', v);
  }

  lemma Publishes<T(!new)>(s: S.State<T>) returns (s': S.State<T>)
    requires S.Reachable(s) && s.core.c.CPublish?
    ensures InBlocks(s.core) && S.BlockOk(S.Front(s.core))
    ensures var f := S.Front(s.core);
            Then(s, s', S.SetBlock(s.core, s.core.frontBlock, f.(front := S.Wrap(f.front + 1, |f.data|))).(
                          c := S.CDone(S.Some(s.core.c.v)), dequeued := s.core.dequeued + [s.core.c.v]))
  {
    Shaped(s);
    var f := S.Front(s.core);
    var c' := S.SetBlock(s.core, s.core.frontBlock, f.(front := S.Wrap(f.front + 1, |f.data|))).(
                c := S.CDone(S.Some(s.core.c.v)), dequeued := s.core.dequeued + [s.core.c.v]);
    assert S.ConsumerStep(s.core, c');
    s' := Steps(s, c');
  }

  lemma OneLess<T(!new)>(s: S.State<T>, s': S.State<T>, v: T)
    requires S.Reachable(s) && S.Reachable(s')
    requires s'.core.enqueued == s.core.enqueued && s'.core.dequeued == s.core.dequeued + [v]
    ensures Queued(s) == [v] + Queued(s')
  {
    QueuedIs(s);
    QueuedIs(s');
    Rest(s.core.enqueued, s.core.dequeued, v);
  }

  lemma Rest<T>(all: seq<T>, taken: seq<T>, v: T)
    requires taken + [v] <= all
    ensures all[|taken|..] == [v] + all[|taken + [v]|..]
  {
    assert (taken + [v])[|taken|] == v;
  }

  /** What the consumer takes for the tail of its block. */
  function SeenTail<T>(f: S.Block<T>): nat {
    if f.front != f.localTail then f.localTail else f.tail
  }

  /** The block after the front block has an element, if the front block is not the last. */
  ghost predicate NextFilled<T>(c: S.Core<T>)
    requires InBlocks(c)
  {
    && c.frontBlock != c.tailBlock && S.Front(c).next != c.frontBlock && S.Front(c).next < |c.blocks|
    && c.blocks[S.Front(c).next].front != c.blocks[S.Front(c).next].tail
  }

  /** What `try_dequeue` does to the blocks. */
  ghost predicate DequeueMemory<T>(c: S.Core<T>, c': S.Core<T>, r: S.Option<T>) {
    && InBlocks(c) && S.BlockOk(S.Front(c))
    && var f, k := S.Front(c), c.frontBlock;
    var f1 := f.(localTail := SeenTail(f));
    var c1 := S.SetBlock(c, k, f1);
    if f.front != SeenTail(f) then
      SameMemory(S.SetBlock(c1, k, f1.(front := S.Wrap(f.front + 1, |f.data|))), c') && r == S.Some(f.data[f.front])
    else if k != c.tailBlock then
      && NextFilled(c1) && S.BlockOk(c.blocks[f.next])
      && var n := c.blocks[f.next];
      var c2 := S.SetBlock(c1, f.next, n.(localTail := n.tail)).(frontBlock := f.next);
      && SameMemory(S.SetBlock(c2, f.next, S.Front(c2).(front := S.Wrap(n.front + 1, |n.data|))), c')
      && r == S.Some(n.data[n.front])
    else
      SameMemory(c1, c') && r == S.None
  }

  /** The consumer rests again, having taken r. */
  ghost predicate Took<T(!new)>(s: S.State<T>, s': S.State<T>, r: S.Option<T>)
  {
    && S.Reachable(s) && S.Reachable(s') && s'.maxSize == s.maxSize && s'.core.p == s.core.p && s'.core.c.Resting()
    && Queued(s) == (if r.Some? then [r.value] else []) + Queued(s') && (r.None? ==> Queued(s) == [])
    && DequeueMemory(s.core, s'.core, r)
  }

  lemma FrontOk<T(!new)>(s: S.State<T>)
    requires S.Reachable(s)
    ensures InBlocks(s.core) && S.BlockOk(S.Front(s.core))
    ensures S.Front(s.core).front != S.Front(s.core).localTail ==> S.Front(s.core).front != S.Front(s.core).tail
    ensures forall i | 0 <= i < |s.core.blocks| :: S.BlockOk(s.core.blocks[i])
  {
    S.ReachableInv(s);
  }

  lemma Dequeues<T(!new)>(s: S.State<T>) returns (s': S.State<T>, r: S.Option<T>)
    requires S.Reachable(s) && s.core.c.Resting()
    ensures Took(s, s', r)
  {
    FrontOk(s);
    var s1 := CallsDequeue(s, false);
    var s2 := s1;
    if s1.core.c.CReadTail? { s2 := LooksAtTail(s1); }
    if s2.core.c == S.CRead(false) {
      s', r := TakesHere(s, s2);
    } else if s.core.frontBlock == s.core.tailBlock {
      assert s2.core.blocks == s.core.blocks;
      s' := FindsNothing(s2);
      r := S.None;
    } else {
      assert s2.core.blocks == s.core.blocks;
      s', r := LooksAhead(s, s2);
    }
  }

  lemma TakesHere<T(!new)>(s: S.State<T>, s2: S.State<T>) returns (s': S.State<T>, r: S.Option<T>)
    requires S.Reachable(s) && InBlocks(s.core) && S.Front(s.core).front != SeenTail(S.Front(s.core))
    requires Then(s, s2, S.SetBlock(s.core, s.core.frontBlock, S.Front(s.core).(localTail := SeenTail(S.Front(s.core)))).(
                           c := S.CRead(false)))
    ensures Took(s, s', r)
  {
    FrontOk(s);
    s' := Takes(s2);
    r := s'.core.c.r;
  }

  lemma LooksAhead<T(!new)>(s: S.State<T>, s2: S.State<T>) returns (s': S.State<T>, r: S.Option<T>)
    requires S.Reachable(s) && InBlocks(s.core) && s.core.frontBlock != s.core.tailBlock
    requires Then(s, s2, s.core.(c := S.CCheckTail(false)))
    requires S.Front(s.core).front == S.Front(s.core).localTail == S.Front(s.core).tail
    ensures Took(s, s', r)
  {
    FrontOk(s);
    var s3 := SeesAnother(s2);
    var s4 := LooksAtTail(s3);
    assert s4.core.blocks == s.core.blocks;
    var s5 := FindsNext(s4);
    var s6 := Advances(s5);
    s' := Takes(s6);
    r := s'.core.c.r;
  }

  // ---------- the producer alone ----------

  ghost predicate SameMemory<T>(c: S.Core<T>, c': S.Core<T>) {
    && c'.blocks == c.blocks && c'.frontBlock == c.frontBlock && c'.tailBlock == c.tailBlock
    && c'.largest == c.largest && c'.maxBlock == c.maxBlock
  }

  function Pushed<T>(b: S.Block<T>, v: T): S.Block<T>
    requires S.BlockOk(b)
  {
    b.(data := b.data[b.tail := v], tail := S.Wrap(b.tail + 1, |b.data|))
  }

  /** What the producer takes for the front of its block. */
  function SeenFront<T>(t: S.Block<T>): nat
    requires S.BlockOk(t)
  {
    if S.Wrap(t.tail + 1, |t.data|) != t.localFront then t.localFront else t.front
  }

  ghost function NewSize<T>(c: S.Core<T>): nat {
    if c.largest >= c.maxBlock then c.largest else c.largest * 2
  }

  ghost predicate AddsBlock<T>(c: S.Core<T>, c': S.Core<T>, data: seq<T>) {
    && InBlocks(c)
    && var t := S.Tail(c);
    c' == c.(blocks := (c.blocks + [S.Block(0, 1, 1, 0, t.next, data)])[c.tailBlock := t.(next := |c.blocks|)],
             tailBlock := |c.blocks|, largest := NewSize(c))
  }

  ghost predicate NextEmpty<T>(c: S.Core<T>) {
    && InBlocks(c) && S.Tail(c).next < |c.blocks|
    && (S.Tail(c).next != c.frontBlock ==> c.blocks[S.Tail(c).next].front == c.blocks[S.Tail(c).next].tail)
  }

  /** What `inner_enqueue` does to the blocks. */
  ghost predicate EnqueueMemory<T>(c: S.Core<T>, c': S.Core<T>, v: T, alloc: bool, memory: bool, ok: bool, data: seq<T>) {
    && InBlocks(c) && S.BlockOk(S.Tail(c))
    && var t, k := S.Tail(c), c.tailBlock;
    var t1 := t.(localFront := SeenFront(t));
    var c1 := S.SetBlock(c, k, t1);
    if S.Wrap(t.tail + 1, |t.data|) != SeenFront(t) then
      ok && SameMemory(S.SetBlock(c1, k, Pushed(t1, v)), c')
    else if t.next != c.frontBlock then
      && ok && t.next < |c.blocks| && S.BlockOk(c1.blocks[t.next])
      && var n := c1.blocks[t.next];
      SameMemory(S.SetBlock(c1, t.next, Pushed(n.(localFront := n.front), v)).(tailBlock := t.next), c')
    else if alloc && memory then
      && ok && |data| == NewSize(c) >= 2 && data[0] == v
      && AddsBlock(c1, c', data)
    else
      !ok && SameMemory(c1, c')
  }

  lemma Doubled(a: nat, b: nat)
    requires MaskSize(a) && MaskSize(b) && a >= 1
    ensures a < b ==> MaskSize(a * 2)
  {
    if a < b {
      var j: nat :| a == PowersOfTwo.Pow2(j);
      var k: nat :| b == PowersOfTwo.Pow2(k);
      if k <= j { PowersOfTwo.Monotone(k, j); }
      PowersOfTwo.Monotone(j + 1, k);
      assert a * 2 == PowersOfTwo.Pow2(j + 1);
    }
  }

  lemma WordIsPow2()
    ensures MaskSize(PowersOfTwo.WORD_SIZE) && MaskSize(PowersOfTwo.WORD_SIZE / 2)
  {
    PowersOfTwo.WordSize();
  }

  lemma NextIsEmpty<T(!new)>(s: S.State<T>)
    requires S.Reachable(s) && s.core.p.Resting()
    ensures NextEmpty(s.core)
  {
    S.ReachableInv(s);
    var c := s.core;
    assert c.blocks[c.ring[c.tpos]].next == c.ring[if c.tpos + 1 < |c.ring| then c.tpos + 1 else 0];
    if c.tpos + 1 < |c.ring| { assert S.FillOk(c, c.tpos + 1); }
  }

  lemma CallsEnqueue<T(!new)>(s: S.State<T>, v: T, alloc: bool) returns (s': S.State<T>)
    requires S.Reachable(s) && s.core.p.Resting()
    ensures InBlocks(s.core) && S.BlockOk(S.Tail(s.core))
    ensures var t := S.Tail(s.core);
            Then(s, s', s.core.(p := if S.Wrap(t.tail + 1, |t.data|) != t.localFront then S.PWrite(v)
                                     else S.PReadFront(v, alloc)))
  {
    Shaped(s);
    var t := S.Tail(s.core);
    var c' := s.core.(p := if S.Wrap(t.tail + 1, |t.data|) != t.localFront then S.PWrite(v) else S.PReadFront(v, alloc));
    assert S.EnqueueCall(s.core, c', v, alloc);
    s' := Steps(s, c');
  }

  lemma LooksAtFront<T(!new)>(s: S.State<T>) returns (s': S.State<T>)
    requires S.Reachable(s) && s.core.p.PReadFront?
    ensures InBlocks(s.core) && S.BlockOk(S.Tail(s.core))
    ensures var t := S.Tail(s.core);
            Then(s, s', S.SetBlock(s.core, s.core.tailBlock, t.(localFront := t.front)).(
                          p := if S.Wrap(t.tail + 1, |t.data|) != t.front then S.PWrite(s.core.p.v)
                               else S.PCheckNext(s.core.p.v, s.core.p.alloc)))
  {
    Shaped(s);
    var t := S.Tail(s.core);
    var c' := S.SetBlock(s.core, s.core.tailBlock, t.(localFront := t.front)).(
                p := if S.Wrap(t.tail + 1, |t.data|) != t.front then S.PWrite(s.core.p.v)
                     else S.PCheckNext(s.core.p.v, s.core.p.alloc));
    assert S.ProducerStep(s.core, c');
    s' := Steps(s, c');
  }

  /** The consumer does not move and v is enqueued. */
  ghost predicate Added<T(!new)>(s: S.State<T>, s': S.State<T>, v: T) {
    && S.Reachable(s') && s'.maxSize == s.maxSize && s'.core.p == S.PDone(true) && s'.core.c == s.core.c
    && s'.core.enqueued == s.core.enqueued + [v] && s'.core.dequeued == s.core.dequeued
  }

  lemma Writes<T(!new)>(s: S.State<T>) returns (s': S.State<T>)
    requires S.Reachable(s) && s.core.p.PWrite?
    ensures InBlocks(s.core) && S.BlockOk(S.Tail(s.core)) && Added(s, s', s.core.p.v)
    ensures SameMemory(S.SetBlock(s.core, s.core.tailBlock, Pushed(S.Tail(s.core), s.core.p.v)), s'.core)
  {
    Shaped(s);
    var t, v := S.Tail(s.core), s.core.p.v;
    var c1 := S.SetBlock(s.core, s.core.tailBlock, t.(data := t.data[t.tail := v])).(p := S.PPublish(v));
    assert S.ProducerStep(s.core, c1);
    var s1 := Steps(s, c1);
    s' := PublishesTail(s1);
    assert s'.core.blocks == s.core.blocks[s.core.tailBlock := Pushed(t, v)];
  }

  lemma PublishesTail<T(!new)>(s: S.State<T>) returns (s': S.State<T>)
    requires S.Reachable(s) && s.core.p.PPublish?
    ensures InBlocks(s.core) && S.BlockOk(S.Tail(s.core)) && Added(s, s', s.core.p.v)
    ensures var t := S.Tail(s.core);
            SameMemory(S.SetBlock(s.core, s.core.tailBlock, t.(tail := S.Wrap(t.tail + 1, |t.data|))), s'.core)
  {
    Shaped(s);
    var t := S.Tail(s.core);
    var c' := S.SetBlock(s.core, s.core.tailBlock, t.(tail := S.Wrap(t.tail + 1, |t.data|))).(
                p := S.PDone(true), enqueued := s.core.enqueued + [s.core.p.v]);
    assert S.ProducerStep(s.core, c');
    s' := Steps(s, c');
  }

  lemma ChecksNext<T(!new)>(s: S.State<T>) returns (s': S.State<T>)
    requires S.Reachable(s) && s.core.p.PCheckNext?
    ensures InBlocks(s.core) && S.Tail(s.core).next < |s.core.blocks|
    ensures var p := s.core.p;
            Then(s, s', s.core.(p := if S.Tail(s.core).next != s.core.frontBlock then S.PNextFront(p.v)
                                     else if p.alloc then S.PAlloc(p.v) else S.PDone(false)))
  {
    S.ReachableInv(s);
    var p := s.core.p;
    assert s.core.blocks[s.core.ring[s.core.tpos]].next ==
           s.core.ring[if s.core.tpos + 1 < |s.core.ring| then s.core.tpos + 1 else 0];
    var c' := s.core.(p := if S.Tail(s.core).next != s.core.frontBlock then S.PNextFront(p.v)
                           else if p.alloc then S.PAlloc(p.v) else S.PDone(false));
    assert S.ProducerStep(s.core, c');
    s' := Steps(s, c');
  }

  /** Without a free block ahead of a full tail block, the queue holds what was asked for. */
  lemma HoldsEnough<T(!new)>(s: S.State<T>)
    requires S.Reachable(s) && s.core.p.PCheckNext? && InBlocks(s.core) && S.BlockOk(S.Tail(s.core))
    requires S.Full(S.Tail(s.core)) && S.Tail(s.core).next == s.core.frontBlock
    ensures |Queued(s)| >= s.maxSize
  {
    S.ReachableInv(s);
    var c := s.core;
    assert c.blocks[c.ring[c.tpos]].next == c.ring[if c.tpos + 1 < |c.ring| then c.tpos + 1 else 0];
    S.NoRoomAhead(c, s.maxSize);
    QueuedIs(s);
  }

  lemma FillsNext<T(!new)>(s: S.State<T>) returns (s': S.State<T>)
    requires S.Reachable(s) && s.core.p.PNextFront? && InBlocks(s.core) && S.Tail(s.core).next < |s.core.blocks|
    ensures var c, k := s.core, S.Tail(s.core).next;
            var n := c.blocks[k];
            && S.BlockOk(n) && Added(s, s', c.p.v)
            && SameMemory(S.SetBlock(c, k, Pushed(n.(localFront := n.front), c.p.v)).(tailBlock := k), s'.core)
  {
    Shaped(s);
    var c, k := s.core, S.Tail(s.core).next;
    var n := c.blocks[k];
    var c1 := S.SetBlock(c, k, n.(localFront := n.front)).(p := S.PNextWrite(c.p.v));
    assert S.ProducerStep(c, c1);
    var s1 := Steps(s, c1);
    NextApart(s);
    s' := WritesNext(s1);
    assert s'.core.blocks == c.blocks[k := Pushed(n.(localFront := n.front), c.p.v)];
  }

  lemma NextApart<T(!new)>(s: S.State<T>)
    requires S.Reachable(s) && s.core.p.AtNext() && InBlocks(s.core)
    ensures S.Tail(s.core).next != s.core.tailBlock && S.Tail(s.core).next < |s.core.blocks|
  {
    S.ReachableInv(s);
    var c := s.core;
    assert c.blocks[c.ring[c.tpos]].next == c.ring[if c.tpos + 1 < |c.ring| then c.tpos + 1 else 0];
  }

  lemma WritesNext<T(!new)>(s: S.State<T>) returns (s': S.State<T>)
    requires S.Reachable(s) && s.core.p.PNextWrite? && InBlocks(s.core) && S.Tail(s.core).next < |s.core.blocks|
    ensures var c, k := s.core, S.Tail(s.core).next;
            && S.BlockOk(c.blocks[k]) && Added(s, s', c.p.v)
            && SameMemory(S.SetBlock(c, k, Pushed(c.blocks[k], c.p.v)).(tailBlock := k), s'.core)
  {
    Shaped(s);
    NextApart(s);
    var c, k := s.core, S.Tail(s.core).next;
    var n := c.blocks[k];
    var c1 := S.SetBlock(c, k, n.(data := n.data[n.tail := c.p.v])).(p := S.PNextTail(c.p.v));
    assert S.ProducerStep(c, c1);
    var s1 := Steps(s, c1);
    var c2 := S.SetBlock(c1, k, Pushed(n, c.p.v)).(p := S.PNextPublish(c.p.v));
    s' := AdvancesTail(s1, c2);
    assert s'.core.blocks == c.blocks[k := Pushed(n, c.p.v)];
  }

  lemma AdvancesTail<T(!new)>(s: S.State<T>, c2: S.Core<T>) returns (s': S.State<T>)
    requires S.Reachable(s) && s.core.p.PNextTail? && InBlocks(s.core) && S.Tail(s.core).next < |s.core.blocks|
    requires S.Tail(s.core).next != s.core.tailBlock && S.BlockOk(s.core.blocks[S.Tail(s.core).next])
    requires var k := S.Tail(s.core).next;
             var n := s.core.blocks[k];
             c2 == S.SetBlock(s.core, k, n.(tail := S.Wrap(n.tail + 1, |n.data|))).(p := S.PNextPublish(s.core.p.v))
    ensures Added(s, s', s.core.p.v) && SameMemory(c2.(tailBlock := S.Tail(s.core).next), s'.core)
  {
    Shaped(s);
    assert S.ProducerStep(s.core, c2);
    var s2 := Steps(s, c2);
    var c3 := c2.(p := S.PDone(true), tailBlock := S.Tail(c2).next, tpos := c2.tpos + 1,
                  enqueued := c2.enqueued + [s.core.p.v]);
    assert S.ProducerStep(c2, c3);
    s' := Steps(s2, c3);
  }

  lemma Allocates<T(!new)>(s: S.State<T>, data: seq<T>) returns (s': S.State<T>)
    requires S.Reachable(s) && s.core.p.PAlloc? && |data| == NewSize(s.core) >= 2 && data[0] == s.core.p.v
    ensures InBlocks(s.core) && Added(s, s', s.core.p.v) && s'.core.frontBlock == s.core.frontBlock
    ensures s'.core.maxBlock == s.core.maxBlock && s'.core.tailBlock == |s.core.blocks| && s'.core.largest == NewSize(s.core)
    ensures var t := S.Tail(s.core);
            s'.core.blocks == (s.core.blocks + [S.Block(0, 1, 1, 0, t.next, data)])[
                                s.core.tailBlock := t.(next := |s.core.blocks|)]
  {
    Shaped(s);
    var c, v := s.core, s.core.p.v;
    var f := S.Block(0, 1, 1, 0, S.Tail(c).next, data);
    var c1 := c.(blocks := c.blocks + [f], largest := NewSize(c), p := S.PLink(v, |c.blocks|));
    assert S.ProducerStep(c, c1);
    var s1 := Steps(s, c1);
    s' := LinksBlock(s1);
  }

  lemma LinksBlock<T(!new)>(s: S.State<T>) returns (s': S.State<T>)
    requires S.Reachable(s) && s.core.p.PLink?
    ensures InBlocks(s.core) && Added(s, s', s.core.p.v)
    ensures SameMemory(S.SetBlock(s.core, s.core.tailBlock, S.Tail(s.core).(next := s.core.p.block)).(
                         tailBlock := s.core.p.block), s'.core)
  {
    S.ReachableInv(s);
    var c, f := s.core, s.core.p.block;
    var c1 := S.SetBlock(c, c.tailBlock, S.Tail(c).(next := f)).(
                p := S.PLinkPublish(c.p.v, f), ring := c.ring[..c.tpos + 1] + [f] + c.ring[c.tpos + 1..]);
    assert S.ProducerStep(c, c1);
    var s1 := Steps(s, c1);
    var c2 := c1.(p := S.PDone(true), tailBlock := f, tpos := c1.tpos + 1, enqueued := c1.enqueued + [c.p.v]);
    assert S.ProducerStep(c1, c2);
    s' := Steps(s1, c2);
  }

  lemma FailsToAllocate<T(!new)>(s: S.State<T>) returns (s': S.State<T>)
    requires S.Reachable(s) && s.core.p.PAlloc?
    ensures Then(s, s', s.core.(p := S.PDone(false)))
  {
    Shaped(s);
    assert S.ProducerStep(s.core, s.core.(p := S.PDone(false)));
    s' := Steps(s, s.core.(p := S.PDone(false)));
  }

  /** The producer rests again, with v enqueued if ok. */
  ghost predicate Offered<T(!new)>(s: S.State<T>, s': S.State<T>, v: T, ok: bool) {
    && S.Reachable(s) && S.Reachable(s') && s'.maxSize == s.maxSize && s'.core.p.Resting() && s'.core.c == s.core.c
    && Queued(s') == if ok then Queued(s) + [v] else Queued(s)
  }

  lemma AddsOne<T(!new)>(s: S.State<T>, s': S.State<T>, v: T)
    requires S.Reachable(s) && Added(s, s', v)
    ensures Offered(s, s', v, true)
  {
    QueuedIs(s);
  }

  lemma Enqueues<T(!new)>(s: S.State<T>, v: T, alloc: bool, memory: bool, ok: bool, data: seq<T>, c': S.Core<T>)
      returns (s': S.State<T>)
    requires S.Reachable(s) && s.core.p.Resting() && EnqueueMemory(s.core, c', v, alloc, memory, ok, data)
    ensures Offered(s, s', v, ok) && SameMemory(c', s'.core)
    ensures !ok && !alloc ==> |Queued(s)| >= s.maxSize
  {
    var s1 := CallsEnqueue(s, v, alloc);
    var t := S.Tail(s.core);
    if s1.core.p.PWrite? {
      s' := Writes(s1);
      AddsOne(s, s', v);
      assert t.(localFront := SeenFront(t)) == t;
      assert S.SetBlock(s.core, s.core.tailBlock, t) == s.core;
    } else {
      s' := EnqueuesLooking(s, s1, v, alloc, memory, ok, data, c');
    }
  }

  lemma EnqueuesLooking<T(!new)>(
      s: S.State<T>, s1: S.State<T>, v: T, alloc: bool, memory: bool, ok: bool, data: seq<T>, c': S.Core<T>)
      returns (s': S.State<T>)
    requires S.Reachable(s) && s.core.p.Resting() && EnqueueMemory(s.core, c', v, alloc, memory, ok, data)
    requires Then(s, s1, s.core.(p := S.PReadFront(v, alloc)))
    requires S.Wrap(S.Tail(s.core).tail + 1, |S.Tail(s.core).data|) == S.Tail(s.core).localFront
    ensures Offered(s, s', v, ok) && SameMemory(c', s'.core)
    ensures !ok && !alloc ==> |Queued(s)| >= s.maxSize
  {
    var s2 := LooksAtFront(s1);
    if s2.core.p.PWrite? {
      s' := Writes(s2);
      AddsOne(s, s', v);
      var t := S.Tail(s.core);
      assert c'.blocks == s2.core.blocks[s.core.tailBlock := Pushed(t.(localFront := t.front), v)];
    } else {
      var s3 := ChecksNext(s2);
      if s3.core.p.PNextFront? {
        s' := FillsNext(s3);
        AddsOne(s, s', v);
      } else if alloc && memory {
        s' := Allocates(s3, data);
        AddsOne(s, s', v);
      } else if alloc {
        s' := FailsToAllocate(s3);
      } else {
        HoldsEnough(s2);
        s' := s3;
      }
    }
  }

  // ---------- peek ----------

  lemma PeeksHere<T(!new)>(s: S.State<T>) returns (s': S.State<T>)
    requires S.Reachable(s) && s.core.c == S.CRead(true)
    ensures InBlocks(s.core) && S.BlockOk(S.Front(s.core))
    ensures var v := S.Front(s.core).data[S.Front(s.core).front];
            Then(s, s', s.core.(c := S.CDone(S.Some(v)))) && Queued(s) != [] && Queued(s)[0] == v
  {
    S.ReachableInv(s);
    var v := S.Front(s.core).data[S.Front(s.core).front];
    assert S.ConsumerStep(s.core, s.core.(c := S.CDone(S.Some(v))));
    s' := Steps(s, s.core.(c := S.CDone(S.Some(v))));
    S.OldestValue(s.core);
    QueuedIs(s);
  }

  lemma PeeksNext<T(!new)>(s: S.State<T>) returns (s': S.State<T>)
    requires S.Reachable(s) && s.core.c.CPeekNext?
    ensures s.core.c.next < |s.core.blocks| && S.BlockOk(s.core.blocks[s.core.c.next])
    ensures var v := s.core.blocks[s.core.c.next].data[s.core.blocks[s.core.c.next].front];
            Then(s, s', s.core.(c := S.CDone(S.Some(v)))) && Queued(s) != [] && Queued(s)[0] == v
  {
    S.ReachableInv(s);
    var n := s.core.blocks[s.core.c.next];
    assert S.ConsumerStep(s.core, s.core.(c := S.CDone(S.Some(n.data[n.front]))));
    s' := Steps(s, s.core.(c := S.CDone(S.Some(n.data[n.front]))));
    S.OldestValue(s.core);
    QueuedIs(s);
  }

  /** What `peek` does to the blocks. */
  ghost predicate PeekMemory<T>(c: S.Core<T>, c': S.Core<T>, r: S.Option<T>) {
    && InBlocks(c) && S.BlockOk(S.Front(c))
    && var f, k := S.Front(c), c.frontBlock;
    var c1 := S.SetBlock(c, k, f.(localTail := SeenTail(f)));
    && SameMemory(c1, c')
    && if f.front != SeenTail(f) then r == S.Some(f.data[f.front])
       else if k != c.tailBlock then
         && NextFilled(c1) && S.BlockOk(c.blocks[f.next])
         && r == S.Some(c.blocks[f.next].data[c.blocks[f.next].front])
       else r == S.None
  }

  /** The consumer rests again, having seen r. */
  ghost predicate Saw<T(!new)>(s: S.State<T>, s': S.State<T>, r: S.Option<T>) {
    && S.Reachable(s) && S.Reachable(s') && s'.maxSize == s.maxSize && s'.core.p == s.core.p && s'.core.c.Resting()
    && Queued(s') == Queued(s) && r == (if Queued(s) == [] then S.None else S.Some(Queued(s)[0]))
    && PeekMemory(s.core, s'.core, r)
  }

  lemma Peeks<T(!new)>(s: S.State<T>) returns (s': S.State<T>, r: S.Option<T>)
    requires S.Reachable(s) && s.core.c.Resting()
    ensures Saw(s, s', r)
  {
    FrontOk(s);
    var s1 := CallsDequeue(s, true);
    var s2 := s1;
    if s1.core.c.CReadTail? { s2 := LooksAtTail(s1); }
    if s2.core.c == S.CRead(true) {
      s' := PeeksHere(s2);
      r := s'.core.c.r;
    } else if s.core.frontBlock == s.core.tailBlock {
      assert s2.core.blocks == s.core.blocks;
      s' := FindsNothing(s2);
      r := S.None;
    } else {
      assert s2.core.blocks == s.core.blocks;
      s', r := PeeksAhead(s, s2);
    }
  }

  lemma PeeksAhead<T(!new)>(s: S.State<T>, s2: S.State<T>) returns (s': S.State<T>, r: S.Option<T>)
    requires S.Reachable(s) && InBlocks(s.core) && s.core.frontBlock != s.core.tailBlock
    requires Then(s, s2, s.core.(c := S.CCheckTail(true)))
    requires S.Front(s.core).front == S.Front(s.core).localTail == S.Front(s.core).tail
    ensures Saw(s, s', r)
  {
    FrontOk(s);
    var s3 := SeesAnother(s2);
    var s4 := LooksAtTail(s3);
    assert s4.core.blocks == s.core.blocks;
    var s5 := FindsNext(s4);
    s' := PeeksNext(s5);
    r := s'.core.c.r;
  }

  // ---------- the first state, and sizes ----------

  /** Blocks in allocation order that form a circle, all empty. */
  ghost predicate Circle<T(0)>(all: seq<Block<T>>, size: nat)
    reads all
  {
    && (forall i | 0 <= i < |all| ::
          && all[i].id == i && all[i].sizeMask + 1 == all[i].data.Length == size
          && all[i].front == all[i].localTail == all[i].tail == all[i].localFront == 0
          && all[i].next == all[if i + 1 < |all| then i + 1 else 0])
    && forall i, j | 0 <= i < j < |all| :: all[i].data != all[j].data
  }

  method MakeBlocks<T(0)>(count: nat, size: nat) returns (first: Block<T>, ghost all: seq<Block<T>>)
    requires count >= 1 && size >= 1
    ensures |all| == count && first == all[0] && Circle(all, size)
    ensures forall i | 0 <= i < count :: fresh(all[i]) && fresh(all[i].data)
  {
    var firstBlock: Block?<T>, lastBlock: Block?<T> := null, null;
    all := [];
    var i := 0;
    while i != count
      invariant 0 <= i <= count && |all| == i && Circle(all, size)
      invariant forall j | 0 <= j < i :: fresh(all[j]) && fresh(all[j].data)
      invariant firstBlock == (if i == 0 then null else all[0]) && lastBlock == (if i == 0 then null else all[i - 1])
      decreases count - i
    {
      var block := new Block<T>(size, i);
      assert forall j | 0 <= j < i :: block != all[j] && block.data != all[j].data;
      if firstBlock == null {
        firstBlock := block;
      } else {
        lastBlock.next := block;
      }
      lastBlock := block;
      block.next := firstBlock;
      all := all + [block];
      i := i + 1;
    }
    first := firstBlock;
  }

  ghost function FirstCore<T(0)>(all: seq<Block<T>>, largest: nat, maxBlock: nat): S.Core<T>
    reads all, set b: Block<T> | b in all :: b.data
  {
    S.Core(seq(|all|, i requires 0 <= i < |all| reads all, set b: Block<T> | b in all :: b.data => all[i].Value()), 0, 0,
           largest, maxBlock, S.PIdle, S.CIdle, seq(|all|, i => i), 0, [], [])
  }

  lemma FirstReachable<T(!new)>(s: S.State<T>)
    requires S.Init(s)
    ensures S.Reachable(s) && Queued(s) == []
  {
    var run := [s];
    assert S.Follows(run, 0);
    assert S.Run(run) && run[|run| - 1] == s;
  }

  /** How many blocks of which size. */
  method FirstLayout(maxSize: nat, maxBlockSize: nat) returns (count: nat, size: nat)
    requires 0 < maxSize < PowersOfTwo.WORD_SIZE / 2
    requires maxBlockSize >= 2 && MaskSize(maxBlockSize)
    ensures S.Layout(maxSize, maxBlockSize, count, size) && count >= 1 && size >= 2 && MaskSize(size)
  {
    size := PowersOfTwo.CeilToPow2(maxSize + 1);
    ghost var p := size;
    count := 1;
    WordIsPow2();
    if size > maxBlockSize * 2 {
      count := (maxSize + maxBlockSize * 2 - 3) / (maxBlockSize - 1);
      S.BlockCount(maxSize, maxBlockSize);
      size := maxBlockSize;
    }
    assert S.LayoutFor(maxSize, maxBlockSize, count, size, p);
  }

  method NewTail<T(0)>(size: nat, ghost id: nat, v: T, next: Block<T>) returns (block: Block<T>)
    requires size >= 2
    ensures fresh(block) && fresh(block.data) && block.id == id
    ensures block.sizeMask + 1 == block.data.Length == size && block.data[0] == v
    ensures block.next == next && block.Value() == S.Block(0, 1, 1, 0, next.id, block.data[..])
  {
    block := new Block<T>(size, id);
    block.data[0] := v;
    block.tail, block.localTail := 1, 1;
    block.next := next;
  }

  lemma FirstInit<T(0,!new)>(all: seq<Block<T>>, s: S.State<T>)
    requires Circle(all, s.core.largest) && s == S.State(FirstCore(all, s.core.largest, s.core.maxBlock), s.maxSize, true, false)
    requires S.Layout(s.maxSize, s.core.maxBlock, |all|, s.core.largest)
    ensures S.Init(s)
  {
    var c := s.core;
    forall i | 0 <= i < |c.blocks|
      ensures |c.blocks[i].data| == c.largest
      ensures c.blocks[i] == S.Block(0, 0, 0, 0, if i + 1 < |c.blocks| then i + 1 else 0, c.blocks[i].data)
    {
      assert c.blocks[i] == all[i].Value();
      assert all[if i + 1 < |all| then i + 1 else 0].id == if i + 1 < |all| then i + 1 else 0;
    }
    assert S.InitCore(c, s.maxSize);
  }

  /** How many values the first k blocks of the circle hold. */
  ghost function InFirst<T(!new)>(s: S.State<T>, k: nat): nat
    requires S.Reachable(s) && k <= |s.core.ring|
  {
    QueuedIs(s);
    |S.Flat(s.core.blocks, s.core.ring[..k])|
  }

  lemma RingStart<T(!new)>(s: S.State<T>)
    requires S.Reachable(s)
    ensures |s.core.ring| > 0 && s.core.ring[0] == s.core.frontBlock && InFirst(s, 0) == 0
  {
    QueuedIs(s);
  }

  lemma RingStep<T(!new)>(s: S.State<T>, k: nat)
    requires S.Reachable(s) && k < |s.core.ring|
    ensures s.core.ring[k] < |s.core.blocks| && S.BlockOk(s.core.blocks[s.core.ring[k]])
    ensures InFirst(s, k + 1) == InFirst(s, k) + S.Used(s.core.blocks[s.core.ring[k]])
    ensures if k + 1 < |s.core.ring| then
              s.core.blocks[s.core.ring[k]].next == s.core.ring[k + 1] != s.core.frontBlock
            else s.core.blocks[s.core.ring[k]].next == s.core.frontBlock
  {
    QueuedIs(s);
    var c := s.core;
    assert c.ring[..k + 1] == c.ring[..k] + [c.ring[k]];
    S.FlatSnoc(c.blocks, c.ring[..k], c.ring[k]);
    assert c.blocks[c.ring[k]].next == c.ring[if k + 1 < |c.ring| then k + 1 else 0];
  }

  lemma RingEnd<T(!new)>(s: S.State<T>)
    requires S.Reachable(s) && s.core.p.Resting()
    ensures InFirst(s, |s.core.ring|) == |Queued(s)|
  {
    S.ReachableInv(s);
    assert s.core.ring[..|s.core.ring|] == s.core.ring;
    S.FlatTail(s.core);
    QueuedIs(s);
  }

  /** Unsigned subtraction. */
  function Minus(a: nat, b: nat): nat
    requires a < PowersOfTwo.WORD_SIZE && b < PowersOfTwo.WORD_SIZE
  {
    if a >= b then a - b else a + PowersOfTwo.WORD_SIZE - b
  }

  lemma MaskedDifference(front: nat, tail: nat, mask: nat)
    requires front <= mask && tail <= mask && MaskSize(mask + 1)
    ensures PowersOfTwo.And(Minus(tail, front), mask) == S.Dist(front, tail, mask + 1)
  {
    var size := mask + 1;
    var k: nat :| size == PowersOfTwo.Pow2(k);
    PowersOfTwo.MaskIsRemainder(Minus(tail, front), k);
    if tail >= front {
      Modular.Unique(tail - front, size, 0, tail - front);
    } else {
      var q := WordTimes(k);
      Modular.AddMultiple(tail - front, size, q);
      Modular.Unique(tail - front, size, -1, tail + size - front);
    }
  }

  /** A power of two up to the word size divides it. */
  lemma WordTimes(k: nat) returns (q: nat)
    requires PowersOfTwo.Pow2(k) <= PowersOfTwo.WORD_SIZE
    ensures PowersOfTwo.WORD_SIZE == PowersOfTwo.Pow2(k) * q
  {
    PowersOfTwo.WordSize();
    if k > PowersOfTwo.WORD { PowersOfTwo.Monotone(PowersOfTwo.WORD + 1, k); }
    q := PowersOfTwo.Pow2(PowersOfTwo.WORD - k);
    PowerSum(k, PowersOfTwo.WORD - k);
  }

  lemma {:induction false} PowerSum(j: nat, k: nat)
    ensures PowersOfTwo.Pow2(j + k) == PowersOfTwo.Pow2(j) * PowersOfTwo.Pow2(k)
  {
    if j > 0 { PowerSum(j - 1, k); }
  }
}
