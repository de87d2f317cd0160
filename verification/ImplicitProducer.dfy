/** One implicit producer of include/thirdparty/concurrentqueue.h (lines 2135-2708) with its consumers: the
  claims of Overcommit, the lookups of BlockIndex, and blocks that go back to a pool once consumed.

  The producer thread runs `enqueue`; any number of consumers run `dequeue` or `dequeue_bulk`. Each access
  of shared memory is one step; reading or writing one element is one step. The free list is an unordered
  pool here, which is what FreeList shows it to be. A bulk call with a maximum of 0 claims nothing and still
  looks up a block and counts in it; the invariant holds when there are no such calls.
 */
module ImplicitProducer {
  import OC = Overcommit
  import BI = BlockIndex
  import Modular
  import Sets

  /** `done` is `elementsCompletelyDequeued`. */
  datatype Block<T> = Block(done: nat, data: seq<T>)

  /** `enqueue` of v, named by its next access; e is the index entry, b the requisitioned block. */
  datatype Producer<T> =
    | PIdle
    | PCheckHead(v: T)
    | PCheckEntry(v: T)
    | PStoreKey(v: T)
    | PStoreTail(v: T, e: nat)
    | PRequisition(v: T, e: nat)
    | PRewind(v: T, e: nat)
    | PClear(v: T, e: nat)
    | PStoreValue(v: T, e: nat, b: nat)
    | PWrite(v: T)
    | PPublish(v: T)
    | PDone(ok: bool)
  {
    predicate Resting() { PIdle? || PDone? }
    /** In the middle of putting a new block into the index. */
    predicate Inserting() {
      PCheckHead? || PCheckEntry? || PStoreKey? || PStoreTail? || PRequisition? || PRewind? || PClear? || PStoreValue?
    }
    /** The number of the new block is at the tail of the index, its block is not in yet. */
    predicate Inserted() { PRequisition? || PRewind? || PStoreValue? }
  }

  /** A consumer with a claimed range, next index i. h is the header it works with, pos a slot it read as the
      tail and n the number that was there, idx the slot of its block b, start the first index of the
      segment it is consuming. */
  datatype Consumer =
    | CNone
    | CHeader(i: nat)
    | CTail(i: nat, h: nat)
    | CKey(i: nat, h: nat, pos: nat, n: int)
    | CValue(i: nat, h: nat, idx: nat)
    | CRead(i: nat, h: nat, idx: nat, b: nat, start: nat)
    | CEmpty(i: nat, h: nat, idx: nat, b: nat, start: nat)
    | CClear(i: nat, h: nat, idx: nat, b: nat, start: nat)
    | CFree(i: nat, h: nat, idx: nat, b: nat, start: nat)
    | CFinish(i: nat)
  {
    /** The first index of the claimed range that is not counted as emptied yet. */
    function Start(): nat
      requires !CNone?
    {
      if CRead? || CEmpty? then start else i
    }
    predicate Freeing() { CClear? || CFree? }
  }

  /** The last six fields are history: `elems[i]` is the element enqueued at index i, `blk[m]` the block that
      was given number m, `emptied` the indices counted in their block's `done`, `cleared` and `freed` the
      numbers whose entry was set to null and whose block was returned, `taken[i]` what was read at index i. */
  datatype State<T> = State(
    oc: OC.State,
    ix: BI.Index,
    blocks: seq<Block<T>>,
    free: set<nat>,
    tailBlock: nat,
    p: Producer<T>,
    c: seq<Consumer>,
    elems: seq<T>,
    blk: seq<nat>,
    emptied: set<nat>,
    cleared: set<nat>,
    freed: set<nat>,
    taken: map<nat, T>)

  function Num(i: nat, bs: nat): nat
    requires bs > 0
  {
    i / bs
  }

  /** How many blocks the block of index i is ahead of the one that starts at a base. */
  function BlocksFrom(base: int, i: nat, bs: nat): int
    requires bs > 0
  {
    (Num(i, bs) * bs - base) / bs
  }

  ghost predicate Sized<T>(s: State<T>) {
    && s.ix.bs >= 2 && |s.ix.headers| > 0
    && BI.Cur(s.ix).capacity == |BI.Cur(s.ix).index| >= 1 && BI.NextEntry(s.ix) < |s.ix.entries|
    && (forall b | 0 <= b < |s.blocks| :: |s.blocks[b].data| == s.ix.bs)
    && (forall b | b in s.free :: b < |s.blocks|)
    && |s.c| == |s.oc.threads| && |s.elems| == s.oc.tail
  }

  // ---------- the producer ----------

  ghost predicate EnqueueCall<T>(s: State<T>, s': State<T>, v: T)
    requires Sized(s)
  {
    && s.p.Resting()
    && s' == s.(p := if s.oc.tail % s.ix.bs == 0 then PCheckHead(v) else PWrite(v))
  }

  /** Getting a block: from the pool or newly created; its counter is reset. */
  ghost predicate Requisition<T>(s: State<T>, s': State<T>, b: nat)
    requires s.p.PRequisition?
  {
    || (&& b in s.free && b < |s.blocks|
        && s' == s.(free := s.free - {b}, blocks := s.blocks[b := s.blocks[b].(done := 0)],
                    p := PStoreValue(s.p.v, s.p.e, b)))
    || (&& b == |s.blocks| && |s'.blocks| == b + 1 && s'.blocks[b].done == 0 && |s'.blocks[b].data| == s.ix.bs
        && s' == s.(blocks := s.blocks + [s'.blocks[b]], p := PStoreValue(s.p.v, s.p.e, b)))
  }

  ghost predicate ProducerStep<T>(s: State<T>, s': State<T>)
    requires Sized(s)
  {
    match s.p
    case PCheckHead(v) => s' == s.(p := if s.oc.head < s.oc.tail + s.ix.bs then PCheckEntry(v) else PDone(false))
    case PCheckEntry(v) =>
      if BI.CanReuse(s.ix) then s' == s.(p := PStoreKey(v))
      else s' == s.(p := PDone(false)) || (BI.Grows(s.ix, s'.ix) && s' == s.(ix := s'.ix, p := PStoreKey(v)))
    case PStoreKey(v) => s' == s.(ix := BI.StoreKey(s.ix), p := PStoreTail(v, BI.NextEntry(s.ix)))
    case PStoreTail(v, e) => s' == s.(ix := BI.AdvanceTail(s.ix), p := PRequisition(v, e))
    case PRequisition(v, e) => (exists b :: Requisition(s, s', b)) || s' == s.(p := PRewind(v, e))
    case PRewind(v, e) => s' == s.(ix := BI.RewindTail(s.ix), p := PClear(v, e))
    case PClear(v, e) => e < |s.ix.entries| && s' == s.(ix := BI.SetValue(s.ix, e, BI.None), p := PDone(false))
    case PStoreValue(v, e, b) =>
      && e < |s.ix.entries|
      && s' == s.(ix := BI.SetValue(s.ix, e, BI.Some(b)), tailBlock := b, blk := s.blk + [b], p := PWrite(v))
    case PWrite(v) =>
      && s.tailBlock < |s.blocks|
      && var b := s.blocks[s.tailBlock];
         s' == s.(blocks := s.blocks[s.tailBlock := b.(data := b.data[s.oc.tail % s.ix.bs := v])], p := PPublish(v))
    case PPublish(v) =>
      && OC.Enqueue(s.oc, s'.oc)
      && s' == s.(oc := s'.oc, elems := s.elems + [v], p := PDone(true))
    case _ => false
  }

  // ---------- the consumers ----------

  /** A consumer works on its claim; the claim that succeeds starts the consumption. */
  ghost predicate ClaimStep<T>(s: State<T>, s': State<T>, t: nat)
    requires Sized(s)
  {
    && t < |s.c| && s.c[t] == CNone
    && (OC.ClaimStep(s.oc, s'.oc, t) || exists max :: OC.Call(s.oc, s'.oc, t, max))
    && s' == s.(oc := s'.oc,
                c := if t < |s'.oc.threads| && s'.oc.threads[t].Claimed? then s.c[t := CHeader(s'.oc.threads[t].first)]
                     else s.c)
  }

  /** One past the last index of the claimed range. */
  ghost function Stop<T>(s: State<T>, t: nat): nat
    requires t < |s.oc.threads|
  {
    if s.oc.threads[t].Claimed? then s.oc.threads[t].first + s.oc.threads[t].count else 0
  }

  ghost predicate InRange<T>(s: State<T>, t: nat, k: nat)
    requires t < |s.oc.threads|
  {
    s.oc.threads[t].Claimed? && s.oc.threads[t].first <= k < Stop(s, t)
  }

  /** `endIndex` of a segment that starts at `start`. */
  ghost function SegmentEnd<T>(s: State<T>, t: nat, start: nat): nat
    requires t < |s.oc.threads| && s.ix.bs > 0
  {
    var blockEnd := (Num(start, s.ix.bs) + 1) * s.ix.bs;
    if Stop(s, t) < blockEnd then Stop(s, t) else blockEnd
  }

  ghost function SetC<T>(s: State<T>, t: nat, pc: Consumer): State<T>
    requires t < |s.c|
  {
    s.(c := s.c[t := pc])
  }

  /** After a segment: the next block is in the next slot of the same header. */
  ghost function Advance<T>(s: State<T>, t: nat, i: nat, h: nat, idx: nat): Consumer
    requires t < |s.oc.threads| && h < |s.ix.headers| && s.ix.headers[h].capacity >= 1
  {
    if i == Stop(s, t) then CFinish(i) else CValue(i, h, (idx + 1) % s.ix.headers[h].capacity)
  }

  /** Header h and slot idx exist. */
  ghost predicate HasSlot<T>(s: State<T>, h: nat, idx: nat) {
    && h < |s.ix.headers| && s.ix.headers[h].capacity == |s.ix.headers[h].index| >= 1
    && idx < |s.ix.headers[h].index| && s.ix.headers[h].index[idx] < |s.ix.entries|
  }

  ghost function EntryAt<T>(s: State<T>, h: nat, idx: nat): nat
    requires HasSlot(s, h, idx)
  {
    s.ix.headers[h].index[idx]
  }

  ghost predicate ConsumerStep<T>(s: State<T>, s': State<T>, t: nat)
    requires Sized(s)
  {
    && t < |s.c| && s.oc.threads[t].Claimed?
    && var bs := s.ix.bs;
    match s.c[t]
    case CHeader(i) => s' == SetC(s, t, CTail(i, |s.ix.headers| - 1))
    case CTail(i, h) =>
      h < |s.ix.headers| && s' == SetC(s, t, CKey(i, h, s.ix.headers[h].tail, s.ix.headers[h].last))
    case CKey(i, h, pos, n) =>
      && HasSlot(s, h, pos)
      && var key := s.ix.entries[EntryAt(s, h, pos)].key;
      && key.Some?
      && s' == SetC(s, t, CValue(i, h, (pos + BlocksFrom(key.value, i, bs)) % s.ix.headers[h].capacity))
    case CValue(i, h, idx) =>
      && HasSlot(s, h, idx)
      && var value := s.ix.entries[EntryAt(s, h, idx)].value;
         && value.Some?
         && s' == SetC(s, t, if i == SegmentEnd(s, t, i) then CEmpty(i, h, idx, value.value, i)
                             else CRead(i, h, idx, value.value, i))
    case CRead(i, h, idx, b, start) =>
      && b < |s.blocks|
      && s' == SetC(s, t, if i + 1 == SegmentEnd(s, t, start) then CEmpty(i + 1, h, idx, b, start)
                          else CRead(i + 1, h, idx, b, start)).(
                 taken := s.taken[i := s.blocks[b].data[i % bs]])
    case CEmpty(i, h, idx, b, start) =>
      && b < |s.blocks| && start <= i && HasSlot(s, h, idx)
      && var done := s.blocks[b].done + (i - start);
         s' == SetC(s, t, if done == bs then CClear(i, h, idx, b, start) else Advance(s, t, i, h, idx)).(
                 blocks := s.blocks[b := s.blocks[b].(done := done)],
                 emptied := s.emptied + Sets.Range(start, i))
    case CClear(i, h, idx, b, start) =>
      && HasSlot(s, h, idx)
      && s' == SetC(s, t, CFree(i, h, idx, b, start)).(
                 ix := BI.SetValue(s.ix, EntryAt(s, h, idx), BI.None), cleared := s.cleared + {Num(start, bs)})
    case CFree(i, h, idx, b, start) =>
      && HasSlot(s, h, idx)
      && s' == SetC(s, t, Advance(s, t, i, h, idx)).(free := s.free + {b}, freed := s.freed + {Num(start, bs)})
    case CFinish(_) => OC.Finish(s.oc, s'.oc, t) && s' == SetC(s, t, CNone).(oc := s'.oc)
    case CNone => false
  }

  ghost predicate Next<T(!new)>(s: State<T>, s': State<T>) {
    && Sized(s)
    && ((exists v :: EnqueueCall(s, s', v)) || ProducerStep(s, s')
        || (exists t :: ClaimStep(s, s', t)) || (exists t :: ConsumerStep(s, s', t)))
  }

  ghost predicate Init<T>(s: State<T>) {
    && Sized(s) && OC.Init(s.oc) && BI.Init(s.ix)
    && s.p == PIdle && (forall t | 0 <= t < |s.c| :: s.c[t] == CNone)
    && s.elems == [] && s.blk == [] && s.emptied == s.cleared == s.freed == {} && s.taken == map[]
  }

  // ---------- the invariant ----------

  ghost function EmptiedOf(emptied: set<nat>, m: nat, bs: nat): set<nat>
    requires bs > 0
  {
    set i | i in emptied && Num(i, bs) == m
  }

  /** Where the producer is, in terms of the numbers of its blocks. */
  ghost predicate TailOk<T>(s: State<T>)
    requires Sized(s)
  {
    var nb, tail, bs, last := |s.blk|, s.oc.tail, s.ix.bs, BI.Cur(s.ix).last;
    && (s.p.PWrite? || s.p.PPublish? || tail % bs != 0 ==> nb == Num(tail, bs) + 1)
    && (!(s.p.PWrite? || s.p.PPublish?) && tail % bs == 0 ==> nb == Num(tail, bs))
    && (s.p.Inserting() ==> tail % bs == 0)
    && last == (if s.p.Inserted() then nb else nb - 1)
    && nb - 1 <= s.ix.hi <= nb
    && (s.p.PWrite? || s.p.PPublish? || tail % bs != 0 ==> s.ix.hi == nb - 1)
    && (nb > 0 ==> s.tailBlock == s.blk[nb - 1])
  }

  ghost predicate ProducerOk<T>(s: State<T>)
    requires Sized(s)
  {
    var nb, x := |s.blk|, s.ix;
    && (s.p.PStoreTail? || s.p.Inserted() || s.p.PClear? ==>
          x.hi == nb >= x.low && nb in x.ent && s.p.e == x.ent[nb] < |x.entries|)
    && (x.hi == nb && !(s.p.PStoreTail? || s.p.Inserted() || s.p.PClear?) ==>
          nb >= x.low && nb in x.ent && x.ent[nb] < |x.entries| && x.entries[x.ent[nb]].value == BI.None)
    && (s.p.PStoreKey? ==> BI.CanReuse(x))
    && (s.p.PStoreValue? ==>
          s.p.b < |s.blocks| && s.p.b !in s.free && s.blocks[s.p.b].done == 0
          && forall m | 0 <= m < nb && m !in s.freed :: s.blk[m] != s.p.b)
    && (s.p.PPublish? ==> s.tailBlock < |s.blocks| && s.blocks[s.tailBlock].data[s.oc.tail % x.bs] == s.p.v)
  }

  /** Number m, whose block is or was b. */
  ghost predicate NumberOk<T>(s: State<T>, m: nat)
    requires Sized(s) && m < |s.blk|
  {
    var b, x := s.blk[m], s.ix;
    && (m !in s.freed ==>
          b < |s.blocks| && b !in s.free && s.blocks[b].done == |EmptiedOf(s.emptied, m, x.bs)|)
    && (m !in s.cleared ==>
          m >= x.low && m in x.ent && x.ent[m] < |x.entries| && x.entries[x.ent[m]].value == BI.Some(b))
    && (m in s.cleared ==> |EmptiedOf(s.emptied, m, x.bs)| == x.bs)
    && (m in s.freed ==> m in s.cleared)
  }

  ghost predicate NumbersOk<T>(s: State<T>)
    requires Sized(s)
  {
    && (forall m | 0 <= m < |s.blk| :: NumberOk(s, m))
    && (forall m | m in s.cleared || m in s.freed :: m < |s.blk|)
    && (forall m, n | 0 <= m < n < |s.blk| && m !in s.freed && n !in s.freed :: s.blk[m] != s.blk[n])
  }

  ghost predicate ElemsOk<T>(s: State<T>)
    requires Sized(s)
  {
    && (forall i | 0 <= i < s.oc.tail && i !in s.emptied ::
          Num(i, s.ix.bs) < |s.blk| && s.blk[Num(i, s.ix.bs)] < |s.blocks| &&
          s.blocks[s.blk[Num(i, s.ix.bs)]].data[i % s.ix.bs] == s.elems[i])
    && (forall i | i in s.emptied :: i < s.oc.head && i in s.taken)
    && (forall i | i in s.taken :: i < s.oc.head && i < s.oc.tail && s.taken[i] == s.elems[i])
  }

  /** The header a consumer holds knows every block of its range. */
  ghost predicate HeaderKnows<T>(s: State<T>, t: nat)
    requires Sized(s) && t < |s.c|
  {
    var c := s.c[t];
    var top := Num(if Stop(s, t) > 0 then Stop(s, t) - 1 else 0, s.ix.bs);
    && (c.CTail? ==> c.h < |s.ix.headers| && top <= s.ix.headers[c.h].last)
    && (c.CKey? ==>
          && c.h < |s.ix.headers| && s.ix.headers[c.h].capacity >= 1
          && top <= c.n <= BI.Top(s.ix, c.h) && c.pos == BI.Slot(s.ix.headers[c.h], c.n))
    && (c.CValue? || c.CRead? || c.CEmpty? || c.CClear? || c.CFree? ==>
          c.h < |s.ix.headers| && s.ix.headers[c.h].capacity >= 1 && top <= BI.Top(s.ix, c.h))
    && (c.CValue? ==> c.idx == BI.Slot(s.ix.headers[c.h], Num(c.i, s.ix.bs)))
    && (c.CRead? || c.CEmpty? ==> c.idx == BI.Slot(s.ix.headers[c.h], Num(c.start, s.ix.bs)))
    && (c.Freeing() ==> c.idx == BI.Slot(s.ix.headers[c.h], Num(c.start, s.ix.bs)))
  }

  /** What a consumer has done and still has to do with its range. */
  ghost predicate RangeOk<T>(s: State<T>, t: nat)
    requires Sized(s) && t < |s.c|
  {
    var c, bs, nb := s.c[t], s.ix.bs, |s.blk|;
    && (c.CNone? <==> !s.oc.threads[t].Claimed?)
    && (!c.CNone? ==>
          && s.oc.threads[t].first <= c.Start() <= c.i <= Stop(s, t)
          && (forall k | c.Start() <= k < Stop(s, t) :: k !in s.emptied)
          && (forall k | c.i <= k < Stop(s, t) :: k !in s.taken)
          && (forall k | s.oc.threads[t].first <= k < c.i :: k in s.taken))
    && (c.CFinish? ==> c.i == Stop(s, t))
    && (c.CHeader? || c.CTail? || c.CKey? || c.CValue? ==> c.i < Stop(s, t))
    && (c.CRead? ==>
          && c.i < SegmentEnd(s, t, c.start)
          && Num(c.start, bs) < nb && c.b == s.blk[Num(c.start, bs)])
    && (c.CEmpty? ==>
          && c.start < c.i == SegmentEnd(s, t, c.start)
          && Num(c.start, bs) < nb && c.b == s.blk[Num(c.start, bs)])
    && (c.Freeing() ==>
          && c.i > c.start && (c.i == Stop(s, t) || c.i % bs == 0)
          && var m := Num(c.start, bs);
             m == Num(c.i - 1, bs) && m < nb && c.b == s.blk[m] && |EmptiedOf(s.emptied, m, bs)| == bs && m !in s.freed
             && (c.CClear? <==> m !in s.cleared))
  }

  ghost predicate ConsumersOk<T>(s: State<T>)
    requires Sized(s)
  {
    && (forall t | 0 <= t < |s.c| :: HeaderKnows(s, t) && RangeOk(s, t))
    && (forall t, u | 0 <= t < u < |s.c| && s.c[t].Freeing() && s.c[u].Freeing() ::
          Num(s.c[t].start, s.ix.bs) != Num(s.c[u].start, s.ix.bs))
  }

  /** Index k is in the claimed range of some consumer that has not read it yet. */
  ghost predicate Pending<T>(s: State<T>, k: nat) {
    exists t :: 0 <= t < |s.c| < |s.oc.threads| + 1 && !s.c[t].CNone? && s.c[t].i <= k < Stop(s, t)
  }

  ghost predicate NoneLost<T>(s: State<T>) {
    forall k | 0 <= k < s.oc.head :: k in s.taken || Pending(s, k)
  }

  ghost predicate Inv<T>(s: State<T>) {
    && Sized(s) && OC.Inv(s.oc) && !s.oc.zeros && BI.Inv(s.ix)
    && TailOk(s) && ProducerOk(s) && NumbersOk(s) && ElemsOk(s) && ConsumersOk(s) && NoneLost(s)
  }

  // ---------- block numbers ----------

  lemma NumBounds(i: nat, bs: nat)
    requires bs > 0
    ensures Num(i, bs) * bs <= i < (Num(i, bs) + 1) * bs && i % bs == i - Num(i, bs) * bs
  {
    assert i == bs * (i / bs) + i % bs;
  }

  lemma NumIs(i: nat, m: nat, bs: nat)
    requires bs > 0 && m * bs <= i < (m + 1) * bs
    ensures Num(i, bs) == m && i % bs == i - m * bs
  {
    assert (m + 1) * bs == m * bs + bs && m * bs == bs * m;
    Modular.Unique(i, bs, m, i - m * bs);
  }

  lemma NumMonotone(i: nat, j: nat, bs: nat)
    requires bs > 0 && i <= j
    ensures Num(i, bs) <= Num(j, bs)
  {
    NumBounds(i, bs);
    NumBounds(j, bs);
    if Num(i, bs) > Num(j, bs) { Times(Num(j, bs) + 1, Num(i, bs), bs); }
  }

  lemma Times(a: nat, b: nat, bs: nat)
    requires a <= b
    ensures a * bs <= b * bs
  {
    assert b * bs == a * bs + (b - a) * bs;
    assert (b - a) * bs >= 0;
  }

  /** The number of the next index. */
  lemma NumNext(i: nat, bs: nat)
    requires bs > 0
    ensures (i + 1) % bs == 0 ==> Num(i + 1, bs) == Num(i, bs) + 1
    ensures (i + 1) % bs != 0 ==> Num(i + 1, bs) == Num(i, bs)
  {
    NumBounds(i, bs);
    var m := Num(i, bs);
    assert (m + 1) * bs == m * bs + bs;
    if i + 1 == (m + 1) * bs {
      assert (m + 1 + 1) * bs == (m + 1) * bs + bs;
      NumIs(i + 1, m + 1, bs);
    } else {
      NumIs(i + 1, m, bs);
    }
  }

  /** Every enqueued index has a block. */
  lemma HasNumber<T>(s: State<T>, i: nat)
    requires Sized(s) && TailOk(s) && i < s.oc.tail
    ensures Num(i, s.ix.bs) < |s.blk|
  {
    var bs, tail := s.ix.bs, s.oc.tail;
    NumMonotone(i, tail, bs);
    NumBounds(tail, bs);
    NumBounds(i, bs);
    assert tail % bs == 0 ==> tail == Num(tail, bs) * bs;
  }

  /** The indices counted in a block are indices of that block, so when there are as many as the block has
      slots they are all of them. */
  lemma EmptiedAll(emptied: set<nat>, m: nat, bs: nat, k: nat)
    requires bs > 0
    ensures |EmptiedOf(emptied, m, bs)| <= bs
    ensures Num(k, bs) == m && |EmptiedOf(emptied, m, bs)| == bs ==> k in emptied
  {
    assert (m + 1) * bs == m * bs + bs;
    var all := Sets.Range(m * bs, (m + 1) * bs);
    forall i | i in EmptiedOf(emptied, m, bs) ensures i in all {
      NumBounds(i, bs);
    }
    Sets.SubsetSize(EmptiedOf(emptied, m, bs), all);
    if Num(k, bs) == m {
      NumBounds(k, bs);
      assert k in all;
    }
  }

  /** An index that has not been emptied is in a block that is in the index and not in the pool. */
  lemma Live<T>(s: State<T>, k: nat)
    requires Inv(s) && k < s.oc.tail && k !in s.emptied
    ensures var m := Num(k, s.ix.bs);
            && m < |s.blk| && m !in s.cleared && m !in s.freed && s.ix.low <= m <= s.ix.hi
            && s.blk[m] < |s.blocks| && s.blk[m] !in s.free
            && m in s.ix.ent && s.ix.ent[m] < |s.ix.entries| && s.ix.entries[s.ix.ent[m]].value == BI.Some(s.blk[m])
  {
    var m := Num(k, s.ix.bs);
    HasNumber(s, k);
    assert NumberOk(s, m);
    EmptiedAll(s.emptied, m, s.ix.bs, k);
  }

  /** A claimed range lies below the tail. */
  lemma StopBelowTail<T>(s: State<T>, t: nat)
    requires Inv(s) && t < |s.c| && s.oc.threads[t].Claimed?
    ensures 0 < Stop(s, t) <= s.oc.head <= s.oc.tail
  {
    assert OC.ThreadOk(s.oc, t);
    OC.HeadBounded(s.oc);
  }

  lemma RangesDisjoint<T>(s: State<T>, t: nat, u: nat, k: nat)
    requires Inv(s) && t < |s.c| && u < |s.c| && t != u && s.oc.threads[t].Claimed? && s.oc.threads[u].Claimed?
    requires s.oc.threads[t].first <= k < Stop(s, t)
    ensures !(s.oc.threads[u].first <= k < Stop(s, u))
  {
    assert OC.ThreadOk(s.oc, t) && OC.ThreadOk(s.oc, u);
    assert k < |s.oc.owner| && s.oc.owner[k] == t;
  }

  // ---------- the producer's steps keep the invariant ----------

  /** What a producer step does not touch, and the headers that consumers may hold. */
  ghost predicate Framed<T>(s: State<T>, s': State<T>) {
    && Sized(s) && Sized(s')
    && s'.oc.threads == s.oc.threads && s'.oc.head == s.oc.head && s'.c == s.c && s'.ix.bs == s.ix.bs
    && s'.emptied == s.emptied && s'.cleared == s.cleared && s'.freed == s.freed && s'.taken == s.taken
    && s.blk <= s'.blk
    && |s.ix.headers| <= |s'.ix.headers|
    && forall j | 0 <= j < |s.ix.headers| :: HeaderKept(s, s', j)
  }

  ghost predicate HeaderKept<T>(s: State<T>, s': State<T>, j: nat)
    requires j < |s.ix.headers| <= |s'.ix.headers|
  {
    var h, h' := s.ix.headers[j], s'.ix.headers[j];
    && h'.capacity == h.capacity && h'.off == h.off
    && BI.Top(s'.ix, j) >= BI.Top(s.ix, j) && (h'.last >= h.last || h'.last >= |s.blk| - 1)
  }

  lemma FramedConsumers<T>(s: State<T>, s': State<T>)
    requires Inv(s) && Framed(s, s')
    ensures ConsumersOk(s') && NoneLost(s')
  {
    forall t | 0 <= t < |s'.c| ensures HeaderKnows(s', t) && RangeOk(s', t) {
      assert HeaderKnows(s, t) && RangeOk(s, t);
      if s.c[t].CTail? {
        StopBelowTail(s, t);
        HasNumber(s, Stop(s, t) - 1);
      }
      FramedHeader(s, s', t);
      FramedRange(s, s', t);
    }
    forall k | 0 <= k < s'.oc.head ensures k in s'.taken || Pending(s', k) {
      if k !in s.taken {
        assert Pending(s, k);
        var t :| 0 <= t < |s.c| && !s.c[t].CNone? && s.c[t].i <= k < Stop(s, t);
        assert Stop(s', t) == Stop(s, t);
      }
    }
  }

  lemma FramedHeader<T>(s: State<T>, s': State<T>, t: nat)
    requires Framed(s, s') && t < |s.c| && HeaderKnows(s, t)
    requires s.c[t].CTail? ==> Stop(s, t) > 0 && Num(Stop(s, t) - 1, s.ix.bs) < |s.blk|
    ensures HeaderKnows(s', t)
  {
    var c := s.c[t];
    assert Stop(s', t) == Stop(s, t);
    if c.CTail? || c.CKey? || c.CValue? || c.CRead? || c.CEmpty? || c.CClear? || c.CFree? {
      assert HeaderKept(s, s', c.h);
    }
  }

  lemma FramedRange<T>(s: State<T>, s': State<T>, t: nat)
    requires Framed(s, s') && t < |s.c| && RangeOk(s, t)
    ensures RangeOk(s', t)
  {
    assert Stop(s', t) == Stop(s, t);
    var c := s.c[t];
    if c.CRead? || c.CEmpty? { assert SegmentEnd(s', t, c.start) == SegmentEnd(s, t, c.start); }
  }

  /** The index keeps the entries of the live numbers. */
  ghost predicate EntriesKept<T>(s: State<T>, s': State<T>)
    requires Sized(s) && Sized(s')
  {
    forall m | 0 <= m < |s.blk| && m !in s.cleared && NumberOk(s, m) ::
      && m >= s'.ix.low && m in s'.ix.ent && s'.ix.ent[m] < |s'.ix.entries|
      && s'.ix.entries[s'.ix.ent[m]].value == BI.Some(s.blk[m])
  }

  /** A step of the producer that touches the index but no block. */
  lemma IndexStepKeepsInv<T>(s: State<T>, s': State<T>)
    requires Inv(s) && Framed(s, s') && s' == s.(ix := s'.ix, p := s'.p)
    requires BI.Inv(s'.ix) && EntriesKept(s, s') && TailOk(s') && ProducerOk(s')
    ensures Inv(s')
  {
    FramedConsumers(s, s');
    forall m | 0 <= m < |s'.blk| ensures NumberOk(s', m) { assert NumberOk(s, m); }
  }

  lemma LocalStepKeepsInv<T>(s: State<T>, s': State<T>)
    requires Inv(s) && s' == s.(p := s'.p) && TailOk(s') && ProducerOk(s')
    ensures Inv(s')
  {
    IndexStepKeepsInv(s, s');
  }

  lemma EnqueueCallKeepsInv<T>(s: State<T>, s': State<T>, v: T)
    requires Inv(s) && EnqueueCall(s, s', v)
    ensures Inv(s')
  {
    LocalStepKeepsInv(s, s');
  }

  /** The index grows only when its last number is in use. */
  lemma GrowsWhenFull<T>(s: State<T>)
    requires Inv(s) && s.p.PCheckEntry? && !BI.CanReuse(s.ix)
    ensures s.ix.hi == BI.Cur(s.ix).last
  {
    BI.InvCur(s.ix);
    if s.ix.hi == BI.Cur(s.ix).last + 1 { BI.NextEntryUndone(s.ix); }
  }

  lemma GrownIndex<T>(s: State<T>, s': State<T>)
    requires Inv(s) && s.p.PCheckEntry? && ProducerStep(s, s') && s' != s.(p := s'.p)
    ensures BI.Inv(s'.ix) && Sized(s') && BI.CanReuse(s'.ix) && Framed(s, s')
    ensures forall e | 0 <= e < |s.ix.entries| :: e < |s'.ix.entries| && s'.ix.entries[e] == s.ix.entries[e]
  {
    var x, x' := s.ix, s'.ix;
    GrowsWhenFull(s);
    BI.InvCur(x);
    BI.GrowKeepsInv(x, x');
    BI.InvCur(x');
    BI.GrownSlotFresh(x, x');
    forall e | 0 <= e < |x.entries| ensures x'.entries[e] == x.entries[e] {
      assert x'.entries[..|x.entries|][e] == x'.entries[e];
    }
    forall j | 0 <= j < |x.headers| ensures HeaderKept(s, s', j) {
      assert x'.headers[..|x.headers|][j] == x'.headers[j];
    }
  }

  lemma GrownTail<T>(s: State<T>, s': State<T>)
    requires Sized(s) && Sized(s') && TailOk(s) && ProducerOk(s) && s.p.PCheckEntry? && ProducerStep(s, s')
    requires s' != s.(p := s'.p) && BI.CanReuse(s'.ix)
    requires forall e | 0 <= e < |s.ix.entries| :: e < |s'.ix.entries| && s'.ix.entries[e] == s.ix.entries[e]
    ensures TailOk(s') && ProducerOk(s') && EntriesKept(s, s')
  {
  }

  lemma CheckEntryKeepsInv<T>(s: State<T>, s': State<T>)
    requires Inv(s) && s.p.PCheckEntry? && ProducerStep(s, s')
    ensures Inv(s')
  {
    if s' == s.(p := s'.p) {
      LocalStepKeepsInv(s, s');
    } else {
      GrownIndex(s, s');
      GrownTail(s, s');
      IndexStepKeepsInv(s, s');
    }
  }

  lemma StoreKeyKeepsInv<T>(s: State<T>, s': State<T>)
    requires Inv(s) && s.p.PStoreKey? && ProducerStep(s, s')
    ensures Inv(s')
  {
    BI.InvCur(s.ix);
    BI.StoreKeyKeepsInv(s.ix);
    StoreKeyEntries(s, s');
    StoreKeyTail(s, s');
    StoreKeyFramed(s, s');
    IndexStepKeepsInv(s, s');
  }

  lemma StoreKeyFramed<T>(s: State<T>, s': State<T>)
    requires Sized(s) && Sized(s') && s.p.PStoreKey? && ProducerStep(s, s') && s'.ix.hi >= s.ix.hi
    ensures Framed(s, s')
  {
    forall j | 0 <= j < |s.ix.headers| ensures HeaderKept(s, s', j) {}
  }

  lemma StoreKeyTail<T>(s: State<T>, s': State<T>)
    requires Sized(s) && s.p.PStoreKey? && ProducerStep(s, s') && TailOk(s) && BI.Inv(s'.ix)
    requires s'.ix.hi == |s.blk|
    ensures Sized(s') && TailOk(s') && ProducerOk(s')
  {
  }

  lemma StoreKeyEntries<T>(s: State<T>, s': State<T>)
    requires Sized(s) && Sized(s') && s.p.PStoreKey? && ProducerStep(s, s') && TailOk(s)
    requires s'.ix.low > s.ix.low ==>
               && s'.ix.low == s.ix.low + 1 && s.ix.low in s.ix.ent && s.ix.ent[s.ix.low] < |s.ix.entries|
               && s.ix.entries[s.ix.ent[s.ix.low]].value == BI.None
    ensures EntriesKept(s, s')
  {
  }

  lemma StoreTailKeeps<T>(s: State<T>, s': State<T>)
    requires Sized(s) && Sized(s') && TailOk(s) && ProducerOk(s) && s.p.PStoreTail? && ProducerStep(s, s')
    ensures Framed(s, s') && TailOk(s') && ProducerOk(s') && EntriesKept(s, s')
  {
    forall j | 0 <= j < |s.ix.headers| ensures HeaderKept(s, s', j) {}
  }

  lemma RewindKeeps<T>(s: State<T>, s': State<T>)
    requires Sized(s) && Sized(s') && TailOk(s) && ProducerOk(s) && s.p.PRewind? && ProducerStep(s, s')
    ensures Framed(s, s') && TailOk(s') && ProducerOk(s') && EntriesKept(s, s')
  {
    forall j | 0 <= j < |s.ix.headers| ensures HeaderKept(s, s', j) {}
  }

  lemma StoreTailKeepsInv<T>(s: State<T>, s': State<T>)
    requires Inv(s) && s.p.PStoreTail? && ProducerStep(s, s')
    ensures Inv(s')
  {
    BI.InvCur(s.ix);
    BI.StoreTailKeepsInv(s.ix);
    StoreTailKeeps(s, s');
    IndexStepKeepsInv(s, s');
  }

  lemma RewindKeepsInv<T>(s: State<T>, s': State<T>)
    requires Inv(s) && s.p.PRewind? && ProducerStep(s, s')
    ensures Inv(s')
  {
    BI.InvCur(s.ix);
    BI.RewindKeepsInv(s.ix);
    RewindKeeps(s, s');
    IndexStepKeepsInv(s, s');
  }

  lemma ClearUndoneKeepsInv<T>(s: State<T>, s': State<T>)
    requires Inv(s) && s.p.PClear? && ProducerStep(s, s')
    ensures Inv(s')
  {
    BI.InvCur(s.ix);
    BI.SetValueKeepsInv(s.ix, s.p.e, BI.None);
    forall j | 0 <= j < |s.ix.headers| ensures HeaderKept(s, s', j) {}
    IndexStepKeepsInv(s, s');
  }

  /** The requisitioned block is that of no live number. */
  lemma RequisitionFresh<T>(s: State<T>, s': State<T>, b: nat)
    requires Inv(s) && s.p.PRequisition? && Requisition(s, s', b)
    ensures |s'.blocks| >= |s.blocks| && s'.free == s.free - {b} && b < |s'.blocks| && s'.blocks[b].done == 0
    ensures forall a | 0 <= a < |s'.blocks| :: |s'.blocks[a].data| == s.ix.bs
    ensures forall a | 0 <= a < |s.blocks| :: s'.blocks[a].data == s.blocks[a].data
    ensures forall a | 0 <= a < |s.blocks| && a != b :: s'.blocks[a] == s.blocks[a]
    ensures forall m | 0 <= m < |s.blk| && m !in s.freed :: s.blk[m] != b
  {
    forall m | 0 <= m < |s.blk| && m !in s.freed ensures s.blk[m] != b { assert NumberOk(s, m); }
  }

  lemma RequisitionKeepsInv<T>(s: State<T>, s': State<T>, b: nat)
    requires Inv(s) && s.p.PRequisition? && Requisition(s, s', b)
    ensures Inv(s')
  {
    RequisitionFresh(s, s', b);
    assert s'.ix == s.ix && s'.oc == s.oc && s'.blk == s.blk && s'.p == PStoreValue(s.p.v, s.p.e, b);
    assert Sized(s') && TailOk(s') && ProducerOk(s');
    RequisitionNumbers(s, s', b);
    RequisitionElems(s, s', b);
    forall j | 0 <= j < |s.ix.headers| ensures HeaderKept(s, s', j) {}
    FramedConsumers(s, s');
  }

  lemma RequisitionNumbers<T>(s: State<T>, s': State<T>, b: nat)
    requires Sized(s) && Sized(s') && NumbersOk(s) && |s'.blocks| >= |s.blocks| && s'.free == s.free - {b}
    requires s' == s.(blocks := s'.blocks, free := s'.free, p := s'.p)
    requires forall a | 0 <= a < |s.blocks| && a != b :: s'.blocks[a] == s.blocks[a]
    requires forall m | 0 <= m < |s.blk| && m !in s.freed :: s.blk[m] != b
    ensures NumbersOk(s')
  {
    forall m | 0 <= m < |s'.blk| ensures NumberOk(s', m) { assert NumberOk(s, m); }
  }

  lemma RequisitionElems<T>(s: State<T>, s': State<T>, b: nat)
    requires Sized(s) && Sized(s') && ElemsOk(s) && |s'.blocks| >= |s.blocks|
    requires s' == s.(blocks := s'.blocks, free := s'.free, p := s'.p)
    requires forall a | 0 <= a < |s.blocks| :: s'.blocks[a].data == s.blocks[a].data
    ensures ElemsOk(s')
  {
  }

  /** Nothing of the block at the tail has been consumed to its end. */
  lemma TailNumberLive<T>(s: State<T>)
    requires Inv(s) && (s.p.PWrite? || s.p.PPublish?)
    ensures var m := Num(s.oc.tail, s.ix.bs);
            m == |s.blk| - 1 && m !in s.freed && s.tailBlock == s.blk[m] < |s.blocks|
  {
    var m := Num(s.oc.tail, s.ix.bs);
    assert NumberOk(s, m);
    EmptiedAll(s.emptied, m, s.ix.bs, s.oc.tail);
    OC.HeadBounded(s.oc);
  }

  /** The new number joins the others. */
  lemma StoreValueNumbers<T>(s: State<T>, s': State<T>)
    requires Sized(s) && Sized(s') && NumbersOk(s) && ProducerOk(s) && s.p.PStoreValue? && ProducerStep(s, s')
    requires EmptiedOf(s.emptied, |s.blk|, s.ix.bs) == {} && BI.KeysOk(s.ix) && s.ix.hi == |s.blk|
    ensures NumbersOk(s')
  {
    forall m | 0 <= m < |s'.blk| ensures NumberOk(s', m) {
      if m < |s.blk| { assert NumberOk(s, m) && s'.blk[m] == s.blk[m]; }
    }
  }

  lemma StoreValueElems<T>(s: State<T>, s': State<T>)
    requires Inv(s) && Sized(s') && s.p.PStoreValue? && ProducerStep(s, s')
    ensures ElemsOk(s') && EmptiedOf(s.emptied, |s.blk|, s.ix.bs) == {}
  {
    var nb, bs := |s.blk|, s.ix.bs;
    NumBounds(s.oc.tail, bs);
    OC.HeadBounded(s.oc);
    forall i | i in s.emptied ensures Num(i, bs) != nb { NumBounds(i, bs); }
    forall i | 0 <= i < s.oc.tail && i !in s.emptied ensures Num(i, bs) < nb { HasNumber(s, i); }
  }

  lemma StoreValueTail<T>(s: State<T>, s': State<T>)
    requires Sized(s) && Sized(s') && TailOk(s) && ProducerOk(s) && s.p.PStoreValue? && ProducerStep(s, s')
    ensures TailOk(s') && ProducerOk(s')
  {
  }

  lemma StoreValueKeepsInv<T>(s: State<T>, s': State<T>)
    requires Inv(s) && s.p.PStoreValue? && ProducerStep(s, s')
    ensures Inv(s')
  {
    BI.InvCur(s.ix);
    BI.SetValueKeepsInv(s.ix, s.p.e, BI.Some(s.p.b));
    forall j | 0 <= j < |s.ix.headers| ensures HeaderKept(s, s', j) {}
    StoreValueElems(s, s');
    StoreValueNumbers(s, s');
    StoreValueTail(s, s');
    FramedConsumers(s, s');
  }

  lemma WriteKeepsInv<T>(s: State<T>, s': State<T>)
    requires Inv(s) && s.p.PWrite? && ProducerStep(s, s')
    ensures Inv(s')
  {
    var bs, tail := s.ix.bs, s.oc.tail;
    TailNumberLive(s);
    forall j | 0 <= j < |s.ix.headers| ensures HeaderKept(s, s', j) {}
    FramedConsumers(s, s');
    forall m | 0 <= m < |s'.blk| ensures NumberOk(s', m) { assert NumberOk(s, m); }
    forall i | 0 <= i < tail && i !in s.emptied
      ensures Num(i, bs) < |s.blk| && s.blk[Num(i, bs)] < |s.blocks|
      ensures s'.blocks[s.blk[Num(i, bs)]].data[i % bs] == s.elems[i]
    {
      Live(s, i);
      NumBounds(i, bs);
      NumBounds(tail, bs);
    }
  }

  lemma PublishTail<T>(s: State<T>, s': State<T>)
    requires Sized(s) && Sized(s') && TailOk(s) && ProducerOk(s) && s.p.PPublish? && ProducerStep(s, s')
    ensures TailOk(s') && ProducerOk(s')
  {
    NumNext(s.oc.tail, s.ix.bs);
  }

  lemma PublishElems<T>(s: State<T>, s': State<T>)
    requires Sized(s) && Sized(s') && ElemsOk(s) && ProducerOk(s) && s.p.PPublish? && ProducerStep(s, s')
    requires Num(s.oc.tail, s.ix.bs) == |s.blk| - 1 && s.tailBlock == s.blk[|s.blk| - 1]
    ensures ElemsOk(s')
  {
  }

  lemma PublishKeepsInv<T>(s: State<T>, s': State<T>)
    requires Inv(s) && s.p.PPublish? && ProducerStep(s, s')
    ensures Inv(s')
  {
    TailNumberLive(s);
    OC.EnqueueKeepsInv(s.oc, s'.oc);
    forall j | 0 <= j < |s.ix.headers| ensures HeaderKept(s, s', j) {}
    PublishTail(s, s');
    PublishElems(s, s');
    FramedConsumers(s, s');
    forall m | 0 <= m < |s'.blk| ensures NumberOk(s', m) { assert NumberOk(s, m); }
  }

  lemma ProducerKeepsInv<T>(s: State<T>, s': State<T>)
    requires Inv(s) && ProducerStep(s, s')
    ensures Inv(s')
  {
    match s.p
    case PCheckHead(_) => LocalStepKeepsInv(s, s');
    case PCheckEntry(_) => CheckEntryKeepsInv(s, s');
    case PStoreKey(_) => StoreKeyKeepsInv(s, s');
    case PStoreTail(_, _) => StoreTailKeepsInv(s, s');
    case PRequisition(v, e) =>
      if b :| Requisition(s, s', b) {
        RequisitionKeepsInv(s, s', b);
      } else {
        LocalStepKeepsInv(s, s');
      }
    case PRewind(_, _) => RewindKeepsInv(s, s');
    case PClear(_, _) => ClearUndoneKeepsInv(s, s');
    case PStoreValue(_, _, _) => StoreValueKeepsInv(s, s');
    case PWrite(_) => WriteKeepsInv(s, s');
    case PPublish(_) => PublishKeepsInv(s, s');
    case _ =>
  }

  // ---------- the consumers' steps keep the invariant ----------

  /** A step of consumer t, as the other consumers see it: only numbers t is giving back change. */
  ghost predicate OnlyConsumer<T>(s: State<T>, s': State<T>, t: nat) {
    && Sized(s) && Sized(s') && t < |s.c| && s.oc.threads[t].Claimed? && !s.c[t].CNone?
    && s'.oc == s.oc && s'.blk == s.blk && s'.ix.headers == s.ix.headers && s'.ix.hi == s.ix.hi && s'.ix.bs == s.ix.bs
    && s'.c == s.c[t := s'.c[t]]
    && s.emptied <= s'.emptied && s.taken.Keys <= s'.taken.Keys
    && (forall k | k in s'.emptied && k !in s.emptied :: InRange(s, t, k))
    && (forall k | k in s'.taken && k !in s.taken :: InRange(s, t, k))
    && s.cleared <= s'.cleared && s.freed <= s'.freed
    && (forall m | (m in s'.cleared && m !in s.cleared) || (m in s'.freed && m !in s.freed) ::
          s.c[t].Freeing() && Num(s.c[t].start, s.ix.bs) == m)
  }

  lemma EmptiedOnlyGrows(a: set<nat>, b: set<nat>, m: nat, bs: nat)
    requires bs > 0 && a <= b && |EmptiedOf(a, m, bs)| == bs
    ensures |EmptiedOf(b, m, bs)| == bs
  {
    NumIs(m * bs, m, bs);
    EmptiedAll(b, m, bs, m * bs);
    assert EmptiedOf(a, m, bs) <= EmptiedOf(b, m, bs);
    Sets.SubsetSize(EmptiedOf(a, m, bs), EmptiedOf(b, m, bs));
  }

  ghost predicate Apart<T>(s: State<T>, t: nat, u: nat)
    requires Sized(s) && t < |s.c| && u < |s.c|
  {
    forall k | InRange(s, t, k) :: !InRange(s, u, k)
  }

  ghost predicate ReturnApart<T>(s: State<T>, t: nat, u: nat)
    requires Sized(s) && t < |s.c| && u < |s.c|
  {
    s.c[t].Freeing() && s.c[u].Freeing() ==> Num(s.c[t].start, s.ix.bs) != Num(s.c[u].start, s.ix.bs)
  }

  lemma ConsumersApart<T>(s: State<T>, t: nat, u: nat)
    requires Inv(s) && t < |s.c| && u < |s.c| && t != u
    ensures Apart(s, t, u) && ReturnApart(s, t, u)
  {
    forall k | InRange(s, t, k) ensures !InRange(s, u, k) {
      if InRange(s, u, k) { RangesDisjoint(s, u, t, k); }
    }
    assert t < u || u < t;
  }

  lemma OtherConsumer<T>(s: State<T>, s': State<T>, t: nat, u: nat)
    requires OnlyConsumer(s, s', t) && u < |s.c| && u != t
    requires HeaderKnows(s, u) && RangeOk(s, u) && Apart(s, t, u) && ReturnApart(s, t, u)
    ensures HeaderKnows(s', u) && RangeOk(s', u)
  {
    var c := s.c[u];
    assert s'.c[u] == c && Stop(s', u) == Stop(s, u);
    if c.CRead? || c.CEmpty? { assert SegmentEnd(s', u, c.start) == SegmentEnd(s, u, c.start); }
    if !c.CNone? {
      forall k | c.Start() <= k < Stop(s, u) ensures k !in s'.emptied { assert InRange(s, u, k); }
      forall k | c.i <= k < Stop(s, u) ensures k !in s'.taken { assert InRange(s, u, k); }
    }
    if c.Freeing() { EmptiedOnlyGrows(s.emptied, s'.emptied, Num(c.start, s.ix.bs), s.ix.bs); }
  }

  /** What t has to see to for itself: its own place, and if it starts to give a block back, that the block was
      not fully emptied before. */
  ghost predicate OwnOk<T>(s: State<T>, s': State<T>, t: nat)
    requires OnlyConsumer(s, s', t)
  {
    && HeaderKnows(s', t) && RangeOk(s', t) && !s'.c[t].CNone?
    && s.c[t].i <= s'.c[t].i && (forall k | s.c[t].i <= k < s'.c[t].i :: k in s'.taken)
    && (s'.c[t].Freeing() ==>
          if s.c[t].Freeing() then s'.c[t].start == s.c[t].start
          else |EmptiedOf(s.emptied, Num(s'.c[t].start, s.ix.bs), s.ix.bs)| < s.ix.bs)
  }

  lemma OwnReturnApart<T>(s: State<T>, s': State<T>, t: nat, u: nat)
    requires OnlyConsumer(s, s', t) && OwnOk(s, s', t) && u < |s.c| && u != t && RangeOk(s, u) && ReturnApart(s, t, u)
    ensures ReturnApart(s', t, u) && ReturnApart(s', u, t)
  {
    if s.c[u].Freeing() {
      assert |EmptiedOf(s.emptied, Num(s.c[u].start, s.ix.bs), s.ix.bs)| == s.ix.bs && s'.c[u] == s.c[u];
    }
  }

  lemma ConsumersKept<T>(s: State<T>, s': State<T>, t: nat)
    requires Inv(s) && OnlyConsumer(s, s', t) && OwnOk(s, s', t)
    ensures ConsumersOk(s') && NoneLost(s')
  {
    assert ConsumersOk(s) && NoneLost(s);
    forall u | 0 <= u < |s.c| && u != t ensures Apart(s, t, u) && ReturnApart(s, t, u) { ConsumersApart(s, t, u); }
    ConsumersKeptPlaces(s, s', t);
    ConsumersKeptNoneLost(s, s', t);
  }

  lemma ConsumersKeptPlaces<T>(s: State<T>, s': State<T>, t: nat)
    requires OnlyConsumer(s, s', t) && OwnOk(s, s', t) && ConsumersOk(s)
    requires forall u | 0 <= u < |s.c| && u != t :: Apart(s, t, u) && ReturnApart(s, t, u)
    ensures ConsumersOk(s')
  {
    forall u | 0 <= u < |s'.c| ensures HeaderKnows(s', u) && RangeOk(s', u) {
      if u != t { OtherConsumer(s, s', t, u); }
    }
    forall u, v | 0 <= u < v < |s'.c| ensures ReturnApart(s', u, v) {
      if u == t {
        OwnReturnApart(s, s', t, v);
      } else if v == t {
        OwnReturnApart(s, s', t, u);
      } else {
        assert s'.c[u] == s.c[u] && s'.c[v] == s.c[v];
      }
    }
    forall u, v | 0 <= u < v < |s'.c| && s'.c[u].Freeing() && s'.c[v].Freeing()
      ensures Num(s'.c[u].start, s'.ix.bs) != Num(s'.c[v].start, s'.ix.bs)
    {
      assert ReturnApart(s', u, v);
    }
  }

  lemma ConsumersKeptNoneLost<T>(s: State<T>, s': State<T>, t: nat)
    requires OnlyConsumer(s, s', t) && OwnOk(s, s', t) && NoneLost(s)
    ensures NoneLost(s')
  {
    forall k | 0 <= k < s'.oc.head ensures k in s'.taken || Pending(s', k) {
      if k !in s'.taken {
        assert k !in s.taken && Pending(s, k);
        var u :| 0 <= u < |s.c| && !s.c[u].CNone? && s.c[u].i <= k < Stop(s, u);
        assert !s'.c[u].CNone? && s'.c[u].i <= k < Stop(s', u);
      }
    }
  }

  lemma ConsumerInv<T>(s: State<T>, s': State<T>, t: nat)
    requires Inv(s) && OnlyConsumer(s, s', t) && OwnOk(s, s', t)
    requires BI.Inv(s'.ix) && TailOk(s') && ProducerOk(s') && NumbersOk(s') && ElemsOk(s')
    ensures Inv(s')
  {
    ConsumersKept(s, s', t);
  }

  /** A step that only moves the consumer on. */
  lemma MoveKeepsInv<T>(s: State<T>, s': State<T>, t: nat)
    requires Inv(s) && OnlyConsumer(s, s', t) && s' == s.(c := s'.c) && OwnOk(s, s', t)
    ensures Inv(s')
  {
    ConsumersKept(s, s', t);
    forall m | 0 <= m < |s'.blk| ensures NumberOk(s', m) { assert NumberOk(s, m); }
  }

  lemma HeaderStepOwn<T>(s: State<T>, s': State<T>, t: nat)
    requires Sized(s) && ConsumerStep(s, s', t) && s.c[t].CHeader? && RangeOk(s, t)
    requires Stop(s, t) > 0 && Num(Stop(s, t) - 1, s.ix.bs) <= BI.Cur(s.ix).last
    ensures OnlyConsumer(s, s', t) && OwnOk(s, s', t)
  {
    assert Stop(s', t) == Stop(s, t);
  }

  lemma HeaderStepKeepsInv<T>(s: State<T>, s': State<T>, t: nat)
    requires Inv(s) && ConsumerStep(s, s', t) && s.c[t].CHeader?
    ensures Inv(s')
  {
    assert RangeOk(s, t);
    StopBelowTail(s, t);
    HasNumber(s, Stop(s, t) - 1);
    HeaderStepOwn(s, s', t);
    MoveKeepsInv(s, s', t);
  }

  lemma TailStepOwn<T>(s: State<T>, s': State<T>, t: nat)
    requires Sized(s) && ConsumerStep(s, s', t) && s.c[t].CTail? && HeaderKnows(s, t) && RangeOk(s, t)
    requires BI.HeaderShape(s.ix, s.ix.headers[s.c[t].h]) && s.ix.headers[s.c[t].h].last <= s.ix.hi
    ensures OnlyConsumer(s, s', t) && OwnOk(s, s', t)
  {
    assert Stop(s', t) == Stop(s, t);
  }

  lemma TailStepKeepsInv<T>(s: State<T>, s': State<T>, t: nat)
    requires Inv(s) && ConsumerStep(s, s', t) && s.c[t].CTail?
    ensures Inv(s')
  {
    assert RangeOk(s, t) && HeaderKnows(s, t);
    assert BI.HeaderShape(s.ix, s.ix.headers[s.c[t].h]);
    TailStepOwn(s, s', t);
    MoveKeepsInv(s, s', t);
  }

  /** The slot of a number through a header holds its entry, with its block. */
  ghost predicate FoundAt<T>(s: State<T>, h: nat, m: nat)
    requires Sized(s)
  {
    && h < |s.ix.headers| && s.ix.headers[h].capacity >= 1
    && HasSlot(s, h, BI.Slot(s.ix.headers[h], m)) && m < |s.blk| && m !in s.freed && m !in s.cleared
    && m in s.ix.ent && EntryAt(s, h, BI.Slot(s.ix.headers[h], m)) == s.ix.ent[m]
    && s.ix.entries[s.ix.ent[m]] == BI.Entry(BI.Some(m * s.ix.bs), BI.Some(s.blk[m]))
  }

  /** What the lookup of the block of index k yields through a header that knows it. */
  lemma LookupOf<T>(s: State<T>, t: nat, k: nat)
    requires Inv(s) && t < |s.c| && s.oc.threads[t].Claimed? && HeaderKnows(s, t) && RangeOk(s, t)
    requires !s.c[t].CNone? && !s.c[t].CHeader? && !s.c[t].CTail? && !s.c[t].CKey? && !s.c[t].CFinish?
    requires s.c[t].Start() <= k < Stop(s, t)
    ensures FoundAt(s, s.c[t].h, Num(k, s.ix.bs))
  {
    StopBelowTail(s, t);
    Live(s, k);
    var m := Num(k, s.ix.bs);
    KnowsTop(s, t, k);
    assert NumberOk(s, m);
    LiveAt(s, s.c[t].h, m);
  }

  lemma KnowsTop<T>(s: State<T>, t: nat, k: nat)
    requires Sized(s) && t < |s.c| && s.oc.threads[t].Claimed? && HeaderKnows(s, t)
    requires !s.c[t].CNone? && !s.c[t].CHeader? && !s.c[t].CTail? && !s.c[t].CKey? && !s.c[t].CFinish?
    requires k < Stop(s, t)
    ensures s.c[t].h < |s.ix.headers| && s.ix.headers[s.c[t].h].capacity >= 1
    ensures Num(k, s.ix.bs) <= BI.Top(s.ix, s.c[t].h)
  {
    NumMonotone(k, Stop(s, t) - 1, s.ix.bs);
  }

  lemma LiveAt<T>(s: State<T>, h: nat, m: nat)
    requires Sized(s) && BI.Inv(s.ix) && h < |s.ix.headers| && s.ix.headers[h].capacity >= 1
    requires m < |s.blk| && m !in s.freed && m !in s.cleared && NumberOk(s, m) && m <= BI.Top(s.ix, h)
    ensures FoundAt(s, h, m)
  {
    BI.LookupFinds(s.ix, h, m, m, BI.Slot(s.ix.headers[h], m));
    assert BI.HeaderShape(s.ix, s.ix.headers[h]);
  }

  /** The lookup itself: the key at a tail read earlier is still that of the number that was there, so the
      division and the mask arrive at the slot of the block. */
  ghost predicate KeyArrives<T>(s: State<T>, c: Consumer)
    requires Sized(s) && c.CKey? && c.h < |s.ix.headers| && s.ix.headers[c.h].capacity >= 1
  {
    var m := Num(c.i, s.ix.bs);
    && HasSlot(s, c.h, c.pos)
    && s.ix.entries[EntryAt(s, c.h, c.pos)].key == BI.Some(c.n * s.ix.bs)
    && (c.pos + BlocksFrom(c.n * s.ix.bs, c.i, s.ix.bs)) % s.ix.headers[c.h].capacity == BI.Slot(s.ix.headers[c.h], m)
  }

  lemma LookupKey<T>(s: State<T>, t: nat)
    requires Inv(s) && t < |s.c| && s.c[t].CKey?
    ensures RangeOk(s, t) && HeaderKnows(s, t) && KeyArrives(s, s.c[t])
  {
    assert RangeOk(s, t) && HeaderKnows(s, t);
    KeyIsLive(s, t);
    LookupKeyIn(s.ix, s.c[t].h, s.c[t].n, Num(s.c[t].i, s.ix.bs), s.c[t].pos);
  }

  lemma LookupKeyIn(x: BI.Index, h: nat, n: int, m: nat, pos: nat)
    requires BI.Inv(x) && h < |x.headers| && x.low <= m <= n <= BI.Top(x, h)
    requires x.headers[h].capacity >= 1 && pos == BI.Slot(x.headers[h], n)
    ensures x.headers[h].capacity == |x.headers[h].index| && pos < |x.headers[h].index|
    ensures x.headers[h].index[pos] < |x.entries| && x.entries[x.headers[h].index[pos]].key == BI.Some(n * x.bs)
    ensures (pos + (m * x.bs - n * x.bs) / x.bs) % x.headers[h].capacity == BI.Slot(x.headers[h], m)
  {
    BI.LookupFinds(x, h, n, m, pos);
    assert BI.HeaderShape(x, x.headers[h]);
  }

  lemma KeyStepArrives<T>(s: State<T>, s': State<T>, t: nat)
    requires Sized(s) && ConsumerStep(s, s', t) && s.c[t].CKey? && HeaderKnows(s, t) && KeyArrives(s, s.c[t])
    ensures s' == SetC(s, t, CValue(s.c[t].i, s.c[t].h, BI.Slot(s.ix.headers[s.c[t].h], Num(s.c[t].i, s.ix.bs))))
  {
  }

  lemma KeyStepOwn<T>(s: State<T>, s': State<T>, t: nat)
    requires Sized(s) && t < |s.c| && s.oc.threads[t].Claimed? && s.c[t].CKey? && HeaderKnows(s, t) && RangeOk(s, t)
    requires s' == SetC(s, t, CValue(s.c[t].i, s.c[t].h, BI.Slot(s.ix.headers[s.c[t].h], Num(s.c[t].i, s.ix.bs))))
    ensures OnlyConsumer(s, s', t) && OwnOk(s, s', t)
  {
    assert Stop(s', t) == Stop(s, t);
  }

  lemma KeyStepKeepsInv<T>(s: State<T>, s': State<T>, t: nat)
    requires Inv(s) && ConsumerStep(s, s', t) && s.c[t].CKey?
    ensures Inv(s')
  {
    LookupKey(s, t);
    KeyStepArrives(s, s', t);
    KeyStepOwn(s, s', t);
    MoveKeepsInv(s, s', t);
  }

  lemma ValueStepOwn<T>(s: State<T>, s': State<T>, t: nat)
    requires Sized(s) && ConsumerStep(s, s', t) && s.c[t].CValue? && HeaderKnows(s, t) && RangeOk(s, t)
    requires Num(s.c[t].i, s.ix.bs) < |s.blk|
    requires s'.c[t] == CRead(s.c[t].i, s.c[t].h, s.c[t].idx, s.blk[Num(s.c[t].i, s.ix.bs)], s.c[t].i)
    ensures OnlyConsumer(s, s', t) && OwnOk(s, s', t)
  {
    assert Stop(s', t) == Stop(s, t);
    NumBounds(s.c[t].i, s.ix.bs);
    assert SegmentEnd(s', t, s.c[t].i) == SegmentEnd(s, t, s.c[t].i);
  }

  /** What is left of a range begins with a segment. */
  lemma SegmentAhead<T>(s: State<T>, t: nat, i: nat)
    requires t < |s.oc.threads| && s.ix.bs > 0 && i < Stop(s, t)
    ensures SegmentEnd(s, t, i) > i
  {
    NumBounds(i, s.ix.bs);
  }

  lemma ValueStepKeepsInv<T>(s: State<T>, s': State<T>, t: nat)
    requires Inv(s) && ConsumerStep(s, s', t) && s.c[t].CValue?
    ensures Inv(s')
  {
    assert RangeOk(s, t) && HeaderKnows(s, t);
    LookupOf(s, t, s.c[t].i);
    SegmentAhead(s, t, s.c[t].i);
    ValueStepOwn(s, s', t);
    MoveKeepsInv(s, s', t);
  }

  /** A consumer that reads is inside one block. */
  lemma SameSegment<T>(s: State<T>, t: nat, k: nat)
    requires Sized(s) && t < |s.c| && (s.c[t].CRead? || s.c[t].CEmpty?) && s.c[t].start <= k < SegmentEnd(s, t, s.c[t].start)
    ensures Num(k, s.ix.bs) == Num(s.c[t].start, s.ix.bs)
  {
    NumBounds(s.c[t].start, s.ix.bs);
    NumIs(k, Num(s.c[t].start, s.ix.bs), s.ix.bs);
  }

  /** The slot read holds the element of its index. */
  lemma ReadFinds<T>(s: State<T>, t: nat)
    requires Inv(s) && t < |s.c| && s.oc.threads[t].Claimed? && s.c[t].CRead?
    ensures var c := s.c[t];
            && s.oc.threads[t].first <= c.i < Stop(s, t) <= s.oc.head && c.i < s.oc.tail && c.i !in s.taken
            && Num(c.i, s.ix.bs) < |s.blk| && c.b == s.blk[Num(c.i, s.ix.bs)] && Num(c.i, s.ix.bs) !in s.freed
            && c.b < |s.blocks| && c.b !in s.free && s.blocks[c.b].data[c.i % s.ix.bs] == s.elems[c.i]
  {
    assert RangeOk(s, t);
    StopBelowTail(s, t);
    SameSegment(s, t, s.c[t].i);
    Live(s, s.c[t].i);
  }

  lemma ReadStepOwn<T>(s: State<T>, s': State<T>, t: nat)
    requires Sized(s) && ConsumerStep(s, s', t) && s.c[t].CRead? && HeaderKnows(s, t) && RangeOk(s, t)
    requires s.oc.threads[t].first <= s.c[t].i < Stop(s, t)
    ensures OnlyConsumer(s, s', t) && OwnOk(s, s', t)
  {
    ReadStepChanges(s, s', t);
    ReadStepGoes(s, s', t);
  }

  lemma ReadStepChanges<T>(s: State<T>, s': State<T>, t: nat)
    requires Sized(s) && ConsumerStep(s, s', t) && s.c[t].CRead?
    requires s.oc.threads[t].first <= s.c[t].i < Stop(s, t)
    ensures OnlyConsumer(s, s', t) && (s'.c[t].CRead? || s'.c[t].CEmpty?) && s'.c[t].i == s.c[t].i + 1
    ensures s'.taken.Keys == s.taken.Keys + {s.c[t].i}
  {
  }

  lemma ReadStepGoes<T>(s: State<T>, s': State<T>, t: nat)
    requires Sized(s) && ConsumerStep(s, s', t) && s.c[t].CRead? && HeaderKnows(s, t) && RangeOk(s, t)
    ensures Sized(s') && t < |s'.c| && HeaderKnows(s', t) && RangeOk(s', t)
  {
    assert Stop(s', t) == Stop(s, t);
    assert SegmentEnd(s', t, s.c[t].start) == SegmentEnd(s, t, s.c[t].start);
  }

  lemma ReadStepKeepsInv<T>(s: State<T>, s': State<T>, t: nat)
    requires Inv(s) && ConsumerStep(s, s', t) && s.c[t].CRead?
    ensures Inv(s')
  {
    assert RangeOk(s, t) && HeaderKnows(s, t);
    ReadFinds(s, t);
    ReadStepOwn(s, s', t);
    ReadNumbersElems(s, s', t);
    assert TailOk(s') && ProducerOk(s') by { ReadProducer(s, s', t); }
    ConsumersKept(s, s', t);
  }

  lemma ReadProducer<T>(s: State<T>, s': State<T>, t: nat)
    requires Sized(s) && Sized(s') && TailOk(s) && ProducerOk(s) && ConsumerStep(s, s', t) && s.c[t].CRead?
    ensures TailOk(s') && ProducerOk(s')
  {
  }

  lemma ReadNumbersElems<T>(s: State<T>, s': State<T>, t: nat)
    requires Sized(s) && Sized(s') && NumbersOk(s) && ElemsOk(s) && ConsumerStep(s, s', t) && s.c[t].CRead?
    requires s.c[t].i < s.oc.head && s.c[t].i < s.oc.tail && s'.taken[s.c[t].i] == s.elems[s.c[t].i]
    ensures NumbersOk(s') && ElemsOk(s')
  {
    forall m | 0 <= m < |s'.blk| ensures NumberOk(s', m) { assert NumberOk(s, m); }
  }

  // ---------- counting the emptied slots ----------

  lemma EmptiedSplit(emptied: set<nat>, new': set<nat>, m: nat, bs: nat)
    requires bs > 0 && forall k | k in new' :: Num(k, bs) == m && k !in emptied
    ensures |EmptiedOf(emptied + new', m, bs)| == |EmptiedOf(emptied, m, bs)| + |new'|
    ensures forall n: nat | n != m :: EmptiedOf(emptied + new', n, bs) == EmptiedOf(emptied, n, bs)
  {
    assert EmptiedOf(emptied + new', m, bs) == EmptiedOf(emptied, m, bs) + new';
    assert EmptiedOf(emptied, m, bs) !! new';
  }

  /** One more segment, of block m. */
  ghost predicate Segment<T>(s: State<T>, t: nat, m: nat)
    requires Sized(s) && t < |s.c| && s.c[t].CEmpty?
  {
    var c, bs := s.c[t], s.ix.bs;
    var emptied' := s.emptied + Sets.Range(c.start, c.i);
    && c.start < c.i && m == Num(c.start, bs) == Num(c.i - 1, bs) < |s.blk| && m !in s.freed && m !in s.cleared
    && |EmptiedOf(s.emptied, m, bs)| < |EmptiedOf(emptied', m, bs)| <= bs
    && |EmptiedOf(emptied', m, bs)| == |EmptiedOf(s.emptied, m, bs)| + (c.i - c.start)
    && (forall n: nat | n != m :: EmptiedOf(emptied', n, bs) == EmptiedOf(s.emptied, n, bs))
    && c.b == s.blk[m] < |s.blocks| && s.blocks[c.b].done == |EmptiedOf(s.emptied, m, bs)|
  }

  lemma EmptiedSegment<T>(s: State<T>, t: nat)
    requires Inv(s) && t < |s.c| && s.oc.threads[t].Claimed? && s.c[t].CEmpty? && RangeOk(s, t)
    ensures Segment(s, t, Num(s.c[t].start, s.ix.bs))
  {
    var c, bs := s.c[t], s.ix.bs;
    var m, new' := Num(c.start, bs), Sets.Range(c.start, c.i);
    StopBelowTail(s, t);
    Live(s, c.start);
    assert NumberOk(s, m);
    forall k | k in new' ensures Num(k, bs) == m && k !in s.emptied { SameSegment(s, t, k); }
    EmptiedSplit(s.emptied, new', m, bs);
    EmptiedAll(s.emptied + new', m, bs, c.start);
    assert c.i - 1 in new';
  }

  lemma EmptyNumbers<T>(s: State<T>, s': State<T>, t: nat)
    requires Sized(s) && Sized(s') && NumbersOk(s) && ConsumerStep(s, s', t) && s.c[t].CEmpty?
    requires Segment(s, t, Num(s.c[t].start, s.ix.bs))
    ensures NumbersOk(s')
  {
    var m := Num(s.c[t].start, s.ix.bs);
    forall n | 0 <= n < |s'.blk| ensures NumberOk(s', n) {
      assert NumberOk(s, n);
      if n < m && n !in s.freed { assert s.blk[n] != s.blk[m]; }
      if m < n && n !in s.freed { assert s.blk[m] != s.blk[n]; }
    }
  }

  /** A segment ends with the range or with its block. */
  lemma SegmentStop<T>(s: State<T>, t: nat)
    requires Sized(s) && t < |s.c| && s.oc.threads[t].Claimed? && s.c[t].CEmpty? && RangeOk(s, t)
    ensures s.c[t].i == Stop(s, t) || s.c[t].i == (Num(s.c[t].start, s.ix.bs) + 1) * s.ix.bs
  {
  }

  lemma BlockEnd(i: nat, m: nat, bs: nat)
    requires bs > 0
    ensures i == (m + 1) * bs ==> i % bs == 0 && Num(i, bs) == m + 1
    ensures i > 0 && i % bs == 0 && Num(i - 1, bs) == m ==> Num(i, bs) == m + 1
  {
    if i == (m + 1) * bs {
      assert (m + 1 + 1) * bs == (m + 1) * bs + bs;
      NumIs(i, m + 1, bs);
    }
    if i > 0 { NumNext(i - 1, bs); }
  }

  lemma NextSlotOf(h: BI.Header, m: nat)
    requires h.capacity >= 1
    ensures (BI.Slot(h, m) + 1) % h.capacity == BI.Slot(h, m + 1)
  {
    Modular.AddInside(m + h.off, 1, h.capacity);
  }

  /** Where the consumer goes after a segment: it gives the block back, looks at the next one, or is done. */
  lemma EmptyStepGoes<T>(s: State<T>, s': State<T>, t: nat)
    requires Sized(s) && ConsumerStep(s, s', t) && s.c[t].CEmpty? && HeaderKnows(s, t) && RangeOk(s, t)
    requires Segment(s, t, Num(s.c[t].start, s.ix.bs))
    ensures HeaderKnows(s', t) && RangeOk(s', t)
  {
    var c := s.c[t];
    var m := Num(c.start, s.ix.bs);
    assert Stop(s', t) == Stop(s, t);
    SegmentStop(s, t);
    BlockEnd(c.i, m, s.ix.bs);
    NextSlotOf(s.ix.headers[c.h], m);
    assert s'.c[t].i == c.i;
  }

  lemma EmptyStepChanges<T>(s: State<T>, s': State<T>, t: nat)
    requires Sized(s) && ConsumerStep(s, s', t) && s.c[t].CEmpty? && RangeOk(s, t)
    ensures OnlyConsumer(s, s', t) && s'.c[t].i == s.c[t].i && !s'.c[t].CNone?
  {
  }

  lemma EmptyStepOwn<T>(s: State<T>, s': State<T>, t: nat)
    requires Sized(s) && ConsumerStep(s, s', t) && s.c[t].CEmpty? && HeaderKnows(s, t) && RangeOk(s, t)
    requires Segment(s, t, Num(s.c[t].start, s.ix.bs))
    ensures OnlyConsumer(s, s', t) && OwnOk(s, s', t)
  {
    EmptyStepChanges(s, s', t);
    EmptyStepGoes(s, s', t);
  }

  /** The segment was read, and its block is not the one the producer is about to use. */
  ghost predicate EmptyReady<T>(s: State<T>, t: nat)
    requires Sized(s) && t < |s.c| && s.c[t].CEmpty?
  {
    && (s.p.PStoreValue? ==> s.p.b != s.c[t].b)
    && (forall k | s.c[t].start <= k < s.c[t].i :: k in s.taken && k < s.oc.head)
  }

  lemma EmptyIsReady<T>(s: State<T>, t: nat)
    requires Inv(s) && t < |s.c| && s.oc.threads[t].Claimed? && s.c[t].CEmpty? && RangeOk(s, t)
    ensures EmptyReady(s, t)
  {
    StopBelowTail(s, t);
    EmptiedSegment(s, t);
  }

  lemma EmptyStepParts<T>(s: State<T>, s': State<T>, t: nat)
    requires Inv(s) && ConsumerStep(s, s', t) && s.c[t].CEmpty?
    ensures OnlyConsumer(s, s', t) && OwnOk(s, s', t) && NumbersOk(s')
    ensures EmptyReady(s, t)
  {
    assert RangeOk(s, t) && HeaderKnows(s, t);
    EmptyIsReady(s, t);
    EmptiedSegment(s, t);
    EmptyStepOwn(s, s', t);
    EmptyNumbers(s, s', t);
  }

  lemma EmptyStepRest<T>(s: State<T>, s': State<T>, t: nat)
    requires Sized(s) && Sized(s') && TailOk(s) && ProducerOk(s) && ElemsOk(s)
    requires ConsumerStep(s, s', t) && s.c[t].CEmpty?
    requires EmptyReady(s, t)
    ensures s'.oc == s.oc && s'.ix == s.ix && TailOk(s') && ProducerOk(s') && ElemsOk(s')
  {
    EmptyProducer(s, s', t);
    EmptyElems(s, s', t);
  }

  lemma EmptyStepKeepsInv<T>(s: State<T>, s': State<T>, t: nat)
    requires Inv(s) && ConsumerStep(s, s', t) && s.c[t].CEmpty?
    ensures Inv(s')
  {
    EmptyStepParts(s, s', t);
    EmptyStepRest(s, s', t);
    ConsumerInv(s, s', t);
  }

  lemma EmptyProducer<T>(s: State<T>, s': State<T>, t: nat)
    requires Sized(s) && Sized(s') && ConsumerStep(s, s', t) && s.c[t].CEmpty?
    requires TailOk(s) && ProducerOk(s)
    requires s.p.PStoreValue? ==> s.p.b != s.c[t].b
    ensures TailOk(s') && ProducerOk(s')
  {
  }

  lemma EmptyElems<T>(s: State<T>, s': State<T>, t: nat)
    requires Sized(s) && Sized(s') && ConsumerStep(s, s', t) && s.c[t].CEmpty? && ElemsOk(s)
    requires forall k | s.c[t].start <= k < s.c[t].i :: k in s.taken && k < s.oc.head
    ensures ElemsOk(s')
  {
    assert forall a | 0 <= a < |s.blocks| :: s'.blocks[a].data == s.blocks[a].data;
  }

  // ---------- giving a block back ----------

  /** The entry that consumer t clears is that of its block. */
  ghost predicate ReturnsOwn<T>(s: State<T>, t: nat, m: nat)
    requires Sized(s) && t < |s.c| && s.c[t].CClear?
  {
    var c := s.c[t];
    && m == Num(c.start, s.ix.bs) < |s.blk| && m !in s.cleared && m !in s.freed && m in s.ix.ent
    && s.ix.low <= m <= s.ix.hi && HasSlot(s, c.h, c.idx) && EntryAt(s, c.h, c.idx) == s.ix.ent[m]
    && |EmptiedOf(s.emptied, m, s.ix.bs)| == s.ix.bs
  }

  lemma ClearEntry<T>(s: State<T>, t: nat)
    requires Inv(s) && t < |s.c| && s.oc.threads[t].Claimed? && s.c[t].CClear? && RangeOk(s, t) && HeaderKnows(s, t)
    ensures ReturnsOwn(s, t, Num(s.c[t].start, s.ix.bs))
  {
    var c, m := s.c[t], Num(s.c[t].start, s.ix.bs);
    assert NumberOk(s, m);
    NumMonotone(c.start, Stop(s, t) - 1, s.ix.bs);
    BI.LookupFinds(s.ix, c.h, m, m, BI.Slot(s.ix.headers[c.h], m));
    assert BI.HeaderShape(s.ix, s.ix.headers[c.h]);
  }

  lemma ClearStepOwn<T>(s: State<T>, s': State<T>, t: nat)
    requires Sized(s) && ConsumerStep(s, s', t) && s.c[t].CClear? && HeaderKnows(s, t) && RangeOk(s, t)
    requires ReturnsOwn(s, t, Num(s.c[t].start, s.ix.bs))
    ensures OnlyConsumer(s, s', t) && OwnOk(s, s', t)
  {
    assert Stop(s', t) == Stop(s, t);
  }

  lemma ClearNumbers<T>(s: State<T>, s': State<T>, t: nat)
    requires Sized(s) && Sized(s') && NumbersOk(s) && ConsumerStep(s, s', t) && s.c[t].CClear?
    requires ReturnsOwn(s, t, Num(s.c[t].start, s.ix.bs)) && BI.KeysOk(s.ix) && s.ix.hi >= |s.blk| - 1
    ensures NumbersOk(s')
  {
    var m := Num(s.c[t].start, s.ix.bs);
    forall n | 0 <= n < |s'.blk| ensures NumberOk(s', n) {
      assert NumberOk(s, n);
      if n !in s.cleared && n != m { assert s.ix.ent[n] != s.ix.ent[m]; }
    }
  }

  lemma ClearStepKeepsInv<T>(s: State<T>, s': State<T>, t: nat)
    requires Inv(s) && ConsumerStep(s, s', t) && s.c[t].CClear?
    ensures Inv(s')
  {
    assert RangeOk(s, t) && HeaderKnows(s, t);
    ClearEntry(s, t);
    BI.InvCur(s.ix);
    BI.SetValueKeepsInv(s.ix, EntryAt(s, s.c[t].h, s.c[t].idx), BI.None);
    ClearStepOwn(s, s', t);
    ClearNumbers(s, s', t);
    ClearProducer(s, s', t);
    ConsumersKept(s, s', t);
  }

  lemma ClearProducer<T>(s: State<T>, s': State<T>, t: nat)
    requires Inv(s) && ConsumerStep(s, s', t) && s.c[t].CClear? && OnlyConsumer(s, s', t)
    ensures TailOk(s') && ProducerOk(s') && ElemsOk(s')
  {
  }

  lemma FreeStepOwn<T>(s: State<T>, s': State<T>, t: nat)
    requires Sized(s) && Sized(s') && ConsumerStep(s, s', t) && s.c[t].CFree? && HeaderKnows(s, t) && RangeOk(s, t)
    ensures OnlyConsumer(s, s', t) && OwnOk(s, s', t)
  {
    var c := s.c[t];
    assert Stop(s', t) == Stop(s, t);
    BlockEnd(c.i, Num(c.start, s.ix.bs), s.ix.bs);
    NextSlotOf(s.ix.headers[c.h], Num(c.start, s.ix.bs));
    assert s'.c[t].i == c.i;
  }

  lemma FreeNumbers<T>(s: State<T>, s': State<T>, t: nat)
    requires Sized(s) && Sized(s') && NumbersOk(s) && ConsumerStep(s, s', t) && s.c[t].CFree? && RangeOk(s, t)
    ensures NumbersOk(s')
  {
    var m := Num(s.c[t].start, s.ix.bs);
    forall n | 0 <= n < |s'.blk| ensures NumberOk(s', n) {
      assert NumberOk(s, n);
      if n < m && n !in s.freed { assert s.blk[n] != s.blk[m]; }
      if m < n && n !in s.freed { assert s.blk[m] != s.blk[n]; }
    }
  }

  lemma FreeStepKeepsInv<T>(s: State<T>, s': State<T>, t: nat)
    requires Inv(s) && ConsumerStep(s, s', t) && s.c[t].CFree?
    ensures Inv(s')
  {
    assert RangeOk(s, t) && HeaderKnows(s, t);
    assert NumberOk(s, Num(s.c[t].start, s.ix.bs));
    FreeStepOwn(s, s', t);
    FreeNumbers(s, s', t);
    FreeProducer(s, s', t);
    ConsumersKept(s, s', t);
  }

  lemma FreeProducer<T>(s: State<T>, s': State<T>, t: nat)
    requires Inv(s) && ConsumerStep(s, s', t) && s.c[t].CFree? && RangeOk(s, t) && OnlyConsumer(s, s', t)
    ensures TailOk(s') && ProducerOk(s') && ElemsOk(s')
  {
  }

  // ---------- claiming and finishing ----------

  /** What one access of the counters changes: a claim takes the indices from the head on. */
  ghost predicate ClaimEffect(a: OC.State, b: OC.State, t: nat) {
    && t < |a.threads| == |b.threads| && b.tail == a.tail && !a.threads[t].Claimed? && b.zeros == a.zeros
    && b.threads == a.threads[t := b.threads[t]]
    && (b.threads[t].Claimed? ==>
          b.threads[t].first == a.head && b.threads[t].count >= 1 && b.head == a.head + b.threads[t].count)
    && (!b.threads[t].Claimed? ==> b.head == a.head)
  }

  lemma ClaimHasEffect<T>(s: State<T>, s': State<T>, t: nat)
    requires Inv(s) && ClaimStep(s, s', t)
    ensures OC.Inv(s'.oc) && ClaimEffect(s.oc, s'.oc, t)
  {
    assert OC.ThreadOk(s.oc, t);
    if OC.ClaimStep(s.oc, s'.oc, t) {
      OC.ClaimKeepsInv(s.oc, s'.oc, t);
    } else {
      OC.LocalKeepsInv(s.oc, s'.oc, t);
    }
  }

  /** A consumer whose thread does not move. */
  lemma UnmovedConsumer<T>(s: State<T>, s': State<T>, u: nat)
    requires Sized(s) && Sized(s') && u < |s.c| == |s'.c| && HeaderKnows(s, u) && RangeOk(s, u)
    requires s' == s.(oc := s'.oc, c := s'.c) && s'.c[u] == s.c[u] && s'.oc.threads[u] == s.oc.threads[u]
    ensures HeaderKnows(s', u) && RangeOk(s', u)
  {
    assert Stop(s', u) == Stop(s, u);
    var c := s.c[u];
    assert c.CRead? || c.CEmpty? ==> SegmentEnd(s', u, c.start) == SegmentEnd(s, u, c.start);
  }

  lemma ClaimConsumers<T>(s: State<T>, s': State<T>, t: nat)
    requires Sized(s) && Sized(s') && ClaimStep(s, s', t) && ClaimEffect(s.oc, s'.oc, t)
    requires ElemsOk(s) && ConsumersOk(s)
    ensures ConsumersOk(s')
  {
    assert RangeOk(s, t);
    forall u | 0 <= u < |s'.c| ensures HeaderKnows(s', u) && RangeOk(s', u) {
      if u != t {
        assert HeaderKnows(s, u) && RangeOk(s, u);
        UnmovedConsumer(s, s', u);
      }
    }
  }

  lemma ClaimNoneLost<T>(s: State<T>, s': State<T>, t: nat)
    requires Sized(s) && Sized(s') && ClaimStep(s, s', t) && ClaimEffect(s.oc, s'.oc, t) && NoneLost(s)
    ensures NoneLost(s')
  {
    forall k | 0 <= k < s'.oc.head ensures k in s'.taken || Pending(s', k) {
      if k >= s.oc.head {
        assert !s'.c[t].CNone? && s'.c[t].i <= k < Stop(s', t);
      } else if k !in s.taken {
        assert Pending(s, k);
        var u :| 0 <= u < |s.c| && !s.c[u].CNone? && s.c[u].i <= k < Stop(s, u);
        assert !s'.c[u].CNone? && s'.c[u].i <= k < Stop(s', u);
      }
    }
  }

  lemma ClaimKeepsInv<T>(s: State<T>, s': State<T>, t: nat)
    requires Inv(s) && ClaimStep(s, s', t)
    ensures Inv(s')
  {
    ClaimHasEffect(s, s', t);
    ClaimConsumers(s, s', t);
    ClaimNoneLost(s, s', t);
    forall m | 0 <= m < |s'.blk| ensures NumberOk(s', m) { assert NumberOk(s, m); }
  }

  lemma FinishConsumers<T>(s: State<T>, s': State<T>, t: nat)
    requires Sized(s) && Sized(s') && ConsumerStep(s, s', t) && s.c[t].CFinish? && ConsumersOk(s) && NoneLost(s)
    ensures ConsumersOk(s') && NoneLost(s')
  {
    assert RangeOk(s, t);
    forall u | 0 <= u < |s'.c| ensures HeaderKnows(s', u) && RangeOk(s', u) {
      if u != t {
        assert HeaderKnows(s, u) && RangeOk(s, u);
        UnmovedConsumer(s, s', u);
      }
    }
    forall k | 0 <= k < s'.oc.head && k !in s'.taken ensures Pending(s', k) {
      assert Pending(s, k);
      var u :| 0 <= u < |s.c| && !s.c[u].CNone? && s.c[u].i <= k < Stop(s, u);
      assert !s'.c[u].CNone? && s'.c[u].i <= k < Stop(s', u);
    }
  }

  lemma FinishKeepsInv<T>(s: State<T>, s': State<T>, t: nat)
    requires Inv(s) && ConsumerStep(s, s', t) && s.c[t].CFinish?
    ensures Inv(s')
  {
    OC.LocalKeepsInv(s.oc, s'.oc, t);
    FinishConsumers(s, s', t);
    forall m | 0 <= m < |s'.blk| ensures NumberOk(s', m) { assert NumberOk(s, m); }
  }

  // ---------- whole runs ----------

  lemma ConsumerKeepsInv<T>(s: State<T>, s': State<T>, t: nat)
    requires Inv(s) && ConsumerStep(s, s', t)
    ensures Inv(s')
  {
    match s.c[t]
    case CHeader(_) => HeaderStepKeepsInv(s, s', t);
    case CTail(_, _) => TailStepKeepsInv(s, s', t);
    case CKey(_, _, _, _) => KeyStepKeepsInv(s, s', t);
    case CValue(_, _, _) => ValueStepKeepsInv(s, s', t);
    case CRead(_, _, _, _, _) => ReadStepKeepsInv(s, s', t);
    case CEmpty(_, _, _, _, _) => EmptyStepKeepsInv(s, s', t);
    case CClear(_, _, _, _, _) => ClearStepKeepsInv(s, s', t);
    case CFree(_, _, _, _, _) => FreeStepKeepsInv(s, s', t);
    case CFinish(_) => FinishKeepsInv(s, s', t);
    case CNone =>
  }

  lemma StepKeepsInv<T(!new)>(s: State<T>, s': State<T>)
    requires Inv(s) && Next(s, s')
    ensures Inv(s')
  {
    if v :| EnqueueCall(s, s', v) {
      EnqueueCallKeepsInv(s, s', v);
    } else if ProducerStep(s, s') {
      ProducerKeepsInv(s, s');
    } else if t :| ClaimStep(s, s', t) {
      ClaimKeepsInv(s, s', t);
    } else {
      var t :| ConsumerStep(s, s', t);
      ConsumerKeepsInv(s, s', t);
    }
  }

  lemma InitOC<T>(s: State<T>)
    requires Init(s)
    ensures OC.Inv(s.oc)
  {
  }

  lemma InitConsumers<T>(s: State<T>)
    requires Init(s)
    ensures ConsumersOk(s) && NoneLost(s) && ElemsOk(s) && NumbersOk(s)
  {
  }

  lemma InitInv<T>(s: State<T>)
    requires Init(s) && !s.oc.zeros
    ensures Inv(s)
  {
    InitOC(s);
    BI.InitInv(s.ix);
    InitConsumers(s);
    InitTail(s);
  }

  lemma InitTail<T>(s: State<T>)
    requires Init(s)
    ensures TailOk(s) && ProducerOk(s)
  {
  }

  ghost predicate Run<T(!new)>(run: seq<State<T>>) {
    |run| > 0 && forall i | 0 <= i < |run| :: Follows(run, i)
  }

  /** The first state is an initial one, every other is one step after the one before. */
  ghost predicate Follows<T(!new)>(run: seq<State<T>>, i: nat)
    requires i < |run|
  {
    if i == 0 then Init(run[0]) else Next(run[i - 1], run[i])
  }

  ghost predicate Reachable<T(!new)>(s: State<T>) {
    exists run: seq<State<T>> :: Run(run) && run[|run| - 1] == s
  }

  lemma {:induction false} RunInv<T(!new)>(run: seq<State<T>>, i: nat)
    requires Run(run) && i < |run| && !run[i].oc.zeros
    ensures Inv(run[i])
  {
    assert Follows(run, i);
    if i == 0 {
      InitInv(run[0]);
    } else {
      StepKeepsZeros(run[i - 1], run[i]);
      RunInv(run, i - 1);
      StepKeepsInv(run[i - 1], run[i]);
    }
  }

  lemma StepKeepsZeros<T(!new)>(s: State<T>, s': State<T>)
    requires Next(s, s')
    ensures s'.oc.zeros == s.oc.zeros
  {
    if t :| ConsumerStep(s, s', t) { ConsumerKeepsZeros(s, s', t); }
  }

  lemma ConsumerKeepsZeros<T>(s: State<T>, s': State<T>, t: nat)
    requires Sized(s) && ConsumerStep(s, s', t)
    ensures s'.oc.zeros == s.oc.zeros
  {
  }

  lemma ReachableInv<T(!new)>(s: State<T>)
    requires Reachable(s) && !s.oc.zeros
    ensures Inv(s)
  {
    var run: seq<State<T>> :| Run(run) && run[|run| - 1] == s;
    RunInv(run, |run| - 1);
  }

  // ---------- main results, when no caller asks for 0 elements (see ZeroMaximum) ----------

  /** The element at an index is read once, by the thread that claimed the index, and is the one that was
      enqueued there; the block it is read from is not in the pool, nor is the producer about to fill it. */
  lemma ReadOnceByItsOwner<T(!new)>(s: State<T>, s': State<T>, t: nat)
    requires Reachable(s) && !s.oc.zeros && Next(s, s') && ConsumerStep(s, s', t) && s.c[t].CRead?
    ensures var i, b := s.c[t].i, s.c[t].b;
            && i < |s.oc.owner| && s.oc.owner[i] == t && i < |s.elems|
            && i !in s.taken && s'.taken == s.taken[i := s.elems[i]]
            && b !in s.free && (s.p.PStoreValue? ==> s.p.b != b)
  {
    ReachableInv(s);
    OwnerOf(s, t, s.c[t].i);
    ReadFinds(s, t);
  }

  lemma OwnerOf<T>(s: State<T>, t: nat, k: nat)
    requires Inv(s) && t < |s.c|
    ensures RangeOk(s, t) && (InRange(s, t, k) ==> k < |s.oc.owner| && s.oc.owner[k] == t)
  {
    assert RangeOk(s, t) && OC.ThreadOk(s.oc, t);
  }

  /** No two consumers are at the same slot. */
  lemma NoSlotReadTwice<T(!new)>(s: State<T>, t: nat, u: nat)
    requires Reachable(s) && !s.oc.zeros && t < |s.c| && u < |s.c| && t != u && s.c[t].CRead? && s.c[u].CRead?
    ensures Sized(s) && s.c[t].i != s.c[u].i && (s.c[t].b == s.c[u].b ==> s.c[t].i % s.ix.bs != s.c[u].i % s.ix.bs)
  {
    ReachableInv(s);
    assert RangeOk(s, t) && RangeOk(s, u);
    ConsumersApart(s, t, u);
    ReadFinds(s, t);
    ReadFinds(s, u);
    assert InRange(s, t, s.c[t].i) && InRange(s, u, s.c[u].i);
    SlotsDiffer(s, s.c[t].i, s.c[u].i);
  }

  /** Two live indices never share a slot of a block. */
  lemma SlotsDiffer<T>(s: State<T>, i: nat, j: nat)
    requires Sized(s) && NumbersOk(s) && i != j && Num(i, s.ix.bs) < |s.blk| && Num(j, s.ix.bs) < |s.blk|
    requires Num(i, s.ix.bs) !in s.freed && Num(j, s.ix.bs) !in s.freed
    ensures s.blk[Num(i, s.ix.bs)] == s.blk[Num(j, s.ix.bs)] ==> i % s.ix.bs != j % s.ix.bs
  {
    NumBounds(i, s.ix.bs);
    NumBounds(j, s.ix.bs);
    if Num(i, s.ix.bs) != Num(j, s.ix.bs) { DifferentBlocks(s, Num(i, s.ix.bs), Num(j, s.ix.bs)); }
  }

  /** A block goes back to the pool once, and after every one of its slots was read ... */
  lemma FreedOnceConsumed<T(!new)>(s: State<T>, s': State<T>, t: nat, k: nat)
    requires Reachable(s) && !s.oc.zeros && Next(s, s') && ConsumerStep(s, s', t) && s.c[t].CFree?
    ensures var c, bs := s.c[t], s.ix.bs;
            var m := Num(c.start, bs);
            && m !in s.freed && m in s'.freed && m < |s.blk| && c.b == s.blk[m] && c.b !in s.free && c.b in s'.free
            && (Num(k, bs) == m ==> k in s.taken)
  {
    ReachableInv(s);
    assert RangeOk(s, t);
    var m := Num(s.c[t].start, s.ix.bs);
    assert NumberOk(s, m);
    if Num(k, s.ix.bs) == m { EmptiedAll(s.emptied, m, s.ix.bs, k); }
  }

  /** ... while no consumer has one of its slots left to read or to count. */
  lemma FreedBehindReaders<T(!new)>(s: State<T>, t: nat, u: nat)
    requires Reachable(s) && !s.oc.zeros && t < |s.c| && s.c[t].CFree? && u < |s.c| && (s.c[u].CRead? || s.c[u].CEmpty?)
    ensures s.c[u].b != s.c[t].b
  {
    ReachableInv(s);
    ReaderLive(s, u);
    ReaderElsewhere(s, t, u);
  }

  lemma ReaderLive<T>(s: State<T>, u: nat)
    requires Inv(s) && u < |s.c| && (s.c[u].CRead? || s.c[u].CEmpty?)
    ensures RangeOk(s, u) && s.c[u].start !in s.emptied && Num(s.c[u].start, s.ix.bs) !in s.freed
  {
    assert RangeOk(s, u);
    StopBelowTail(s, u);
    Live(s, s.c[u].start);
  }

  lemma ReaderElsewhere<T>(s: State<T>, t: nat, u: nat)
    requires Sized(s) && NumbersOk(s) && t < |s.c| && u < |s.c| && s.c[t].CFree? && (s.c[u].CRead? || s.c[u].CEmpty?)
    requires RangeOk(s, t) && RangeOk(s, u) && s.c[u].start !in s.emptied && Num(s.c[u].start, s.ix.bs) !in s.freed
    ensures s.c[u].b != s.c[t].b
  {
    EmptiedAll(s.emptied, Num(s.c[t].start, s.ix.bs), s.ix.bs, s.c[u].start);
    DifferentBlocks(s, Num(s.c[u].start, s.ix.bs), Num(s.c[t].start, s.ix.bs));
  }

  lemma DifferentBlocks<T>(s: State<T>, m: nat, n: nat)
    requires Sized(s) && NumbersOk(s) && m < |s.blk| && n < |s.blk| && m != n && m !in s.freed && n !in s.freed
    ensures s.blk[m] != s.blk[n]
  {
    assert m < n || n < m;
  }

  /** The assertion `prevVal + count <= BLOCK_SIZE` (line 1369): a block's counter never passes its size. */
  lemma CounterNeverOverflows<T(!new)>(s: State<T>, t: nat)
    requires Reachable(s) && !s.oc.zeros && t < |s.c| && s.c[t].CEmpty?
    ensures s.c[t].start < s.c[t].i && s.c[t].b < |s.blocks|
    ensures s.blocks[s.c[t].b].done + (s.c[t].i - s.c[t].start) <= s.ix.bs
  {
    ReachableInv(s);
    assert RangeOk(s, t);
    EmptiedSegment(s, t);
  }

  /** The assertions of the lookup (lines 2657 and 2662): the key at the tail that was read is valid, and the
      slot the lookup arrives at holds the base of the index and a block, whatever header and tail it started
      from and whatever the producer did meanwhile. */
  lemma LookupFindsLiveEntry<T(!new)>(s: State<T>, t: nat)
    requires Reachable(s) && !s.oc.zeros && t < |s.c| && s.c[t].CKey?
    ensures Sized(s) && LookupSound(s, s.c[t])
  {
    ReachableInv(s);
    KeyIsLive(s, t);
    LiveLookupSound(s, s.c[t]);
  }

  /** What the lookup needs: the block of the index, and the number at the tail that was read, are in place. */
  ghost predicate LiveKey<T>(s: State<T>, c: Consumer)
    requires Sized(s) && c.CKey?
  {
    var m := Num(c.i, s.ix.bs);
    && c.h < |s.ix.headers| && s.ix.headers[c.h].capacity >= 1
    && s.ix.low <= m <= c.n <= BI.Top(s.ix, c.h) && c.pos == BI.Slot(s.ix.headers[c.h], c.n)
    && m < |s.blk| && m in s.ix.ent && s.ix.ent[m] < |s.ix.entries|
    && s.ix.entries[s.ix.ent[m]].value == BI.Some(s.blk[m])
  }

  lemma KeyIsLive<T>(s: State<T>, t: nat)
    requires Inv(s) && t < |s.c| && s.c[t].CKey?
    ensures LiveKey(s, s.c[t])
  {
    assert RangeOk(s, t) && HeaderKnows(s, t);
    StopBelowTail(s, t);
    Live(s, s.c[t].i);
    NumMonotone(s.c[t].i, Stop(s, t) - 1, s.ix.bs);
  }

  /** The lookup of `c.i` by a consumer that has read a header, its tail and the key at that tail. */
  ghost predicate LookupSound<T>(s: State<T>, c: Consumer)
    requires Sized(s) && c.CKey?
  {
    var m := Num(c.i, s.ix.bs);
    && HasSlot(s, c.h, c.pos) && s.ix.entries[EntryAt(s, c.h, c.pos)].key.Some?
    && var tailBase := s.ix.entries[EntryAt(s, c.h, c.pos)].key.value;
       var idx := (c.pos + (m * s.ix.bs - tailBase) / s.ix.bs) % s.ix.headers[c.h].capacity;
       && HasSlot(s, c.h, idx) && m < |s.blk|
       && s.ix.entries[EntryAt(s, c.h, idx)] == BI.Entry(BI.Some(m * s.ix.bs), BI.Some(s.blk[m]))
  }

  lemma LiveLookupSound<T>(s: State<T>, c: Consumer)
    requires Sized(s) && BI.Inv(s.ix) && c.CKey? && LiveKey(s, c)
    ensures LookupSound(s, c)
  {
    var m := Num(c.i, s.ix.bs);
    LookupKeyIn(s.ix, c.h, c.n, m, c.pos);
    BI.LookupFinds(s.ix, c.h, m, m, BI.Slot(s.ix.headers[c.h], m));
  }

  /** Whenever no consumer is at work, what was taken is exactly the elements below the head. */
  lemma NothingLost<T(!new)>(s: State<T>)
    requires Reachable(s) && !s.oc.zeros && forall t | 0 <= t < |s.c| :: s.c[t].CNone?
    ensures s.oc.head <= |s.elems|
    ensures s.taken == map i: nat | 0 <= i < s.oc.head :: s.elems[i]
  {
    ReachableInv(s);
    OC.HeadBounded(s.oc);
    forall k: nat | k < s.oc.head ensures k in s.taken { NoneAtWork(s, k); }
  }

  lemma NoneAtWork<T>(s: State<T>, k: nat)
    requires NoneLost(s) && k < s.oc.head && forall t | 0 <= t < |s.c| :: s.c[t].CNone?
    ensures k in s.taken
  {
    assert !Pending(s, k);
  }

  /** The head is never ahead of the tail by a block, so the check at line 2209 of the source fails only for a
      bounded queue. */
  lemma HeadCheckPasses<T(!new)>(s: State<T>, s': State<T>)
    requires Reachable(s) && !s.oc.zeros && Next(s, s') && s.p.PCheckHead? && ProducerStep(s, s')
    ensures s'.p.PCheckEntry?
  {
    ReachableInv(s);
    OC.HeadBounded(s.oc);
  }

  /** What the next access of a thread goes through exists: a header, a slot of it, a valid key, a block. */
  ghost predicate ConsumerAccess<T>(s: State<T>, t: nat)
    requires Sized(s) && t < |s.c|
  {
    match s.c[t]
    case CTail(_, h) => h < |s.ix.headers|
    case CKey(_, h, pos, _) => HasSlot(s, h, pos) && s.ix.entries[EntryAt(s, h, pos)].key.Some?
    case CValue(_, h, idx) => HasSlot(s, h, idx) && s.ix.entries[EntryAt(s, h, idx)].value.Some?
    case CRead(_, _, _, b, _) => b < |s.blocks|
    case CEmpty(i, h, idx, b, start) => b < |s.blocks| && start <= i && HasSlot(s, h, idx)
    case CClear(_, h, idx, _, _) => HasSlot(s, h, idx)
    case CFree(_, h, idx, _, _) => HasSlot(s, h, idx)
    case _ => true
  }

  ghost predicate ProducerAccess<T>(s: State<T>) {
    && (s.p.PClear? || s.p.PStoreValue? ==> s.p.e < |s.ix.entries|)
    && (s.p.PWrite? ==> s.tailBlock < |s.blocks|)
  }

  lemma SlotExists<T>(s: State<T>, h: nat, m: int)
    requires Sized(s) && BI.Inv(s.ix) && h < |s.ix.headers|
    ensures s.ix.headers[h].capacity >= 1 && HasSlot(s, h, BI.Slot(s.ix.headers[h], m))
  {
    assert BI.HeaderShape(s.ix, s.ix.headers[h]);
  }

  /** So no step of the model waits for a pointer to become valid: in every reachable state the accesses above
      are valid when their thread gets to them. */
  lemma AccessesValid<T(!new)>(s: State<T>, t: nat)
    requires Reachable(s) && !s.oc.zeros && t < |s.c|
    ensures Sized(s) && ConsumerAccess(s, t) && ProducerAccess(s)
  {
    ReachableInv(s);
    assert RangeOk(s, t) && HeaderKnows(s, t);
    if s.p.PWrite? { TailNumberLive(s); }
    var c := s.c[t];
    match c
    case CKey(_, _, _, _) => LookupKey(s, t);
    case CValue(_, _, _) => LookupOf(s, t, c.i);
    case CRead(_, _, _, _, _) => ReadFinds(s, t);
    case CEmpty(_, _, _, _, _) => EmptiedSegment(s, t); SlotExists(s, c.h, Num(c.start, s.ix.bs));
    case CClear(_, _, _, _, _) => SlotExists(s, c.h, Num(c.start, s.ix.bs));
    case CFree(_, _, _, _, _) => SlotExists(s, c.h, Num(c.start, s.ix.bs));
    case _ =>
  }
}
