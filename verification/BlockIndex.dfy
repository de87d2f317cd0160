/** The growing circular block index of an implicit producer, include/thirdparty/concurrentqueue.h:2589-2708.

  The producer's blocks are numbered 0, 1, 2, ... in the order it needs them; block m holds the indices from
  m * bs on. An entry maps such a base to a block. Headers are never freed: a consumer may go on using an
  old one while the producer fills a new one, and the entries are shared between them. `i & (capacity - 1)`
  is `i % capacity`, also for the negative offsets of a lookup.
 */
module BlockIndex {
  import Modular

  datatype Option<+T> = None | Some(value: T)

  /** A key of None is INVALID_BLOCK_BASE, a number no block base equals. */
  datatype Entry = Entry(key: Option<int>, value: Option<nat>)

  /** `index` names entries. `off` and `last` are history: number m has its slot at (m + off) % capacity, and
      `last` is the number at `tail`, or was when the header was replaced. */
  datatype Header = Header(capacity: nat, tail: nat, index: seq<nat>, off: int, last: int)

  /** The last header is the one `blockIndex` points to. `ent` maps the numbers low to hi, whose keys are in
      place, to their entries; these three are history. */
  datatype Index = Index(
    bs: nat, entries: seq<Entry>, headers: seq<Header>, low: int, hi: int, ent: map<int, nat>)

  function Cur(x: Index): Header
    requires |x.headers| > 0
  {
    x.headers[|x.headers| - 1]
  }

  /** The highest number that can be looked up through header j. */
  function Top(x: Index, j: nat): int
    requires j < |x.headers|
  {
    if j == |x.headers| - 1 then x.hi else x.headers[j].last
  }

  ghost predicate HeaderShape(x: Index, h: Header) {
    && h.capacity >= 1 && |h.index| == h.capacity
    && (forall i | 0 <= i < h.capacity :: h.index[i] < |x.entries|)
    && (forall i, j | 0 <= i < j < h.capacity :: h.index[i] != h.index[j])
    && h.tail == (h.last + h.off) % h.capacity
  }

  function Slot(h: Header, m: int): nat
    requires h.capacity >= 1
  {
    (m + h.off) % h.capacity
  }

  /** Header h finds every number from low to top. */
  ghost predicate Finds(x: Index, h: Header, top: int)
    requires HeaderShape(x, h)
  {
    forall m | x.low <= m <= top :: top - m < h.capacity && m in x.ent && h.index[Slot(h, m)] == x.ent[m]
  }

  ghost predicate KeysOk(x: Index) {
    && (forall m | x.low <= m <= x.hi ::
          m in x.ent && x.ent[m] < |x.entries| && x.entries[x.ent[m]].key == Some(m * x.bs))
    && (forall m, n | x.low <= m < n <= x.hi :: x.ent[m] != x.ent[n])
  }

  /** The slots of the current header that no number uses have never been used. */
  ghost predicate RestFresh(x: Index)
    requires |x.headers| > 0 && HeaderShape(x, Cur(x))
  {
    var h := Cur(x);
    forall m | x.hi - h.capacity < m < x.low :: x.entries[h.index[Slot(h, m)]].key == None
  }

  ghost predicate Inv(x: Index) {
    && x.bs >= 2 && |x.headers| > 0
    && -1 <= Cur(x).last <= x.hi <= Cur(x).last + 1
    && 0 <= x.low <= x.hi + 1 && (x.hi >= 0 ==> x.low <= x.hi)
    && KeysOk(x)
    && (forall j | 0 <= j < |x.headers| ::
          HeaderShape(x, x.headers[j]) && x.headers[j].last <= x.hi && Finds(x, x.headers[j], Top(x, j)))
    && RestFresh(x)
  }

  /** The first header, all of whose entries are invalid; their values are not initialised. */
  ghost predicate Init(x: Index) {
    && x.bs >= 2 && x.low == 0 && x.hi == -1 && x.ent == map[]
    && (forall e | 0 <= e < |x.entries| :: x.entries[e].key == None)
    && |x.headers| == 1
    && var h := Cur(x);
       h.capacity == |x.entries| >= 1 && h == Header(h.capacity, h.capacity - 1, seq(h.capacity, i => i), 0, -1)
  }

  lemma InitInv(x: Index)
    requires Init(x)
    ensures Inv(x)
  {
    var h := Cur(x);
    Modular.Unique(-1, h.capacity, -1, h.capacity - 1);
  }

  // ---------- what the producer does ----------

  /** The slot after the tail, where the next block goes. */
  function NextSlot(x: Index): nat
    requires |x.headers| > 0 && Cur(x).capacity >= 1
  {
    (Cur(x).tail + 1) % Cur(x).capacity
  }

  function NextEntry(x: Index): nat
    requires |x.headers| > 0 && Cur(x).capacity == |Cur(x).index| >= 1
  {
    Cur(x).index[NextSlot(x)]
  }

  predicate CanReuse(x: Index)
    requires |x.headers| > 0 && Cur(x).capacity == |Cur(x).index| >= 1 && NextEntry(x) < |x.entries|
  {
    x.entries[NextEntry(x)].key == None || x.entries[NextEntry(x)].value == None
  }

  function Max(a: int, b: int): int { if a < b then b else a }

  /** `idxEntry->key.store(blockStartIndex)` for the number after `last`. */
  ghost function StoreKey(x: Index): Index
    requires |x.headers| > 0 && Cur(x).capacity == |Cur(x).index| >= 1 && NextEntry(x) < |x.entries|
  {
    var n, e := Cur(x).last + 1, NextEntry(x);
    x.(entries := x.entries[e := x.entries[e].(key := Some(n * x.bs))],
       hi := n, ent := x.ent[n := e], low := Max(x.low, n - Cur(x).capacity + 1))
  }

  /** `localBlockIndex->tail.store(newTail)`. */
  ghost function AdvanceTail(x: Index): Index
    requires |x.headers| > 0 && Cur(x).capacity >= 1
  {
    x.(headers := x.headers[|x.headers| - 1 := Cur(x).(tail := NextSlot(x), last := Cur(x).last + 1)])
  }

  /** `rewind_block_index_tail`. */
  ghost function RewindTail(x: Index): Index
    requires |x.headers| > 0 && Cur(x).capacity >= 1
  {
    x.(headers := x.headers[|x.headers| - 1 :=
                    Cur(x).(tail := (Cur(x).tail - 1) % Cur(x).capacity, last := Cur(x).last - 1)])
  }

  /** `value.store(v)` in entry e. */
  ghost function SetValue(x: Index, e: nat, v: Option<nat>): Index
    requires e < |x.entries|
  {
    x.(entries := x.entries[e := x.entries[e].(value := v)])
  }

  ghost function WithTail(x: Index, last: int): Index
    requires |x.headers| > 0 && Cur(x).capacity >= 1
  {
    var h := Cur(x);
    x.(headers := x.headers[|x.headers| - 1 := h.(tail := (last + h.off) % h.capacity, last := last)])
  }

  /** The slot after the tail is the slot of the next number, and of the one a round earlier. */
  lemma NextSlotIs(h: Header)
    requires h.capacity >= 1 && h.tail == (h.last + h.off) % h.capacity
    ensures (h.tail + 1) % h.capacity == Slot(h, h.last + 1) == Slot(h, h.last + 1 - h.capacity)
  {
    var n := h.last + 1;
    Modular.AddInside(h.last + h.off, 1, h.capacity);
    Modular.AddMultiple(n - h.capacity + h.off, h.capacity, 1);
  }

  /** The current header on its own. */
  ghost predicate CurOk(x: Index) {
    && |x.headers| > 0 && HeaderShape(x, Cur(x)) && Finds(x, Cur(x), x.hi) && RestFresh(x)
    && Cur(x).last <= x.hi <= Cur(x).last + 1 && x.low <= x.hi + 1
  }

  lemma InvCur(x: Index)
    requires Inv(x)
    ensures CurOk(x)
  {
    assert HeaderShape(x, Cur(x)) && Finds(x, Cur(x), Top(x, |x.headers| - 1));
  }

  lemma NextSlotOf(x: Index)
    requires CurOk(x)
    ensures 0 <= NextSlot(x) < Cur(x).capacity
    ensures NextSlot(x) == Slot(Cur(x), Cur(x).last + 1) == Slot(Cur(x), Cur(x).last + 1 - Cur(x).capacity)
  {
    NextSlotIs(Cur(x));
  }

  /** The entry after the tail is that of a number whose insertion was undone ... */
  lemma NextEntryUndone(x: Index)
    requires CurOk(x) && x.low <= x.hi == Cur(x).last + 1
    ensures x.hi in x.ent && NextEntry(x) == x.ent[x.hi]
  {
    NextSlotOf(x);
  }

  /** ... or that of the oldest number when every slot is in use ... */
  lemma NextEntryOldest(x: Index)
    requires CurOk(x) && x.hi == Cur(x).last && x.hi + 1 - Cur(x).capacity >= x.low
    ensures x.hi + 1 - Cur(x).capacity == x.low <= x.hi && x.low in x.ent && NextEntry(x) == x.ent[x.low]
  {
    NextSlotOf(x);
    assert x.low in x.ent;
  }

  /** ... or one never used. */
  lemma NextEntryFresh(x: Index)
    requires CurOk(x) && x.hi == Cur(x).last && x.hi + 1 - Cur(x).capacity < x.low
    ensures NextEntry(x) < |x.entries| && x.entries[NextEntry(x)].key == None
  {
    NextSlotOf(x);
  }

  /** Two numbers less than a round apart have different slots. */
  lemma SlotsDiffer(h: Header, m: int, n: int)
    requires h.capacity >= 1 && m != n && -(h.capacity as int) < m - n < h.capacity
    ensures Slot(h, m) != Slot(h, n)
  {
    if Slot(h, m) == Slot(h, n) { Modular.Distinct(m + h.off, n + h.off, h.capacity); }
  }

  /** Headers of which only the entries, `low` and `ent` change. */
  lemma FindsKept(x: Index, x': Index, j: nat)
    requires j < |x.headers| && HeaderShape(x, x.headers[j]) && Finds(x, x.headers[j], x.headers[j].last)
    requires x'.headers == x.headers && |x'.entries| == |x.entries| && x'.low >= x.low
    requires x.headers[j].last <= x.hi && forall m | x.low <= m <= x.hi && m in x.ent :: m in x'.ent && x'.ent[m] == x.ent[m]
    ensures HeaderShape(x', x.headers[j]) && Finds(x', x.headers[j], x.headers[j].last)
  {
  }

  lemma StoreKeyKeepsInv(x: Index)
    requires Inv(x) && CurOk(x) && NextEntry(x) < |x.entries| && CanReuse(x)
    ensures Inv(StoreKey(x)) && StoreKey(x).hi == Cur(x).last + 1
    ensures StoreKey(x).low > x.low ==>
              x.low <= x.hi && StoreKey(x).low == x.low + 1 && x.entries[x.ent[x.low]].value == None
  {
    var n := Cur(x).last + 1;
    if x.hi == n {
      NextEntryUndone(x);
      assert x.low <= n <= x.hi;
      assert x.entries[x.ent[n]].key == Some(n * x.bs);
      assert StoreKey(x) == x;
    } else if n - Cur(x).capacity >= x.low {
      NextEntryOldest(x);
      assert x.entries[x.ent[x.low]].key == Some(x.low * x.bs);
      StoreKeyOldest(x, StoreKey(x));
    } else {
      NextEntryFresh(x);
      StoreKeyFresh(x, StoreKey(x));
    }
  }

  /** Every header still finds its numbers when a number joins them, or replaces the oldest. */
  lemma StoreKeyFinds(x: Index, x': Index)
    requires Inv(x) && CurOk(x) && x.hi == Cur(x).last && NextEntry(x) < |x.entries| && x' == StoreKey(x)
    requires x'.low >= x.low
    requires x.hi + 1 - Cur(x).capacity < x'.low
    ensures forall j | 0 <= j < |x'.headers| ::
              HeaderShape(x', x'.headers[j]) && x'.headers[j].last <= x'.hi && Finds(x', x'.headers[j], Top(x', j))
  {
    NextSlotOf(x);
    forall j | 0 <= j < |x'.headers|
      ensures HeaderShape(x', x'.headers[j]) && x'.headers[j].last <= x'.hi && Finds(x', x'.headers[j], Top(x', j))
    {
      assert HeaderShape(x, x.headers[j]) && x.headers[j].last <= x.hi && Finds(x, x.headers[j], Top(x, j));
      FindsKept(x, x', j);
    }
  }

  lemma StoreKeyOldest(x: Index, x': Index)
    requires Inv(x) && CurOk(x) && x.hi == Cur(x).last && x.hi + 1 - Cur(x).capacity == x.low <= x.hi
    requires x.low in x.ent && NextEntry(x) == x.ent[x.low] < |x.entries| && x' == StoreKey(x)
    ensures Inv(x')
  {
    assert x'.low == x.low + 1;
    OldestKeepsKeys(x, x');
    StoreKeyFinds(x, x');
    assert HeaderShape(x', Cur(x'));
    assert RestFresh(x');
  }

  lemma OldestKeepsKeys(x: Index, x': Index)
    requires KeysOk(x) && CurOk(x) && x.hi == Cur(x).last && x.low <= x.hi && NextEntry(x) < |x.entries|
    requires NextEntry(x) == x.ent[x.low] && x' == StoreKey(x) && x'.low == x.low + 1
    ensures KeysOk(x')
  {
  }

  lemma StoreKeyFresh(x: Index, x': Index)
    requires Inv(x) && CurOk(x) && x.hi == Cur(x).last && x.hi + 1 - Cur(x).capacity < x.low
    requires NextEntry(x) < |x.entries| && x.entries[NextEntry(x)].key == None && x' == StoreKey(x)
    ensures Inv(x')
  {
    assert x'.low == x.low;
    FreshKeepsKeys(x, x');
    StoreKeyFinds(x, x');
    FreshKeepsRest(x, x');
  }

  lemma FreshKeepsKeys(x: Index, x': Index)
    requires KeysOk(x) && CurOk(x) && x.hi == Cur(x).last && NextEntry(x) < |x.entries|
    requires x.entries[NextEntry(x)].key == None
    requires x' == x.(entries := x'.entries, hi := x.hi + 1, ent := x.ent[x.hi + 1 := NextEntry(x)])
    requires x'.entries == x.entries[NextEntry(x) := Entry(Some((x.hi + 1) * x.bs), x.entries[NextEntry(x)].value)]
    ensures KeysOk(x')
  {
  }

  lemma FreshKeepsRest(x: Index, x': Index)
    requires CurOk(x) && x.hi == Cur(x).last && NextEntry(x) < |x.entries| && x'.headers == x.headers
    requires x'.hi == x.hi + 1 && x'.low == x.low && |x'.entries| == |x.entries|
    requires forall e | 0 <= e < |x.entries| && e != NextEntry(x) :: x'.entries[e] == x.entries[e]
    ensures RestFresh(x')
  {
    var h, n := Cur(x), x.hi + 1;
    NextSlotOf(x);
    forall m | x'.hi - h.capacity < m < x'.low ensures x'.entries[h.index[Slot(h, m)]].key == None {
      SlotsDiffer(h, m, n - h.capacity);
      assert x.entries[h.index[Slot(h, m)]].key == None;
    }
  }

  /** The inserted number becomes the last one. */
  lemma StoreTailKeepsInv(x: Index)
    requires Inv(x) && CurOk(x) && x.hi == Cur(x).last + 1
    ensures Inv(AdvanceTail(x))
  {
    NextSlotOf(x);
    assert AdvanceTail(x) == WithTail(x, x.hi);
    TailKeepsInv(x, x.hi);
  }

  /** The last number is taken back. */
  lemma RewindKeepsInv(x: Index)
    requires Inv(x) && CurOk(x) && x.hi == Cur(x).last >= 0
    ensures Inv(RewindTail(x))
  {
    var h := Cur(x);
    Modular.AddInside(h.last + h.off, -1, h.capacity);
    TailKeepsInv(x, x.hi - 1);
    assert RewindTail(x) == WithTail(x, x.hi - 1);
  }

  /** A header of which at most the tail changes, in an index that keeps its numbers. */
  lemma FindsSame(x: Index, x': Index, h: Header, h': Header, top: int)
    requires HeaderShape(x, h) && Finds(x, h, top)
    requires h' == h.(tail := h'.tail, last := h'.last) && h'.tail == (h'.last + h'.off) % h'.capacity
    requires |x'.entries| >= |x.entries| && x'.low == x.low && x'.ent == x.ent
    ensures HeaderShape(x', h') && Finds(x', h', top)
  {
    forall m | x'.low <= m <= top
      ensures top - m < h'.capacity && m in x'.ent && h'.index[Slot(h', m)] == x'.ent[m]
    {
      assert h.index[Slot(h, m)] == x.ent[m];
    }
  }

  lemma TailKeepsInv(x: Index, last: int)
    requires Inv(x) && CurOk(x) && -1 <= last <= x.hi <= last + 1
    ensures Inv(WithTail(x, last))
  {
    var x' := WithTail(x, last);
    var c := |x.headers| - 1;
    forall j | 0 <= j < |x'.headers|
      ensures HeaderShape(x', x'.headers[j]) && x'.headers[j].last <= x'.hi && Finds(x', x'.headers[j], Top(x', j))
    {
      assert j != c ==> x'.headers[j] == x.headers[j];
      assert HeaderShape(x, x.headers[j]) && Finds(x, x.headers[j], Top(x, j));
      FindsSame(x, x', x.headers[j], x'.headers[j], Top(x, j));
    }
    RestFreshSame(x, x');
  }

  lemma RestFreshSame(x: Index, x': Index)
    requires CurOk(x) && |x'.headers| > 0 && HeaderShape(x', Cur(x')) && x'.hi == x.hi && x'.low == x.low
    requires Cur(x') == Cur(x).(tail := Cur(x').tail, last := Cur(x').last)
    requires |x'.entries| == |x.entries| && forall e | 0 <= e < |x.entries| :: x'.entries[e].key == x.entries[e].key
    ensures RestFresh(x')
  {
    forall m | x'.hi - Cur(x').capacity < m < x'.low
      ensures x'.entries[Cur(x').index[Slot(Cur(x'), m)]].key == None
    {
      assert x.entries[Cur(x).index[Slot(Cur(x), m)]].key == None;
    }
  }

  /** Values do not concern the index. */
  lemma SetValueKeepsInv(x: Index, e: nat, v: Option<nat>)
    requires Inv(x) && CurOk(x) && e < |x.entries|
    ensures Inv(SetValue(x, e, v))
  {
    var x' := SetValue(x, e, v);
    forall j | 0 <= j < |x'.headers|
      ensures HeaderShape(x', x'.headers[j]) && x'.headers[j].last <= x'.hi && Finds(x', x'.headers[j], Top(x', j))
    {
      assert HeaderShape(x, x.headers[j]) && Finds(x, x.headers[j], Top(x, j));
      FindsSame(x, x', x.headers[j], x'.headers[j], Top(x, j));
    }
    RestFreshSame(x, x');
  }

  // ---------- a larger header ----------

  /** `new_block_index` after a previous header: twice the slots, the old entries in the order of their
      numbers, then as many new ones that are invalid. */
  ghost predicate Grows(x: Index, x': Index) {
    && |x.headers| > 0
    && var h := Cur(x);
    && h.capacity >= 1 && |h.index| == h.capacity && h.tail < h.capacity
    && |x'.entries| == |x.entries| + h.capacity && x'.entries[..|x.entries|] == x.entries
    && (forall e | |x.entries| <= e < |x'.entries| :: x'.entries[e].key == None)
    && |x'.headers| == |x.headers| + 1 && x'.headers[..|x.headers|] == x.headers
    && x' == x.(entries := x'.entries, headers := x'.headers)
    && var g := Cur(x');
    && g.capacity == 2 * h.capacity && g.tail == h.capacity - 1
    && g.last == h.last && g.off == h.capacity - 1 - h.last
    && |g.index| == g.capacity
    && (forall i | 0 <= i < h.capacity :: g.index[i] == h.index[(h.tail + 1 + i) % h.capacity])
    && (forall i | h.capacity <= i < g.capacity :: g.index[i] == |x.entries| + (i - h.capacity))
  }

  lemma StepBack(a: int, c: int, d: int)
    requires c > 0
    ensures (a % c + (c - d)) % c == (a - d) % c
  {
    Modular.AddInside(a, c - d, c);
    assert a + (c - d) == a - d + c * 1;
    Modular.AddMultiple(a - d, c, 1);
  }

  lemma HalfSlots(c: int, d: int)
    requires 0 <= d < 2 * c
    ensures d < c ==> (c - 1 - d) % (2 * c) == c - 1 - d
    ensures d >= c ==> (c - 1 - d) % (2 * c) == 3 * c - 1 - d
  {
    if d < c {
      Modular.Unique(c - 1 - d, 2 * c, 0, c - 1 - d);
    } else {
      Modular.Unique(c - 1 - d, 2 * c, -1, 3 * c - 1 - d);
    }
  }

  /** Where a slot of the new header comes from: that of the d-th number before the last one. */
  lemma GrownSlot(h: Header, g: Header, d: nat)
    requires h.capacity >= 1 && h.tail == (h.last + h.off) % h.capacity
    requires g.capacity == 2 * h.capacity && g.off == h.capacity - 1 - h.last && d < g.capacity
    ensures Slot(g, h.last - d) == (if d < h.capacity then h.capacity - 1 - d else 3 * h.capacity - 1 - d)
    ensures (h.tail + (h.capacity - d)) % h.capacity == Slot(h, h.last - d)
  {
    StepBack(h.last + h.off, h.capacity, d);
    HalfSlots(h.capacity, d);
    assert h.last + h.off - d == h.last - d + h.off;
    assert h.last - d + g.off == h.capacity - 1 - d;
  }

  /** A number the old header could still find has its old entry in the new one. */
  lemma GrownEntry(x: Index, x': Index, m: int)
    requires CurOk(x) && Grows(x, x') && Cur(x).last - Cur(x).capacity < m <= Cur(x).last
    ensures Slot(Cur(x'), m) < |Cur(x').index|
    ensures Cur(x').index[Slot(Cur(x'), m)] == Cur(x).index[Slot(Cur(x), m)]
  {
    var h, d := Cur(x), Cur(x).last - m;
    GrownSlot(h, Cur(x'), d);
    assert h.tail + 1 + (h.capacity - 1 - d) == h.tail + (h.capacity - d);
  }

  lemma {:induction false} RotationDistinct(h: Header, i: nat, j: nat)
    requires h.capacity >= 1 && |h.index| == h.capacity && i < j < h.capacity
    requires forall a, b | 0 <= a < b < h.capacity :: h.index[a] != h.index[b]
    ensures h.index[(h.tail + 1 + i) % h.capacity] != h.index[(h.tail + 1 + j) % h.capacity]
  {
    var a, b := (h.tail + 1 + i) % h.capacity, (h.tail + 1 + j) % h.capacity;
    if a == b { Modular.Distinct(h.tail + 1 + i, h.tail + 1 + j, h.capacity); }
    assert a < b || b < a;
  }

  lemma GrownShape(x: Index, x': Index)
    requires CurOk(x) && Grows(x, x')
    ensures HeaderShape(x', Cur(x'))
  {
    var h, g := Cur(x), Cur(x');
    forall i | 0 <= i < g.capacity ensures g.index[i] < |x'.entries| {
    }
    forall i, j | 0 <= i < j < g.capacity ensures g.index[i] != g.index[j] {
      if j < h.capacity {
        RotationDistinct(h, i, j);
      } else if i < h.capacity {
        assert h.index[(h.tail + 1 + i) % h.capacity] < |x.entries|;
      }
    }
    Modular.Unique(h.capacity - 1, g.capacity, 0, h.capacity - 1);
  }

  lemma GrownFinds(x: Index, x': Index)
    requires CurOk(x) && x.hi == Cur(x).last && Grows(x, x') && HeaderShape(x', Cur(x'))
    ensures Finds(x', Cur(x'), x'.hi)
  {
    forall m | x'.low <= m <= x'.hi
      ensures x'.hi - m < Cur(x').capacity && m in x'.ent && Cur(x').index[Slot(Cur(x'), m)] == x'.ent[m]
    {
      assert Cur(x).index[Slot(Cur(x), m)] == x.ent[m];
      GrownEntry(x, x', m);
    }
  }

  lemma GrownFresh(x: Index, x': Index)
    requires CurOk(x) && x.hi == Cur(x).last && Grows(x, x') && HeaderShape(x', Cur(x'))
    ensures RestFresh(x')
  {
    var h, g := Cur(x), Cur(x');
    forall m | x'.hi - g.capacity < m < x'.low ensures x'.entries[g.index[Slot(g, m)]].key == None {
      if m > h.last {
      } else if h.last - m < h.capacity {
        assert x.entries[h.index[Slot(h, m)]].key == None;
        GrownEntry(x, x', m);
        assert x'.entries[..|x.entries|][h.index[Slot(h, m)]] == x.entries[h.index[Slot(h, m)]];
      } else {
        GrownSlot(h, g, h.last - m);
      }
    }
  }

  lemma GrowKeepsInv(x: Index, x': Index)
    requires Inv(x) && CurOk(x) && x.hi == Cur(x).last && Grows(x, x')
    ensures Inv(x')
  {
    GrownShape(x, x');
    GrownFinds(x, x');
    GrownFresh(x, x');
    GrownKeys(x, x');
    forall j | 0 <= j < |x'.headers|
      ensures HeaderShape(x', x'.headers[j]) && x'.headers[j].last <= x'.hi && Finds(x', x'.headers[j], Top(x', j))
    {
      if j < |x.headers| {
        assert x'.headers[j] == x.headers[j];
        assert HeaderShape(x, x.headers[j]) && Finds(x, x.headers[j], Top(x, j));
        assert Top(x', j) == Top(x, j);
        FindsSame(x, x', x.headers[j], x'.headers[j], Top(x, j));
      }
    }
  }

  lemma GrownKeys(x: Index, x': Index)
    requires KeysOk(x) && Grows(x, x')
    ensures KeysOk(x')
  {
    forall m | x'.low <= m <= x'.hi
      ensures m in x'.ent && x'.ent[m] < |x'.entries| && x'.entries[x'.ent[m]].key == Some(m * x'.bs)
    {
      var e := x.ent[m];
      assert x'.entries[..|x.entries|][e] == x'.entries[e];
      assert x.entries[e].key == Some(m * x.bs);
    }
  }

  /** The slot after the tail of a new header has never been used, as the source asserts at line 2629. */
  lemma GrownSlotFresh(x: Index, x': Index)
    requires Inv(x) && CurOk(x) && x.hi == Cur(x).last && Grows(x, x') && CurOk(x')
    ensures NextEntry(x') < |x'.entries| && x'.entries[NextEntry(x')].key == None
  {
    if x.low <= x.hi { assert Cur(x).index[Slot(Cur(x), x.low)] == x.ent[x.low]; }
    NextEntryFresh(x');
  }

  // ---------- lookup ----------

  /** `get_block_index_index_for_index` for a block number m, after the header, its tail and the key at that
      tail were read one after the other: whichever header and tail that was, as long as m and the number n
      at that tail are still in place, the entry found is the one of m. */
  lemma LookupFinds(x: Index, j: nat, n: int, m: int, pos: nat)
    requires Inv(x) && j < |x.headers| && x.low <= m <= n <= Top(x, j) && pos == Slot(x.headers[j], n)
    ensures var h := x.headers[j];
            && pos < |h.index| && h.index[pos] < |x.entries|
            && x.entries[h.index[pos]].key == Some(n * x.bs)
            && (m * x.bs - n * x.bs) / x.bs == m - n
            && (pos + (m - n)) % h.capacity == Slot(h, m)
            && m in x.ent && h.index[Slot(h, m)] == x.ent[m] < |x.entries|
            && x.entries[x.ent[m]].key == Some(m * x.bs)
  {
    var h := x.headers[j];
    assert HeaderShape(x, h) && Finds(x, h, Top(x, j));
    assert h.index[Slot(h, n)] == x.ent[n] && h.index[Slot(h, m)] == x.ent[m];
    Modular.AddInside(n + h.off, m - n, h.capacity);
    assert n + h.off + (m - n) == m + h.off;
    assert m * x.bs - n * x.bs == x.bs * (m - n) + 0;
    Modular.Unique(m * x.bs - n * x.bs, x.bs, m - n, 0);
  }
}
