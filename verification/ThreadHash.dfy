/** The hash from thread ids to implicit producers, include/thirdparty/concurrentqueue.h:3055-3194
  (`get_or_add_implicit_producer`), with threads that do not exit and memory that does not run out.

  Each access of shared memory is one step. Thread t has id t; its hashed id is arbitrary. Tables are never
  freed and each one's `prev` is the one before it, so a table is named by its number. `index & (capacity - 1)`
  is a remainder, which PowersOfTwo.MaskIsRemainder shows.
 */
module ThreadHash {
  import Modular
  import Sets

  datatype Option<+T> = None | Some(value: T)

  /** A key of None is `invalid_thread_id`; such a slot is free. */
  datatype Slot = Slot(key: Option<nat>, value: Option<nat>)

  datatype Table = Table(capacity: nat, slots: seq<Slot>)

  /** A call of `get_or_add_implicit_producer`, named by its next access. `main` is the local `mainHash`, k the
      table searched, j how often `index` was advanced, n the `newCount` of the thread. The loop that copies an
      id into the main table and the one that inserts a new id are the same three accesses. */
  datatype Pc =
    | Idle
    | LoadMain
    | Probe(main: nat, k: nat, j: nat)
    | AddCount(main: nat)
    | CheckResize(main: nat, n: nat)
    | Reload(n: nat)
    | ResizeLoad(n: nat)
    | ResizeStore(main: nat, n: nat)
    | Unlock(main: nat, n: nat)
    | Create(main: nat, n: nat)
    | Place(main: nat, v: nat, j: nat)
    | PlaceCas(main: nat, v: nat, j: nat)
    | PlaceValue(main: nat, v: nat, j: nat)
    | Done(v: nat)
  {
    predicate Resizing() { ResizeLoad? || ResizeStore? || Unlock? }
    /** The thread was counted, its id is in no table yet. */
    predicate Counted() { CheckResize? || Reload? || ResizeLoad? || ResizeStore? || Unlock? || Create? }
    predicate Placing() { Place? || PlaceCas? }
    predicate HasMain() {
      Probe? || AddCount? || CheckResize? || ResizeStore? || Unlock? || Create? || Placing() || PlaceValue?
    }
  }

  /** `implicitProducerHash` is the last table and `hash[t]` the hashed id of thread t. `num[t]` is the count
      that thread t was given and `prod[t]` the producer made for it; these two are history. */
  datatype State = State(
    tables: seq<Table>, count: nat, locked: bool, made: nat, hash: seq<nat>, threads: seq<Pc>,
    num: map<nat, nat>, prod: map<nat, nat>)

  ghost predicate Sized(s: State) {
    && |s.tables| > 0 && |s.hash| == |s.threads|
    && forall k | 0 <= k < |s.tables| :: TableSized(s.tables[k])
  }

  /** How many ids a table of this capacity takes. */
  function Room(capacity: nat): nat {
    capacity / 2 + capacity / 4
  }

  /** The slot after j advances. */
  function Position(hash: nat, j: nat, capacity: nat): (p: nat)
    requires capacity >= 1
    ensures p < capacity
  {
    (hash + j) % capacity
  }

  /** The capacity of the next table: doubled until n fits in its first half. */
  function NewCapacity(n: nat, capacity: nat): (c: nat)
    requires capacity >= 1
    ensures c >= capacity && n < c / 2 && (c > capacity ==> c % 2 == 0 && n >= c / 2 / 2)
    decreases 2 * n + 2 - capacity
  {
    if n >= capacity / 2 then NewCapacity(n, capacity * 2) else capacity
  }

  function FreshTable(capacity: nat): Table {
    Table(capacity, seq(capacity, _ => Slot(None, None)))
  }

  ghost function Go(s: State, t: nat, pc: Pc): State
    requires t < |s.threads|
  {
    s.(threads := s.threads[t := pc])
  }

  ghost function SetSlot(s: State, k: nat, p: nat, slot: Slot): State
    requires k < |s.tables| && p < |s.tables[k].slots|
  {
    s.(tables := s.tables[k := s.tables[k].(slots := s.tables[k].slots[p := slot])])
  }

  ghost predicate TableSized(x: Table) {
    x.capacity == |x.slots| >= 1
  }

  ghost function SlotAt(x: Table, hash: nat, j: nat): Slot
    requires TableSized(x)
  {
    x.slots[Position(hash, j, x.capacity)]
  }

  ghost predicate Step(s: State, s': State, t: nat)
    requires Sized(s)
  {
    && t < |s.threads|
    && match s.threads[t]
       case Idle => s' == Go(s, t, LoadMain)
       case Done(_) => s' == Go(s, t, LoadMain)
       case LoadMain => s' == Go(s, t, Probe(|s.tables| - 1, |s.tables| - 1, 0))
       case Probe(main, k, j) =>
         && k < |s.tables|
         && var slot := SlotAt(s.tables[k], s.hash[t], j);
            if slot.key == Some(t) then
              && slot.value.Some?
              && s' == Go(s, t, if k == main then Done(slot.value.value) else Place(main, slot.value.value, 0))
            else if slot.key.Some? then s' == Go(s, t, Probe(main, k, j + 1))
            else s' == Go(s, t, if k > 0 then Probe(main, k - 1, 0) else AddCount(main))
       case AddCount(main) =>
         s' == Go(s, t, CheckResize(main, s.count + 1)).(count := s.count + 1, num := s.num[t := s.count + 1])
       case CheckResize(main, n) =>
         && main < |s.tables|
         && var c := s.tables[main].capacity;
            if n >= c / 2 && !s.locked then s' == Go(s, t, ResizeLoad(n)).(locked := true)
            else s' == Go(s, t, if n < Room(c) then Create(main, n) else Reload(n))
       case Reload(n) => s' == Go(s, t, CheckResize(|s.tables| - 1, n))
       case ResizeLoad(n) => s' == Go(s, t, ResizeStore(|s.tables| - 1, n))
       case ResizeStore(main, n) =>
         && main < |s.tables|
         && s' == Go(s, t, Unlock(|s.tables|, n)).(
                    tables := s.tables + [FreshTable(NewCapacity(n, s.tables[main].capacity * 2))])
       case Unlock(main, n) =>
         && main < |s.tables|
         && s' == Go(s, t, if n < Room(s.tables[main].capacity) then Create(main, n) else Reload(n)).(locked := false)
       case Create(main, n) => s' == Go(s, t, Place(main, s.made, 0)).(made := s.made + 1, prod := s.prod[t := s.made])
       case Place(main, v, j) =>
         && main < |s.tables|
         && s' == Go(s, t, if SlotAt(s.tables[main], s.hash[t], j).key == None then PlaceCas(main, v, j) else Place(main, v, j + 1))
       case PlaceCas(main, v, j) =>
         && main < |s.tables|
         && var slot := SlotAt(s.tables[main], s.hash[t], j);
            if slot.key == None then
              s' == SetSlot(Go(s, t, PlaceValue(main, v, j)), main,
                            Position(s.hash[t], j, s.tables[main].capacity), slot.(key := Some(t)))
            else s' == Go(s, t, Place(main, v, j + 1))
       case PlaceValue(main, v, j) =>
         && main < |s.tables|
         && s' == SetSlot(Go(s, t, Done(v)), main, Position(s.hash[t], j, s.tables[main].capacity),
                          SlotAt(s.tables[main], s.hash[t], j).(value := Some(v)))
  }

  ghost predicate Next(s: State, s': State) {
    Sized(s) && exists t :: Step(s, s', t)
  }

  ghost predicate Init(s: State) {
    && Sized(s) && |s.tables| == 1 && s.tables[0] == FreshTable(s.tables[0].capacity)
    && s.count == 0 && !s.locked && s.num == map[] && s.prod == map[]
    && forall t | 0 <= t < |s.threads| :: s.threads[t] == Idle
  }

  // ---------- the invariant ----------

  /** How far slot p is from where the search for a hashed id starts. */
  function Offset(p: nat, hash: nat, capacity: nat): (j: nat)
    requires capacity >= 1
    ensures j < capacity
  {
    (p - hash) % capacity
  }

  lemma OffsetOf(hash: nat, j: nat, capacity: nat)
    requires j < capacity
    ensures Offset(Position(hash, j, capacity), hash, capacity) == j
  {
    Modular.AddInside(hash + j, 0 - hash as int, capacity);
    Modular.Unique(j, capacity, 0, j);
  }

  lemma PositionOf(p: nat, hash: nat, capacity: nat)
    requires p < capacity
    ensures Position(hash, Offset(p, hash, capacity), capacity) == p
  {
    Modular.AddInside(p - hash, hash, capacity);
    Modular.Unique(p, capacity, 0, p);
    assert hash + Offset(p, hash, capacity) == Offset(p, hash, capacity) + hash;
  }

  /** The first j slots of a search are taken. */
  ghost predicate Passed(x: Table, hash: nat, j: nat)
    requires TableSized(x)
  {
    forall i: nat | i < j :: SlotAt(x, hash, i).key.Some?
  }

  /** None of them is t's own. */
  ghost predicate Missed(x: Table, hash: nat, t: nat, j: nat)
    requires TableSized(x)
  {
    forall i: nat | i < j :: SlotAt(x, hash, i).key != Some(t)
  }

  ghost predicate Absent(x: Table, t: nat) {
    forall p | 0 <= p < |x.slots| :: x.slots[p].key != Some(t)
  }

  ghost predicate AbsentAfter(tables: seq<Table>, k: int, t: nat) {
    forall i | 0 <= i < |tables| && i > k :: Absent(tables[i], t)
  }

  ghost predicate Present(tables: seq<Table>, t: nat) {
    exists k :: 0 <= k < |tables| && !Absent(tables[k], t)
  }

  /** A taken slot: the id is known, was counted low enough for this table, and its search leads here. */
  ghost predicate SlotOk(s: State, k: nat, p: nat)
    requires Sized(s) && k < |s.tables| && p < s.tables[k].capacity
  {
    var slot := s.tables[k].slots[p];
    slot.key.Some? ==>
      var u := slot.key.value;
      && u < |s.threads| && u in s.num && u in s.prod && s.num[u] < Room(s.tables[k].capacity)
      && (slot.value == Some(s.prod[u]) || (s.threads[u].PlaceValue? && s.threads[u].main == k))
      && Passed(s.tables[k], s.hash[u], Offset(p, s.hash[u], s.tables[k].capacity))
  }

  ghost predicate TableOk(s: State, k: nat)
    requires Sized(s) && k < |s.tables|
  {
    var slots := s.tables[k].slots;
    && (forall p | 0 <= p < |slots| :: SlotOk(s, k, p))
    && (forall p, q | 0 <= p < q < |slots| && slots[p].key.Some? :: slots[p].key != slots[q].key)
  }

  ghost predicate ThreadOk(s: State, t: nat)
    requires Sized(s) && t < |s.threads|
  {
    var pc := s.threads[t];
    && (pc.HasMain() ==> pc.main < |s.tables|)
    && (t in s.num && !pc.Counted() && !pc.Placing() ==> Present(s.tables, t))
    && (t in s.prod ==> t in s.num && s.prod[t] < s.made)
    && (pc.Probe? ==> pc.k <= pc.main && AbsentAfter(s.tables, pc.k, t) && Passed(s.tables[pc.k], s.hash[t], pc.j) && Missed(s.tables[pc.k], s.hash[t], t, pc.j))
    && (pc.AddCount? || pc.Counted() ==> AbsentAfter(s.tables, -1, t) && t !in s.prod)
    && (pc.Counted() ==> t in s.num && s.num[t] == pc.n)
    && (pc.Create? || pc.Unlock? ==> pc.n < Room(s.tables[pc.main].capacity))
    && (pc.Placing() || pc.PlaceValue? ==>
          && t in s.num && s.num[t] < Room(s.tables[pc.main].capacity)
          && t in s.prod && pc.v == s.prod[t] && Passed(s.tables[pc.main], s.hash[t], pc.j))
    && (pc.Placing() ==> AbsentAfter(s.tables, pc.main - 1, t))
    && (pc.PlaceValue? ==> SlotAt(s.tables[pc.main], s.hash[t], pc.j).key == Some(t))
    && (pc.ResizeStore? ==> pc.main == |s.tables| - 1)
    && (pc.Done? ==> t in s.prod && pc.v == s.prod[t])
  }

  ghost predicate NumsOk(s: State) {
    && (forall t | t in s.num :: t < |s.threads| && 1 <= s.num[t] <= s.count)
    && (forall t, u | t in s.num && u in s.num && t != u :: s.num[t] != s.num[u])
    && (forall t | t in s.prod :: t < |s.threads| && s.prod[t] < s.made)
    && (forall t, u | t in s.prod && u in s.prod && t != u :: s.prod[t] != s.prod[u])
  }

  ghost predicate LockOk(s: State) {
    && (forall t | 0 <= t < |s.threads| && s.threads[t].Resizing() :: s.locked)
    && (forall t, u | 0 <= t < u < |s.threads| :: !(s.threads[t].Resizing() && s.threads[u].Resizing()))
  }

  ghost predicate Growing(s: State) {
    forall j, k | 0 <= j < k < |s.tables| :: s.tables[j].capacity <= s.tables[k].capacity
  }

  ghost predicate Inv(s: State) {
    && Sized(s) && NumsOk(s) && LockOk(s) && Growing(s)
    && (forall k | 0 <= k < |s.tables| :: TableOk(s, k))
    && (forall t | 0 <= t < |s.threads| :: ThreadOk(s, t))
  }

  // ---------- what a step of one thread leaves alone ----------

  /** A step of t: keys never change, except that free slots may become those of t; new tables are free; the
      other threads stay where they are. */
  ghost predicate Moves(s: State, s': State, t: nat) {
    && Sized(s) && Sized(s') && t < |s.threads|
    && s'.hash == s.hash && |s'.threads| == |s.threads| && s'.threads == s.threads[t := s'.threads[t]]
    && |s.tables| <= |s'.tables|
    && (forall k | 0 <= k < |s.tables| :: KeysKept(s.tables[k], s'.tables[k], t))
    && (forall k | |s.tables| <= k < |s'.tables| :: AllFree(s'.tables[k]))
    && s'.made >= s.made && s'.count >= s.count
    && (forall u | u in s.num :: u in s'.num && s'.num[u] == s.num[u])
    && (forall u | u in s'.num && u != t :: u in s.num)
    && (forall u | u in s.prod :: u in s'.prod && s'.prod[u] == s.prod[u])
    && (forall u | u in s'.prod && u != t :: u in s.prod)
  }

  ghost predicate KeysKept(x: Table, x': Table, t: nat) {
    && x'.capacity == x.capacity && |x'.slots| == |x.slots|
    && forall p | 0 <= p < |x.slots| ::
         x'.slots[p].key == x.slots[p].key || (x.slots[p].key == None && x'.slots[p].key == Some(t))
  }

  ghost predicate AllFree(x: Table) {
    forall p | 0 <= p < |x.slots| :: x.slots[p].key == None
  }

  lemma PassedKept(s: State, s': State, t: nat, k: nat, u: nat, j: nat)
    requires Moves(s, s', t) && k < |s.tables| && u < |s.hash| && Passed(s.tables[k], s.hash[u], j)
    ensures Passed(s'.tables[k], s'.hash[u], j)
  {
    assert KeysKept(s.tables[k], s'.tables[k], t);
    forall i: nat | i < j ensures SlotAt(s'.tables[k], s'.hash[u], i).key.Some? { assert SlotAt(s.tables[k], s.hash[u], i).key.Some?; }
  }

  lemma MissedKept(s: State, s': State, t: nat, k: nat, u: nat, j: nat)
    requires Moves(s, s', t) && k < |s.tables| && u < |s.hash| && u != t && Missed(s.tables[k], s.hash[u], u, j)
    ensures Missed(s'.tables[k], s'.hash[u], u, j)
  {
    assert KeysKept(s.tables[k], s'.tables[k], t);
    forall i: nat | i < j ensures SlotAt(s'.tables[k], s'.hash[u], i).key != Some(u) { assert SlotAt(s.tables[k], s.hash[u], i).key != Some(u); }
  }

  lemma AbsentKept(s: State, s': State, t: nat, k: int, u: nat)
    requires Moves(s, s', t) && u != t && AbsentAfter(s.tables, k, u)
    ensures AbsentAfter(s'.tables, k, u)
  {
    forall i | 0 <= i < |s'.tables| && i > k ensures Absent(s'.tables[i], u) {
      if i < |s.tables| {
        assert Absent(s.tables[i], u) && KeysKept(s.tables[i], s'.tables[i], t);
      } else {
        assert AllFree(s'.tables[i]);
      }
    }
  }

  lemma PresentKept(s: State, s': State, t: nat, u: nat)
    requires Moves(s, s', t) && Present(s.tables, u)
    ensures Present(s'.tables, u)
  {
    var k :| 0 <= k < |s.tables| && !Absent(s.tables[k], u);
    var p :| 0 <= p < |s.tables[k].slots| && s.tables[k].slots[p].key == Some(u);
    assert KeysKept(s.tables[k], s'.tables[k], t);
    assert !Absent(s'.tables[k], u);
  }

  lemma OtherThreadOk(s: State, s': State, t: nat, u: nat)
    requires Moves(s, s', t) && u < |s.threads| && u != t && ThreadOk(s, u)
    requires |s'.tables| == |s.tables| || !s.threads[u].ResizeStore?
    ensures ThreadOk(s', u)
  {
    var pc := s.threads[u];
    assert s'.threads[u] == pc;
    if pc.HasMain() { assert KeysKept(s.tables[pc.main], s'.tables[pc.main], t); }
    if u in s.num && !pc.Counted() && !pc.Placing() { PresentKept(s, s', t, u); }
    if pc.Probe? {
      AbsentKept(s, s', t, pc.k, u);
      PassedKept(s, s', t, pc.k, u, pc.j);
      MissedKept(s, s', t, pc.k, u, pc.j);
    }
    if pc.AddCount? || pc.Counted() { AbsentKept(s, s', t, -1, u); }
    if pc.Placing() { AbsentKept(s, s', t, pc.main - 1, u); }
    if pc.Placing() || pc.PlaceValue? { PassedKept(s, s', t, pc.main, u, pc.j); }
  }

  lemma OtherThreads(s: State, s': State, t: nat)
    requires Inv(s) && Moves(s, s', t) && (|s'.tables| == |s.tables| || s.threads[t].ResizeStore?)
    ensures forall u | 0 <= u < |s.threads| && u != t :: ThreadOk(s', u)
  {
    forall u | 0 <= u < |s.threads| && u != t ensures ThreadOk(s', u) {
      assert ThreadOk(s, u);
      assert t < u || u < t;
      OtherThreadOk(s, s', t, u);
    }
  }

  /** Slots that a step does not write; t was not waiting to write the value of one of them. */
  lemma SlotKept(s: State, s': State, t: nat, k: nat, p: nat)
    requires Moves(s, s', t) && k < |s.tables| && p < s.tables[k].capacity && SlotOk(s, k, p)
    requires s'.tables[k].slots[p] == s.tables[k].slots[p]
    requires !(s.tables[k].slots[p].key == Some(t) && s.threads[t].PlaceValue? && s.threads[t].main == k)
    ensures SlotOk(s', k, p)
  {
    var slot := s.tables[k].slots[p];
    if slot.key.Some? {
      assert slot.key.value != t ==> s'.threads[slot.key.value] == s.threads[slot.key.value];
      PassedKept(s, s', t, k, slot.key.value, Offset(p, s.hash[slot.key.value], s.tables[k].capacity));
    }
  }

  /** Steps that write no slot, or add a free table. */
  lemma TablesKept(s: State, s': State, t: nat)
    requires Inv(s) && Moves(s, s', t) && !s.threads[t].PlaceValue?
    requires forall k | 0 <= k < |s.tables| :: s'.tables[k] == s.tables[k]
    ensures forall k | 0 <= k < |s'.tables| :: TableOk(s', k)
  {
    forall k | 0 <= k < |s'.tables| ensures TableOk(s', k) {
      if k < |s.tables| {
        assert TableOk(s, k);
        forall p | 0 <= p < |s.tables[k].slots| ensures SlotOk(s', k, p) {
          assert SlotOk(s, k, p);
          SlotKept(s, s', t, k, p);
        }
      } else {
        assert AllFree(s'.tables[k]);
      }
    }
  }

  /** A step that writes no slot and adds no table keeps the invariant when its thread is right about itself. */
  lemma LocalStepKeepsInv(s: State, s': State, t: nat)
    requires Inv(s) && Moves(s, s', t) && s'.tables == s.tables && !s.threads[t].PlaceValue?
    requires ThreadOk(s', t) && NumsOk(s') && LockOk(s')
    ensures Inv(s')
  {
    OtherThreads(s, s', t);
    TablesKept(s, s', t);
  }

  // ---------- every step keeps the invariant ----------

  lemma ReadOnlyMoves(s: State, s': State, t: nat)
    requires Sized(s) && t < |s.threads| == |s'.threads|
    requires s' == s.(threads := s.threads[t := s'.threads[t]], locked := s'.locked)
    ensures Moves(s, s', t)
  {
    forall k | 0 <= k < |s.tables| ensures KeysKept(s.tables[k], s'.tables[k], t) {}
  }

  /** The slot with the id of a searching thread. */
  lemma FoundSlot(s: State, t: nat, k: nat, main: nat, j: nat)
    requires Sized(s) && t < |s.threads| && s.threads[t] == Probe(main, k, j) && k <= main < |s.tables|
    requires TableOk(s, k) && Growing(s) && SlotAt(s.tables[k], s.hash[t], j).key == Some(t)
    ensures t in s.num && s.num[t] < Room(s.tables[main].capacity) && t in s.prod
    ensures SlotAt(s.tables[k], s.hash[t], j).value == Some(s.prod[t])
    ensures Present(s.tables, t)
  {
    assert SlotOk(s, k, Position(s.hash[t], j, s.tables[k].capacity));
    assert s.tables[k].capacity <= s.tables[main].capacity;
    assert !Absent(s.tables[k], t);
  }

  /** The id of a searching thread is not in a table in which its search comes to a free slot. */
  lemma NextTable(tables: seq<Table>, k: nat, t: nat)
    requires k < |tables| && AbsentAfter(tables, k, t) && Absent(tables[k], t)
    ensures AbsentAfter(tables, k - 1, t)
  {
  }

  lemma FoundOwn(s: State, s': State, t: nat)
    requires Sized(s) && t < |s.threads| && s.threads[t].Probe? && ThreadOk(s, t) && Step(s, s', t)
    requires TableOk(s, s.threads[t].k) && Growing(s)
    requires SlotAt(s.tables[s.threads[t].k], s.hash[t], s.threads[t].j).key == Some(t)
    ensures ThreadOk(s', t)
  {
    FoundSlot(s, t, s.threads[t].k, s.threads[t].main, s.threads[t].j);
  }

  lemma MissedOwn(s: State, s': State, t: nat)
    requires Sized(s) && t < |s.threads| && s.threads[t].Probe? && ThreadOk(s, t) && Step(s, s', t)
    requires TableOk(s, s.threads[t].k)
    requires SlotAt(s.tables[s.threads[t].k], s.hash[t], s.threads[t].j).key == None
    ensures ThreadOk(s', t)
  {
    NotHere(s, t, s.threads[t].k, s.threads[t].j);
    NextTable(s.tables, s.threads[t].k, t);
  }

  lemma ProbeStepOwn(s: State, s': State, t: nat)
    requires Sized(s) && t < |s.threads| && s.threads[t].Probe? && ThreadOk(s, t) && Step(s, s', t)
    requires TableOk(s, s.threads[t].k) && Growing(s)
    ensures ThreadOk(s', t)
  {
    var key := SlotAt(s.tables[s.threads[t].k], s.hash[t], s.threads[t].j).key;
    if key == Some(t) {
      FoundOwn(s, s', t);
    } else if key == None {
      MissedOwn(s, s', t);
    }
  }

  lemma ProbeChanges(s: State, s': State, t: nat)
    requires Sized(s) && t < |s.threads| && s.threads[t].Probe? && Step(s, s', t)
    ensures |s'.threads| == |s.threads| && s' == s.(threads := s.threads[t := s'.threads[t]])
    ensures !s'.threads[t].Resizing()
  {
  }

  lemma ProbeStepKeepsInv(s: State, s': State, t: nat)
    requires Inv(s) && Step(s, s', t) && s.threads[t].Probe?
    ensures Inv(s')
  {
    assert ThreadOk(s, t) && TableOk(s, s.threads[t].k);
    ProbeStepOwn(s, s', t);
    ProbeChanges(s, s', t);
    ReadOnlyMoves(s, s', t);
    LocalStepKeepsInv(s, s', t);
  }

  /** A search that comes to a free slot has seen every slot the id can have in this table. */
  lemma NotHere(s: State, t: nat, k: nat, j: nat)
    requires Sized(s) && k < |s.tables| && t < |s.hash| && TableOk(s, k)
    requires Passed(s.tables[k], s.hash[t], j) && Missed(s.tables[k], s.hash[t], t, j) && SlotAt(s.tables[k], s.hash[t], j).key == None
    ensures Absent(s.tables[k], t)
  {
    var c := s.tables[k].capacity;
    forall p | 0 <= p < |s.tables[k].slots| ensures s.tables[k].slots[p].key != Some(t) {
      assert SlotOk(s, k, p);
      PositionOf(p, s.hash[t], c);
      var o := Offset(p, s.hash[t], c);
      assert SlotAt(s.tables[k], s.hash[t], o) == s.tables[k].slots[p];
      assert s.tables[k].slots[p].key == Some(t) ==> Passed(s.tables[k], s.hash[t], o);
    }
  }

  lemma AddCountKeepsInv(s: State, s': State, t: nat)
    requires Inv(s) && Step(s, s', t) && s.threads[t].AddCount?
    ensures Inv(s')
  {
    assert ThreadOk(s, t);
    assert !Present(s.tables, t);
    LocalStepKeepsInv(s, s', t);
  }

  lemma CreateKeepsInv(s: State, s': State, t: nat)
    requires Inv(s) && Step(s, s', t) && s.threads[t].Create?
    ensures Inv(s')
  {
    assert ThreadOk(s, t);
    forall u | u in s.prod ensures s.prod[u] < s.made {}
    LocalStepKeepsInv(s, s', t);
  }

  ghost predicate JustMoves(pc: Pc) {
    pc.Idle? || pc.Done? || pc.LoadMain? || pc.CheckResize? || pc.Reload? || pc.ResizeLoad? || pc.Unlock?
  }

  lemma MoveOwn(s: State, s': State, t: nat)
    requires Sized(s) && t < |s.threads| && ThreadOk(s, t) && Step(s, s', t) && JustMoves(s.threads[t])
    ensures ThreadOk(s', t)
  {
  }

  lemma MoveLock(s: State, s': State, t: nat)
    requires Sized(s) && t < |s.threads| && Step(s, s', t) && JustMoves(s.threads[t]) && LockOk(s)
    ensures LockOk(s')
  {
  }

  /** Steps that only move the thread, or take or release the resize lock. */
  lemma MoveKeepsInv(s: State, s': State, t: nat)
    requires Inv(s) && Step(s, s', t) && JustMoves(s.threads[t])
    ensures Inv(s')
  {
    assert ThreadOk(s, t);
    MoveOwn(s, s', t);
    MoveLock(s, s', t);
    ReadOnlyMoves(s, s', t);
    LocalStepKeepsInv(s, s', t);
  }

  lemma PlaceKeepsInv(s: State, s': State, t: nat)
    requires Inv(s) && Step(s, s', t) && (s.threads[t].Place? || (s.threads[t].PlaceCas? && s'.threads[t].Place?))
    ensures Inv(s')
  {
    assert ThreadOk(s, t);
    LocalStepKeepsInv(s, s', t);
  }

  lemma ResizeStoreKeepsInv(s: State, s': State, t: nat)
    requires Inv(s) && Step(s, s', t) && s.threads[t].ResizeStore?
    ensures Inv(s')
  {
    assert ThreadOk(s, t);
    var x := s'.tables[|s.tables|];
    assert AllFree(x) && x.capacity >= s.tables[|s.tables| - 1].capacity;
    assert Moves(s, s', t);
    forall i | 0 <= i < |s'.tables| ensures Absent(s'.tables[i], t) {
      if i < |s.tables| { assert Absent(s.tables[i], t); }
    }
    OtherThreads(s, s', t);
    TablesKept(s, s', t);
  }

  // ---------- a table is never full ----------

  ghost function Tickets(s: State, k: nat, n: nat): set<nat>
    requires Sized(s) && k < |s.tables| && n <= s.tables[k].capacity
    requires forall p | 0 <= p < n :: s.tables[k].slots[p].key.Some? && s.tables[k].slots[p].key.value in s.num
  {
    set p | 0 <= p < n :: s.num[s.tables[k].slots[p].key.value]
  }

  lemma {:induction false} TicketsCount(s: State, k: nat, n: nat)
    requires Sized(s) && NumsOk(s) && k < |s.tables| && TableOk(s, k) && n <= s.tables[k].capacity
    requires forall p | 0 <= p < n :: s.tables[k].slots[p].key.Some? && s.tables[k].slots[p].key.value in s.num
    ensures |Tickets(s, k, n)| == n
  {
    if n > 0 {
      TicketsCount(s, k, n - 1);
      var last := s.num[s.tables[k].slots[n - 1].key.value];
      assert Tickets(s, k, n) == Tickets(s, k, n - 1) + {last} by {
        forall x | x in Tickets(s, k, n) ensures x in Tickets(s, k, n - 1) + {last} {}
      }
      forall p | 0 <= p < n - 1 ensures s.num[s.tables[k].slots[p].key.value] != last {
        assert s.tables[k].slots[p].key != s.tables[k].slots[n - 1].key;
      }
    }
  }

  /** The ids in a table have different counts, all below its room. */
  lemma FullTable(s: State, k: nat)
    requires Sized(s) && NumsOk(s) && k < |s.tables| && TableOk(s, k)
    requires forall p | 0 <= p < s.tables[k].capacity :: s.tables[k].slots[p].key.Some?
    ensures s.tables[k].capacity <= Room(s.tables[k].capacity)
  {
    var c := s.tables[k].capacity;
    forall p | 0 <= p < c
      ensures s.tables[k].slots[p].key.value in s.num && 1 <= s.num[s.tables[k].slots[p].key.value] < Room(c)
    {
      assert SlotOk(s, k, p);
    }
    TicketsCount(s, k, c);
    assert Tickets(s, k, c) <= Sets.Range(1, Room(c));
    Sets.SubsetSize(Tickets(s, k, c), Sets.Range(1, Room(c)));
  }

  lemma HasFreeSlot(s: State, k: nat)
    requires Inv(s) && k < |s.tables|
    ensures exists p :: 0 <= p < s.tables[k].capacity && s.tables[k].slots[p].key == None
  {
    assert TableOk(s, k);
    if forall p | 0 <= p < s.tables[k].capacity :: s.tables[k].slots[p].key.Some? { FullTable(s, k); }
  }

  /** So a search that has only met taken slots has not been all the way round. */
  lemma SearchEnds(s: State, k: nat, t: nat, j: nat)
    requires Inv(s) && k < |s.tables| && t < |s.hash| && Passed(s.tables[k], s.hash[t], j)
    ensures j < s.tables[k].capacity
  {
    HasFreeSlot(s, k);
    var p :| 0 <= p < s.tables[k].capacity && s.tables[k].slots[p].key == None;
    NotPassed(s.tables[k], s.hash[t], j, p);
  }

  lemma NotPassed(x: Table, hash: nat, j: nat, p: nat)
    requires TableSized(x) && Passed(x, hash, j) && p < x.capacity && x.slots[p].key == None
    ensures j <= Offset(p, hash, x.capacity)
  {
    PositionOf(p, hash, x.capacity);
    assert SlotAt(x, hash, Offset(p, hash, x.capacity)) == x.slots[p];
  }

  // ---------- taking a slot ----------

  lemma TakeKeepsTable(s: State, s': State, t: nat, k: nat)
    requires Inv(s) && Step(s, s', t) && s.threads[t].PlaceCas? && s'.threads[t].PlaceValue? && Moves(s, s', t)
    requires k < |s.tables|
    ensures TableOk(s', k)
  {
    var pc := s.threads[t];
    assert ThreadOk(s, t) && TableOk(s, k);
    var c := s.tables[pc.main].capacity;
    var q := Position(s.hash[t], pc.j, c);
    SearchEnds(s, pc.main, t, pc.j);
    OffsetOf(s.hash[t], pc.j, c);
    PassedKept(s, s', t, pc.main, t, pc.j);
    assert Absent(s.tables[pc.main], t);
    forall p | 0 <= p < |s'.tables[k].slots| ensures SlotOk(s', k, p) {
      assert SlotOk(s, k, p);
      if k != pc.main || p != q { SlotKept(s, s', t, k, p); }
    }
  }

  lemma TakeOwn(s: State, s': State, t: nat)
    requires Sized(s) && t < |s.threads| && ThreadOk(s, t) && Step(s, s', t)
    requires s.threads[t].PlaceCas? && s'.threads[t].PlaceValue?
    ensures Moves(s, s', t) && ThreadOk(s', t)
  {
    var pc := s.threads[t];
    assert Moves(s, s', t);
    PassedKept(s, s', t, pc.main, t, pc.j);
    assert SlotAt(s'.tables[pc.main], s'.hash[t], pc.j).key == Some(t);
    assert !Absent(s'.tables[pc.main], t);
  }

  lemma TakeKeepsInv(s: State, s': State, t: nat)
    requires Inv(s) && Step(s, s', t) && s.threads[t].PlaceCas? && s'.threads[t].PlaceValue?
    ensures Inv(s')
  {
    assert ThreadOk(s, t);
    TakeOwn(s, s', t);
    OtherThreads(s, s', t);
    forall k | 0 <= k < |s'.tables| ensures TableOk(s', k) { TakeKeepsTable(s, s', t, k); }
  }

  lemma ValueKeepsTable(s: State, s': State, t: nat, k: nat)
    requires Inv(s) && Step(s, s', t) && s.threads[t].PlaceValue? && Moves(s, s', t) && k < |s.tables|
    ensures TableOk(s', k)
  {
    var pc := s.threads[t];
    assert ThreadOk(s, t) && TableOk(s, k);
    var q := Position(s.hash[t], pc.j, s.tables[pc.main].capacity);
    forall p | 0 <= p < |s'.tables[k].slots| ensures SlotOk(s', k, p) {
      assert SlotOk(s, k, p);
      if k != pc.main || p != q {
        assert k == pc.main ==> p < q || q < p;
        SlotKept(s, s', t, k, p);
      } else {
        PassedKept(s, s', t, k, t, Offset(p, s.hash[t], s.tables[k].capacity));
      }
    }
  }

  lemma ValueKeepsInv(s: State, s': State, t: nat)
    requires Inv(s) && Step(s, s', t) && s.threads[t].PlaceValue?
    ensures Inv(s')
  {
    assert ThreadOk(s, t);
    assert Moves(s, s', t);
    OtherThreads(s, s', t);
    PresentKept(s, s', t, t);
    forall k | 0 <= k < |s'.tables| ensures TableOk(s', k) { ValueKeepsTable(s, s', t, k); }
  }

  lemma StepKeepsInv(s: State, s': State, t: nat)
    requires Inv(s) && Step(s, s', t)
    ensures Inv(s')
  {
    match s.threads[t]
    case Probe(_, _, _) => ProbeStepKeepsInv(s, s', t);
    case AddCount(_) => AddCountKeepsInv(s, s', t);
    case ResizeStore(_, _) => ResizeStoreKeepsInv(s, s', t);
    case Create(_, _) => CreateKeepsInv(s, s', t);
    case Place(_, _, _) => PlaceKeepsInv(s, s', t);
    case PlaceCas(_, _, _) => if s'.threads[t].Place? { PlaceKeepsInv(s, s', t); } else { TakeKeepsInv(s, s', t); }
    case PlaceValue(_, _, _) => ValueKeepsInv(s, s', t);
    case _ => MoveKeepsInv(s, s', t);
  }

  lemma InitInv(s: State)
    requires Init(s)
    ensures Inv(s)
  {
  }

  // ---------- whole runs ----------

  ghost predicate Run(run: seq<State>) {
    |run| > 0 && forall i | 0 <= i < |run| :: Follows(run, i)
  }

  /** The first state is an initial one, every other is one step after the one before. */
  ghost predicate Follows(run: seq<State>, i: nat)
    requires i < |run|
  {
    if i == 0 then Init(run[0]) else Next(run[i - 1], run[i])
  }

  lemma {:induction false} RunInv(run: seq<State>, i: nat)
    requires Run(run) && i < |run|
    ensures Inv(run[i])
  {
    assert Follows(run, i);
    if i == 0 {
      InitInv(run[0]);
    } else {
      RunInv(run, i - 1);
      var t :| Step(run[i - 1], run[i], t);
      StepKeepsInv(run[i - 1], run[i], t);
    }
  }

  /** A producer once made for a thread stays its producer. */
  lemma {:induction false} ProducerStays(run: seq<State>, i: nat, j: nat, t: nat)
    requires Run(run) && i <= j < |run| && t in run[i].prod
    ensures t in run[j].prod && run[j].prod[t] == run[i].prod[t]
  {
    if i < j {
      ProducerStays(run, i, j - 1, t);
      RunInv(run, j - 1);
      assert Follows(run, j);
      NextKeepsProducers(run[j - 1], run[j], t);
    }
  }

  lemma NextKeepsProducers(s: State, s': State, t: nat)
    requires Inv(s) && Next(s, s') && t in s.prod
    ensures t in s'.prod && s'.prod[t] == s.prod[t]
  {
    var u :| Step(s, s', u);
    assert ThreadOk(s, u);
    StepKeepsProducers(s, s', u, t);
  }

  lemma StepKeepsProducers(s: State, s': State, u: nat, t: nat)
    requires Sized(s) && u < |s.threads| && ThreadOk(s, u) && Step(s, s', u) && t in s.prod
    ensures t in s'.prod && s'.prod[t] == s.prod[t]
  {
  }

  // ---------- main results ----------

  /** Whatever calls run in between, a thread's calls always return the same producer, and never that of
      another thread. */
  lemma OneProducerPerThread(run: seq<State>, i: nat, j: nat, t: nat, u: nat)
    requires Run(run) && i <= j < |run| && t < |run[i].threads| && u < |run[j].threads|
    requires run[i].threads[t].Done? && run[j].threads[u].Done?
    ensures run[i].threads[t].v == run[j].threads[u].v <==> t == u
  {
    RunInv(run, i);
    RunInv(run, j);
    assert ThreadOk(run[i], t) && ThreadOk(run[j], u);
    ProducerStays(run, i, j, t);
  }

  /** Every table keeps a free slot, through inserts, copies and resizes. */
  lemma TablesNeverFull(run: seq<State>, i: nat, k: nat)
    requires Run(run) && i < |run| && k < |run[i].tables|
    ensures exists p :: 0 <= p < |run[i].tables[k].slots| && run[i].tables[k].slots[p].key == None
  {
    RunInv(run, i);
    HasFreeSlot(run[i], k);
  }

  /** No probing loop goes once round its table: the loops marked "not an infinite loop" in the source end. */
  lemma ProbingTerminates(run: seq<State>, i: nat, t: nat)
    requires Run(run) && i < |run| && t < |run[i].threads|
    ensures var s, pc := run[i], run[i].threads[t];
            && (pc.Probe? ==> pc.k < |s.tables| && pc.j < s.tables[pc.k].capacity)
            && (pc.Placing() ==> pc.main < |s.tables| && pc.j < s.tables[pc.main].capacity)
  {
    RunInv(run, i);
    var s, pc := run[i], run[i].threads[t];
    assert ThreadOk(s, t);
    if pc.Probe? { SearchEnds(s, pc.k, t, pc.j); }
    if pc.Placing() { SearchEnds(s, pc.main, t, pc.j); }
  }

  /** A search that finds its id finds a value with it. */
  lemma FoundHasValue(run: seq<State>, i: nat, t: nat)
    requires Run(run) && i < |run| && t < |run[i].threads| && run[i].threads[t].Probe?
    ensures Sized(run[i]) && run[i].threads[t].k < |run[i].tables|
    ensures var s, pc := run[i], run[i].threads[t];
            SlotAt(s.tables[pc.k], s.hash[t], pc.j).key == Some(t) ==> t in s.prod && SlotAt(s.tables[pc.k], s.hash[t], pc.j).value == Some(s.prod[t])
  {
    RunInv(run, i);
    var s, pc := run[i], run[i].threads[t];
    assert ThreadOk(s, t) && TableOk(s, pc.k);
    assert SlotOk(s, pc.k, Position(s.hash[t], pc.j, s.tables[pc.k].capacity));
  }

  /** A thread that has just made a new table always finds room in it. */
  lemma ResizeMakesRoom(run: seq<State>, i: nat, t: nat)
    requires Run(run) && i < |run| && t < |run[i].threads| && run[i].threads[t].Unlock?
    ensures run[i].threads[t].main < |run[i].tables|
    ensures run[i].threads[t].n < Room(run[i].tables[run[i].threads[t].main].capacity)
  {
    RunInv(run, i);
    assert ThreadOk(run[i], t);
  }

  /** When a thread resizes, waits or goes on, in literal numbers: below half of the capacity it goes on; from there on
      it resizes if no other thread does, and otherwise goes on up to three quarters and waits beyond. */
  lemma ResizeOrWait(s: State, s': State, t: nat)
    requires Sized(s) && Step(s, s', t) && s.threads[t].CheckResize? && s.threads[t].main < |s.tables|
    requires s.tables[s.threads[t].main].capacity % 4 == 0
    ensures var n, c, pc' := s.threads[t].n, s.tables[s.threads[t].main].capacity, s'.threads[t];
            if 2 * n < c then pc'.Create?
            else if !s.locked then pc'.ResizeLoad? && s'.locked
            else if 4 * n < 3 * c then pc'.Create?
            else pc'.Reload?
  {
  }

  /** Every thread can take its next step. */
  lemma NeverStuck(run: seq<State>, i: nat, t: nat) returns (s': State)
    requires Run(run) && i < |run| && t < |run[i].threads|
    ensures Sized(run[i]) && Step(run[i], s', t)
  {
    RunInv(run, i);
    var s := run[i];
    assert ThreadOk(s, t);
    if s.threads[t].Probe? { FoundHasValue(run, i, t); }
    if s.threads[t].HasMain() || s.threads[t].Probe? { s' := TablesOn(s, t); } else { s' := CallsOn(s, t); }
  }

  lemma CallsOn(s: State, t: nat) returns (s': State)
    requires Sized(s) && t < |s.threads| && !s.threads[t].HasMain() && !s.threads[t].Probe?
    ensures Step(s, s', t)
  {
    match s.threads[t]
    case Idle => s' := Go(s, t, LoadMain);
    case Done(_) => s' := Go(s, t, LoadMain);
    case LoadMain => s' := Go(s, t, Probe(|s.tables| - 1, |s.tables| - 1, 0));
    case Reload(n) => s' := Go(s, t, CheckResize(|s.tables| - 1, n));
    case ResizeLoad(n) => s' := Go(s, t, ResizeStore(|s.tables| - 1, n));
  }

  lemma TablesOn(s: State, t: nat) returns (s': State)
    requires Sized(s) && t < |s.threads| && (s.threads[t].HasMain() || s.threads[t].Probe?)
    requires s.threads[t].HasMain() ==> s.threads[t].main < |s.tables|
    requires s.threads[t].Probe? ==> s.threads[t].k < |s.tables|
    requires s.threads[t].Probe? ==> var slot := SlotAt(s.tables[s.threads[t].k], s.hash[t], s.threads[t].j);
               slot.key == Some(t) ==> slot.value.Some?
    ensures Step(s, s', t)
  {
    match s.threads[t]
    case Probe(main, k, j) =>
      var slot := SlotAt(s.tables[k], s.hash[t], j);
      s' := Go(s, t, if slot.key == Some(t) then
                       if k == main then Done(slot.value.value) else Place(main, slot.value.value, 0)
                     else if slot.key.Some? then Probe(main, k, j + 1)
                     else if k > 0 then Probe(main, k - 1, 0) else AddCount(main));
    case AddCount(main) =>
      s' := Go(s, t, CheckResize(main, s.count + 1)).(count := s.count + 1, num := s.num[t := s.count + 1]);
    case CheckResize(main, n) =>
      var c := s.tables[main].capacity;
      s' := if n >= c / 2 && !s.locked then Go(s, t, ResizeLoad(n)).(locked := true)
            else Go(s, t, if n < Room(c) then Create(main, n) else Reload(n));
    case ResizeStore(main, n) =>
      s' := Go(s, t, Unlock(|s.tables|, n)).(
              tables := s.tables + [FreshTable(NewCapacity(n, s.tables[main].capacity * 2))]);
    case Unlock(main, n) =>
      s' := Go(s, t, if n < Room(s.tables[main].capacity) then Create(main, n) else Reload(n)).(locked := false);
    case Create(main, n) => s' := Go(s, t, Place(main, s.made, 0)).(made := s.made + 1, prod := s.prod[t := s.made]);
    case Place(main, v, j) =>
      s' := Go(s, t, if SlotAt(s.tables[main], s.hash[t], j).key == None then PlaceCas(main, v, j)
                     else Place(main, v, j + 1));
    case PlaceCas(main, v, j) =>
      var slot := SlotAt(s.tables[main], s.hash[t], j);
      s' := if slot.key == None then
              SetSlot(Go(s, t, PlaceValue(main, v, j)), main, Position(s.hash[t], j, s.tables[main].capacity),
                      slot.(key := Some(t)))
            else Go(s, t, Place(main, v, j + 1));
    case PlaceValue(main, v, j) =>
      s' := SetSlot(Go(s, t, Done(v)), main, Position(s.hash[t], j, s.tables[main].capacity),
                    SlotAt(s.tables[main], s.hash[t], j).(value := Some(v)));
  }

  // ---------- a call that nothing interrupts ----------

  ghost predicate Reachable(s: State) {
    exists run: seq<State> :: Run(run) && run[|run| - 1] == s
  }

  lemma ReachableInv(s: State)
    requires Reachable(s)
    ensures Inv(s)
  {
    var run: seq<State> :| Run(run) && run[|run| - 1] == s;
    RunInv(run, |run| - 1);
  }

  ghost predicate StepsAt(path: seq<State>, i: nat, t: nat)
    requires i + 1 < |path|
  {
    Sized(path[i]) && Step(path[i], path[i + 1], t)
  }

  /** Only thread t steps. */
  ghost predicate Alone(path: seq<State>, t: nat) {
    |path| > 0 && forall i | 0 <= i < |path| - 1 :: StepsAt(path, i, t)
  }

  /** Where a call stands: each part comes after those with higher numbers. */
  function Part(pc: Pc): nat {
    match pc
    case LoadMain => 12
    case Probe(_, _, _) => 11
    case AddCount(_) => 10
    case CheckResize(_, _) => 9
    case ResizeLoad(_) => 8
    case ResizeStore(_, _) => 7
    case Unlock(_, _) => 6
    case Create(_, _) => 5
    case Place(_, _, _) => 4
    case PlaceCas(_, _, _) => 4
    case PlaceValue(_, _, _) => 3
    case Reload(_) => 2
    case _ => 0
  }

  /** The table that is searched. */
  ghost function Searched(s: State, t: nat): nat
    requires t < |s.threads|
  {
    if s.threads[t].Probe? then s.threads[t].k else 0
  }

  /** How many accesses the search of this table can still take. */
  ghost function Slots(s: State, t: nat): int
    requires t < |s.threads|
  {
    match s.threads[t]
    case Probe(_, k, j) => if k < |s.tables| then s.tables[k].capacity - j else 0
    case Place(main, _, j) => if main < |s.tables| then 2 * (s.tables[main].capacity - j) else 0
    case PlaceCas(main, _, j) => if main < |s.tables| then 2 * (s.tables[main].capacity - j) - 1 else 0
    case _ => 0
  }

  /** Nobody else is resizing, so the call does not wait. */
  ghost predicate Free(s: State, t: nat) {
    && t < |s.threads| && !s.threads[t].Reload?
    && (Part(s.threads[t]) >= 9 ==> !s.locked)
  }

  ghost predicate Nearer(s: State, s': State, t: nat)
    requires t < |s.threads| && t < |s'.threads|
  {
    || Part(s'.threads[t]) < Part(s.threads[t])
    || (Part(s'.threads[t]) == Part(s.threads[t])
        && (Searched(s', t) < Searched(s, t) || (Searched(s', t) == Searched(s, t) && 0 <= Slots(s', t) < Slots(s, t))))
  }

  /** The search has not been round its table. */
  ghost predicate Inside(s: State, t: nat) {
    t < |s.threads| && Slots(s, t) >= 0
  }

  lemma SearchInside(s: State, t: nat)
    requires Inv(s) && t < |s.threads|
    ensures Inside(s, t)
  {
    var pc := s.threads[t];
    assert ThreadOk(s, t);
    if pc.Probe? { SearchEnds(s, pc.k, t, pc.j); }
    if pc.Placing() { SearchEnds(s, pc.main, t, pc.j); }
  }

  lemma NearerAlone(s: State, s': State, t: nat)
    requires Sized(s) && Free(s, t) && Step(s, s', t) && Part(s.threads[t]) > 0 && Inside(s', t)
    requires s.threads[t].Unlock? ==> s.threads[t].main < |s.tables| && s.threads[t].n < Room(s.tables[s.threads[t].main].capacity)
    ensures Free(s', t) && Nearer(s, s', t)
  {
    if s.threads[t].Probe? || s.threads[t].Placing() {
      NearerSearching(s, s', t);
    } else {
      NearerElse(s, s', t);
    }
  }

  lemma NearerSearching(s: State, s': State, t: nat)
    requires Sized(s) && Free(s, t) && Step(s, s', t) && (s.threads[t].Probe? || s.threads[t].Placing()) && Inside(s', t)
    ensures Free(s', t) && Nearer(s, s', t)
  {
  }

  lemma NearerElse(s: State, s': State, t: nat)
    requires Sized(s) && Free(s, t) && Step(s, s', t) && Part(s.threads[t]) > 0
    requires !s.threads[t].Probe? && !s.threads[t].Placing()
    requires s.threads[t].Unlock? ==> s.threads[t].main < |s.tables| && s.threads[t].n < Room(s.tables[s.threads[t].main].capacity)
    ensures Free(s', t) && Part(s'.threads[t]) < Part(s.threads[t])
  {
  }

  lemma StepNearer(s: State, s': State, t: nat)
    requires Inv(s) && Free(s, t) && Step(s, s', t) && Part(s.threads[t]) > 0
    ensures Inv(s') && Free(s', t) && Nearer(s, s', t)
  {
    assert ThreadOk(s, t);
    StepKeepsInv(s, s', t);
    SearchInside(s', t);
    NearerAlone(s, s', t);
  }

  /** A call that nothing interrupts, begun while nobody is resizing, ends: with the thread's producer if it has one,
      and with a new one if it has none. */
  lemma LoneCall(s: State, t: nat) returns (path: seq<State>)
    requires Reachable(s) && !s.locked && t < |s.threads| && (s.threads[t].Idle? || s.threads[t].Done?)
    ensures Alone(path, t) && path[0] == s
    ensures var s' := path[|path| - 1];
            && t < |s'.threads| && t in s'.prod && s'.threads[t] == Done(s'.prod[t])
            && s'.prod[t] == if t in s.prod then s.prod[t] else s.made
  {
    ReachableInv(s);
    var last := Go(s, t, LoadMain);
    StepKeepsInv(s, last, t);
    path := [s, last];
    assert StepsAt(path, 0, t);
    while Part(last.threads[t]) > 0
      invariant Alone(path, t) && path[0] == s && path[|path| - 1] == last
      invariant Inv(last) && Free(last, t) && Inside(last, t) && Same(s, last, t)
      decreases Part(last.threads[t]), Searched(last, t), Slots(last, t)
    {
      var next := StepOn(last, t);
      StepNearer(last, next, t);
      StepSame(s, last, next, t);
      SearchInside(next, t);
      path := Longer(path, next, t);
      last := next;
    }
    assert ThreadOk(last, t);
  }

  /** The call makes a producer only for a thread without one. */
  ghost predicate Same(a: State, s: State, t: nat) {
    && t < |s.threads| && !s.threads[t].Idle?
    && if t in s.prod then s.prod[t] == (if t in a.prod then a.prod[t] else a.made) else t !in a.prod && s.made == a.made
  }

  lemma StepSame(a: State, s: State, s': State, t: nat)
    requires Sized(s) && Same(a, s, t) && ThreadOk(s, t) && Step(s, s', t)
    ensures Same(a, s', t)
  {
    if !s.threads[t].Create? { MakesNone(s, s', t); }
  }

  lemma MakesNone(s: State, s': State, t: nat)
    requires Sized(s) && Step(s, s', t) && !s.threads[t].Create?
    ensures s'.prod == s.prod && s'.made == s.made && t < |s'.threads| && !s'.threads[t].Idle?
  {
  }

  lemma StepOn(s: State, t: nat) returns (s': State)
    requires Inv(s) && t < |s.threads|
    ensures Step(s, s', t)
  {
    assert ThreadOk(s, t);
    var pc := s.threads[t];
    if pc.Probe? {
      assert TableOk(s, pc.k);
      assert SlotOk(s, pc.k, Position(s.hash[t], pc.j, s.tables[pc.k].capacity));
    }
    if pc.HasMain() { s' := TablesOn(s, t); } else { s' := CallsOn(s, t); }
  }

  lemma Longer(path: seq<State>, next: State, t: nat) returns (path': seq<State>)
    requires Alone(path, t) && Sized(path[|path| - 1]) && Step(path[|path| - 1], next, t)
    ensures path' == path + [next] && Alone(path', t)
  {
    path' := path + [next];
    forall i | 0 <= i < |path'| - 1 ensures StepsAt(path', i, t) {
      assert i < |path| - 1 ==> StepsAt(path, i, t);
    }
  }
}
