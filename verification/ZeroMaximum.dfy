/** A bulk dequeue with a maximum of 0 (include/thirdparty/concurrentqueue.h:972-982 and 2487-2587): it claims no
  index, but looks a block up and counts no element in it. Two runs of ImplicitProducer show what that breaks, and
  so the results there hold if and only if no caller asks for 0 elements.

  Both runs have one producer, blocks of two elements, an index of two entries, and two consumers: 0 asks for two
  elements, 1 for none.
 */
module ZeroMaximum {
  import opened ImplicitProducer
  import OC = Overcommit
  import BI = BlockIndex
  import Sets

  lemma ByStep<T(!new)>(s: State<T>, s': State<T>)
    requires Reachable(s) && Next(s, s')
    ensures Reachable(s')
  {
    var run: seq<State<T>> :| Run(run) && run[|run| - 1] == s;
    var run' := run + [s'];
    assert run'[|run| - 1] == s && run'[|run|] == s';
    forall i | 0 <= i < |run'| ensures Follows(run', i) {
      if i < |run| { assert Follows(run, i); }
    }
    assert Run(run') && run'[|run'| - 1] == s';
  }

  lemma ByConsumer<T(!new)>(s: State<T>, s': State<T>, t: nat)
    requires Reachable(s) && Sized(s) && ConsumerStep(s, s', t)
    ensures Reachable(s')
  {
    ByStep(s, s');
  }

  lemma ByClaim<T(!new)>(s: State<T>, s': State<T>, t: nat)
    requires Reachable(s) && Sized(s) && ClaimStep(s, s', t)
    ensures Reachable(s')
  {
    ByStep(s, s');
  }

  lemma ByProducer<T(!new)>(s: State<T>, s': State<T>)
    requires Reachable(s) && Sized(s) && ProducerStep(s, s')
    ensures Reachable(s')
  {
    ByStep(s, s');
  }

  // ---------- two elements are enqueued ----------

  ghost function FirstIndex(): BI.Index {
    BI.Index(2, [BI.Entry(BI.None, BI.None), BI.Entry(BI.None, BI.None)], [BI.Header(2, 1, [0, 1], 0, -1)], 0, -1, map[])
  }

  /** The index with block 0 under number 0. */
  ghost function OneBlock(value: BI.Option<nat>): BI.Index {
    BI.Index(2, [BI.Entry(BI.Some(0), value), BI.Entry(BI.None, BI.None)], [BI.Header(2, 0, [0, 1], 0, 0)], 0, 0,
             map[0 := 0])
  }

  ghost function Start<T>(): State<T> {
    State(OC.State(0, 0, 0, 0, [OC.Idle, OC.Idle], [], [], true), FirstIndex(), [], {}, 0, PIdle, [CNone, CNone],
          [], [], {}, {}, {}, map[])
  }

  lemma StartReachable<T(!new)>()
    ensures Reachable(Start<T>()) && Sized(Start<T>())
  {
    var s := Start<T>();
    assert seq(2, i => i) == [0, 1];
    assert BI.Init(s.ix) && OC.Init(s.oc) && Init(s);
    var run := [s];
    assert Follows(run, 0);
    assert Run(run) && run[|run| - 1] == s;
  }

  /** v was enqueued twice; what the consumers have done so far is given. */
  ghost function Filled<T>(v: T, oc: OC.State, value: BI.Option<nat>, done: nat, free: set<nat>, c: seq<Consumer>,
                           emptied: set<nat>, cleared: set<nat>, freed: set<nat>, taken: map<nat, T>): State<T> {
    State(oc, OneBlock(value), [Block(done, [v, v])], free, 0, PDone(true), c, [v, v], [0], emptied, cleared, freed, taken)
  }

  lemma StoresKey<T(!new)>(v: T) returns (s: State<T>)
    ensures Reachable(s) && s == Start<T>().(ix := OneBlock(BI.None), p := PRequisition(v, 0))
  {
    StartReachable<T>();
    var s0 := Start<T>();
    var s1 := s0.(p := PCheckHead(v));
    assert EnqueueCall(s0, s1, v);
    ByStep(s0, s1);
    var s2 := s1.(p := PCheckEntry(v));
    ByProducer(s1, s2);
    var s3 := s2.(p := PStoreKey(v));
    ByProducer(s2, s3);
    var s4 := s3.(ix := BI.StoreKey(s3.ix), p := PStoreTail(v, 0));
    ByProducer(s3, s4);
    s := s4.(ix := BI.AdvanceTail(s4.ix), p := PRequisition(v, 0));
    ByProducer(s4, s);
    assert s.ix == OneBlock(BI.None);
  }

  lemma InsertsBlock<T(!new)>(v: T) returns (s: State<T>)
    ensures Reachable(s)
    ensures s == Start<T>().(ix := OneBlock(BI.Some(0)), blocks := [Block(0, [v, v])], blk := [0], p := PWrite(v))
  {
    var s0 := StoresKey(v);
    var s1 := s0.(blocks := [Block(0, [v, v])], p := PStoreValue(v, 0, 0));
    assert Requisition(s0, s1, 0);
    ByProducer(s0, s1);
    s := s1.(ix := BI.SetValue(s1.ix, 0, BI.Some(0)), blk := [0], p := PWrite(v));
    assert s.ix == OneBlock(BI.Some(0));
    ByProducer(s1, s);
  }

  lemma WritesOne<T(!new)>(v: T, i: nat, s: State<T>) returns (s': State<T>)
    requires Reachable(s) && Sized(s) && s.p == PWrite(v) && s.blocks == [Block(0, [v, v])] && s.tailBlock == 0
    requires s.ix.bs == 2 && s.oc.tail == i < 2
    ensures Reachable(s') && s' == s.(oc := s.oc.(tail := i + 1), elems := s.elems + [v], p := PDone(true))
  {
    var s1 := s.(p := PPublish(v));
    assert [v, v][i := v] == [v, v];
    assert s.blocks[0 := Block(0, [v, v])] == s.blocks;
    ByProducer(s, s1);
    s' := s1.(oc := s.oc.(tail := i + 1), elems := s.elems + [v], p := PDone(true));
    ByProducer(s1, s');
  }

  lemma Enqueues<T(!new)>(v: T) returns (s: State<T>)
    ensures Reachable(s)
    ensures s == Filled(v, OC.State(2, 0, 0, 0, [OC.Idle, OC.Idle], [], [], true), BI.Some(0), 0, {}, [CNone, CNone],
                        {}, {}, {}, map[])
  {
    var s0 := InsertsBlock(v);
    var s1 := WritesOne(v, 0, s0);
    var s2 := s1.(p := PWrite(v));
    assert EnqueueCall(s1, s2, v);
    ByStep(s1, s2);
    s := WritesOne(v, 1, s2);
    assert s.elems == [v, v];
  }

  // ---------- consumer 1 asks for nothing ----------

  const NOTHING: OC.Ticket := OC.Ticket(0, 0, 0, 2, 0, 0, 0)

  ghost function Asked<T>(v: T): State<T> {
    Filled(v, OC.State(2, 0, 0, 0, [OC.Idle, OC.AddHead(0, 0)], [NOTHING], [], true), BI.Some(0), 0, {},
           [CNone, CNone], {}, {}, {}, map[])
  }

  /** It sees elements, asks for 0 of them, sees elements again and is granted 0. */
  lemma AsksForNone<T(!new)>(v: T)
    ensures Reachable(Asked(v))
  {
    var s0 := Enqueues(v);
    var s1 := s0.(oc := s0.oc.(threads := [OC.Idle, OC.LoadOver(0, 2)]));
    assert OC.Call(s0.oc, s1.oc, 1, 0);
    ByClaim(s0, s1, 1);
    var s2 := s1.(oc := s1.oc.(threads := [OC.Idle, OC.LoadOpt(0, 2, 0)]));
    ByClaim(s1, s2, 1);
    GrantedNone(v, s2);
  }

  lemma GrantedNone<T(!new)>(v: T, s2: State<T>)
    requires Reachable(s2)
    requires s2 == Filled(v, OC.State(2, 0, 0, 0, [OC.Idle, OC.LoadOpt(0, 2, 0)], [], [], true), BI.Some(0), 0, {},
                          [CNone, CNone], {}, {}, {}, map[])
    ensures Reachable(Asked(v))
  {
    var s3 := s2.(oc := s2.oc.(threads := [OC.Idle, OC.AddOpt(0, 0)]));
    ByClaim(s2, s3, 1);
    var s4 := s3.(oc := s3.oc.(threads := [OC.Idle, OC.LoadTail(0)], log := [OC.Ticket(0, 0, 0, 0, 0, 0, 0)]));
    ByClaim(s3, s4, 1);
    assert [OC.Ticket(0, 0, 0, 0, 0, 0, 0)][0 := NOTHING] == [NOTHING];
    ByClaim(s4, Asked(v), 1);
  }

  /** Consumer 1 claims no index from the head on and is about to look up the block of the head. */
  ghost function LooksUp<T>(v: T): State<T> {
    Filled(v, OC.State(2, 0, 0, 0, [OC.Idle, OC.Claimed(0, 0)], [NOTHING], [], true), BI.Some(0), 0, {},
           [CNone, CHeader(0)], {}, {}, {}, map[])
  }

  ghost function CountsNone<T>(v: T): State<T> {
    LooksUp(v).(c := [CNone, CEmpty(0, 0, 0, 0, 0)])
  }

  lemma FindsBlock<T(!new)>(v: T)
    ensures Reachable(CountsNone(v))
  {
    AsksForNone(v);
    var s0 := LooksUp(v);
    assert [NOTHING][0 := NOTHING] == [NOTHING];
    ByClaim(Asked(v), s0, 1);
    var s1 := s0.(c := [CNone, CTail(0, 0)]);
    ByConsumer(s0, s1, 1);
    var s2 := s1.(c := [CNone, CKey(0, 0, 0, 0)]);
    ByConsumer(s1, s2, 1);
    LooksUpFirst(v, s2);
  }

  lemma LooksUpFirst<T(!new)>(v: T, s2: State<T>)
    requires Reachable(s2) && s2 == LooksUp(v).(c := [CNone, CKey(0, 0, 0, 0)])
    ensures Reachable(CountsNone(v))
  {
    var s3 := s2.(c := [CNone, CValue(0, 0, 0)]);
    ByConsumer(s2, s3, 1);
    ByConsumer(s3, CountsNone(v), 1);
  }

  // ---------- consumer 0 takes both elements ----------

  const BOTH: OC.Ticket := OC.Ticket(0, 2, 0, 2, 2, 0, 2)

  /** Consumer 0 has claimed both indices; consumer 1 is where it is. */
  ghost function ClaimedBoth<T>(v: T, pc: OC.Pc, c: Consumer): State<T> {
    Filled(v, OC.State(2, 2, 2, 0, [OC.Claimed(0, 2), pc], [NOTHING, BOTH], [0, 0], true), BI.Some(0), 0, {},
           [CHeader(0), c], {}, {}, {}, map[])
  }

  lemma ClaimsBoth<T(!new)>(v: T, s: State<T>, pc: OC.Pc, c: Consumer)
    requires Reachable(s)
    requires s == Filled(v, OC.State(2, 0, 0, 0, [OC.Idle, pc], [NOTHING], [], true), BI.Some(0), 0, {}, [CNone, c],
                         {}, {}, {}, map[])
    ensures Reachable(ClaimedBoth(v, pc, c))
  {
    var s1 := s.(oc := s.oc.(threads := [OC.LoadOver(2, 2), pc]));
    assert OC.Call(s.oc, s1.oc, 0, 2);
    ByClaim(s, s1, 0);
    var s2 := s1.(oc := s1.oc.(threads := [OC.LoadOpt(2, 2, 0), pc]));
    ByClaim(s1, s2, 0);
    GrantedBoth(v, s2, pc, c);
  }

  lemma GrantedBoth<T(!new)>(v: T, s2: State<T>, pc: OC.Pc, c: Consumer)
    requires Reachable(s2)
    requires s2 == Filled(v, OC.State(2, 0, 0, 0, [OC.LoadOpt(2, 2, 0), pc], [NOTHING], [], true), BI.Some(0), 0, {},
                          [CNone, c], {}, {}, {}, map[])
    ensures Reachable(ClaimedBoth(v, pc, c))
  {
    var s3 := s2.(oc := s2.oc.(threads := [OC.AddOpt(2, 0), pc]));
    ByClaim(s2, s3, 0);
    var x := OC.Ticket(0, 2, 0, 0, 0, 0, 0);
    var s4 := s3.(oc := s3.oc.(opt := 2, threads := [OC.LoadTail(1), pc], log := [NOTHING, x]));
    ByClaim(s3, s4, 0);
    TakesBoth(v, s4, pc, c);
  }

  lemma TakesBoth<T(!new)>(v: T, s4: State<T>, pc: OC.Pc, c: Consumer)
    requires Reachable(s4)
    requires s4 == Filled(v, OC.State(2, 0, 2, 0, [OC.LoadTail(1), pc], [NOTHING, OC.Ticket(0, 2, 0, 0, 0, 0, 0)], [], true),
                          BI.Some(0), 0, {}, [CNone, c], {}, {}, {}, map[])
    ensures Reachable(ClaimedBoth(v, pc, c))
  {
    var x := OC.Ticket(0, 2, 0, 0, 0, 0, 0);
    var s5 := s4.(oc := s4.oc.(threads := [OC.AddHead(1, 2), pc], log := [NOTHING, x.(seen := 2, got := 2)]));
    ByClaim(s4, s5, 0);
    MovesHead(v, s5, pc, c);
  }

  lemma MovesHead<T(!new)>(v: T, s5: State<T>, pc: OC.Pc, c: Consumer)
    requires Reachable(s5)
    requires s5 == Filled(v, OC.State(2, 0, 2, 0, [OC.AddHead(1, 2), pc], [NOTHING, OC.Ticket(0, 2, 0, 2, 2, 0, 0)], [], true),
                          BI.Some(0), 0, {}, [CNone, c], {}, {}, {}, map[])
    ensures Reachable(ClaimedBoth(v, pc, c))
  {
    HeadOfTwo(pc);
    ByClaim(s5, ClaimedBoth(v, pc, c), 0);
  }

  lemma HeadOfTwo(pc: OC.Pc)
    ensures OC.ClaimStep(OC.State(2, 0, 2, 0, [OC.AddHead(1, 2), pc], [NOTHING, OC.Ticket(0, 2, 0, 2, 2, 0, 0)], [], true),
                         OC.State(2, 2, 2, 0, [OC.Claimed(0, 2), pc], [NOTHING, BOTH], [0, 0], true), 0)
  {
    assert [] + seq(2, _ => 0) == [0, 0];
  }

  /** Consumer 0 has read and counted both elements and is about to return their block; consumer 1 is about to
      count none. */
  ghost function Counted<T>(v: T): State<T> {
    Filled(v, OC.State(2, 2, 2, 0, [OC.Claimed(0, 2), OC.Claimed(0, 0)], [NOTHING, BOTH], [0, 0], true), BI.Some(0), 2, {},
           [CClear(2, 0, 0, 0, 0), CEmpty(0, 0, 0, 0, 0)], {0, 1}, {}, {}, map[0 := v, 1 := v])
  }

  lemma CountsBoth<T(!new)>(v: T)
    ensures Reachable(Counted(v))
  {
    FindsBlock(v);
    var z := CEmpty(0, 0, 0, 0, 0);
    ClaimsBoth(v, CountsNone(v), OC.Claimed(0, 0), z);
    var s0 := ClaimedBoth(v, OC.Claimed(0, 0), z);
    ByConsumer(s0, s0.(c := [CTail(0, 0), z]), 0);
    BothLookUp(v, s0.(c := [CTail(0, 0), z]));
  }

  /** Consumer 0 looks its block up. */
  lemma BothLookUp<T(!new)>(v: T, s1: State<T>)
    requires Reachable(s1)
    requires s1 == ClaimedBoth(v, OC.Claimed(0, 0), CEmpty(0, 0, 0, 0, 0)).(c := [CTail(0, 0), CEmpty(0, 0, 0, 0, 0)])
    ensures Reachable(Counted(v))
  {
    var z := CEmpty(0, 0, 0, 0, 0);
    var s2 := s1.(c := [CKey(0, 0, 0, 0), z]);
    ByConsumer(s1, s2, 0);
    var s3 := s2.(c := [CValue(0, 0, 0), z]);
    ByConsumer(s2, s3, 0);
    ReadsBoth(v, s3);
  }

  lemma ReadsBoth<T(!new)>(v: T, s3: State<T>)
    requires Reachable(s3)
    requires s3 == ClaimedBoth(v, OC.Claimed(0, 0), CEmpty(0, 0, 0, 0, 0)).(
                     c := [CValue(0, 0, 0), CEmpty(0, 0, 0, 0, 0)])
    ensures Reachable(Counted(v))
  {
    var z := CEmpty(0, 0, 0, 0, 0);
    var s4 := s3.(c := [CRead(0, 0, 0, 0, 0), z]);
    ByConsumer(s3, s4, 0);
    var s5 := s4.(c := [CRead(1, 0, 0, 0, 0), z], taken := map[0 := v]);
    ByConsumer(s4, s5, 0);
    ReadsSecond(v, s5);
  }

  lemma ReadsSecond<T(!new)>(v: T, s5: State<T>)
    requires Reachable(s5)
    requires s5 == ClaimedBoth(v, OC.Claimed(0, 0), CEmpty(0, 0, 0, 0, 0)).(
                     c := [CRead(1, 0, 0, 0, 0), CEmpty(0, 0, 0, 0, 0)], taken := map[0 := v])
    ensures Reachable(Counted(v))
  {
    var z := CEmpty(0, 0, 0, 0, 0);
    var s6 := s5.(c := [CEmpty(2, 0, 0, 0, 0), z], taken := map[0 := v, 1 := v]);
    ByConsumer(s5, s6, 0);
    CountsTwo(v, s6);
  }

  lemma CountsTwo<T(!new)>(v: T, s6: State<T>)
    requires Reachable(s6)
    requires s6 == ClaimedBoth(v, OC.Claimed(0, 0), CEmpty(0, 0, 0, 0, 0)).(
                     c := [CEmpty(2, 0, 0, 0, 0), CEmpty(0, 0, 0, 0, 0)], taken := map[0 := v, 1 := v])
    ensures Reachable(Counted(v))
  {
    assert Sets.Range(0, 2) == {0, 1};
    ByConsumer(s6, Counted(v), 0);
  }

  /** Consumer 0 has returned the block, and consumer 1 is about to return it again. */
  ghost function ReturnedTwice<T>(v: T): State<T> {
    Filled(v, OC.State(2, 2, 2, 0, [OC.Claimed(0, 2), OC.Claimed(0, 0)], [NOTHING, BOTH], [0, 0], true), BI.None, 2, {0},
           [CFinish(2), CFree(0, 0, 0, 0, 0)], {0, 1}, {0}, {0}, map[0 := v, 1 := v])
  }

  lemma ReturnsTwice<T(!new)>(v: T)
    ensures Reachable(ReturnedTwice(v))
  {
    CountsBoth(v);
    var s0 := Counted(v);
    var s1 := s0.(c := [CClear(2, 0, 0, 0, 0), CClear(0, 0, 0, 0, 0)]);
    assert Sets.Range(0, 0) == {} && s0.emptied + {} == s0.emptied;
    ByConsumer(s0, s1, 1);
    BothReturn(v, s1);
  }

  lemma BothReturn<T(!new)>(v: T, s1: State<T>)
    requires Reachable(s1)
    requires s1 == Counted(v).(c := [CClear(2, 0, 0, 0, 0), CClear(0, 0, 0, 0, 0)])
    ensures Reachable(ReturnedTwice(v))
  {
    var s2 := s1.(ix := OneBlock(BI.None), cleared := {0}, c := [CFree(2, 0, 0, 0, 0), CClear(0, 0, 0, 0, 0)]);
    ByConsumer(s1, s2, 0);
    var s3 := s2.(free := {0}, freed := {0}, c := [CFinish(2), CClear(0, 0, 0, 0, 0)]);
    ByConsumer(s2, s3, 0);
    ByConsumer(s3, ReturnedTwice(v), 1);
  }

  // ---------- the head has passed the last block ----------

  ghost function LooksPast<T>(v: T): State<T> {
    ClaimedBoth(v, OC.Claimed(2, 0), CKey(2, 0, 0, 0))
  }

  /** Consumer 1 takes the head after consumer 0 has claimed both, and looks up a block that does not exist. */
  lemma LooksUpMissing<T(!new)>(v: T)
    ensures Reachable(LooksPast(v))
  {
    AsksForNone(v);
    ClaimsBoth(v, Asked(v), OC.AddHead(0, 0), CNone);
    var s0 := ClaimedBoth(v, OC.AddHead(0, 0), CNone);
    var s1 := ClaimedBoth(v, OC.Claimed(2, 0), CHeader(2));
    assert [NOTHING, BOTH][0 := NOTHING] == [NOTHING, BOTH] && [0, 0] + [] == [0, 0];
    ByClaim(s0, s1, 1);
    var s2 := ClaimedBoth(v, OC.Claimed(2, 0), CTail(2, 0));
    ByConsumer(s1, s2, 1);
    ByConsumer(s2, LooksPast(v), 1);
  }

  ghost function NoBlock<T>(v: T): State<T> {
    ClaimedBoth(v, OC.Claimed(2, 0), CValue(2, 0, 1))
  }

  /** Without the assertions it arrives at an entry with no block. */
  lemma FindsNoBlock<T(!new)>(v: T)
    ensures Reachable(NoBlock(v))
  {
    LooksUpMissing(v);
    NumIs(2, 1, 2);
    ByConsumer(LooksPast(v), NoBlock(v), 1);
  }

  // ---------- exactly when the results hold ----------

  /** No consumer is about to return a block that is in the pool. */
  ghost predicate ReturnsOnce<T>(s: State<T>) {
    forall t | 0 <= t < |s.c| && s.c[t].CFree? :: s.c[t].b !in s.free
  }

  /** Every lookup finds its key and a block, as asserted at lines 2657 and 2662. */
  ghost predicate LookupsSound<T>(s: State<T>) {
    Sized(s) && forall t | 0 <= t < |s.c| && s.c[t].CKey? :: LookupSound(s, s.c[t])
  }

  /** In all runs blocks are returned once if and only if no caller asks for 0 elements. */
  lemma ReturnedOnceIff<T(!new)>(v: T, zeros: bool)
    ensures (forall s: State<T> | Reachable(s) && s.oc.zeros == zeros :: ReturnsOnce(s)) <==> !zeros
  {
    if zeros {
      ReturnsTwice(v);
      assert ReturnedTwice(v).c[1].CFree?;
      assert !ReturnsOnce(ReturnedTwice(v));
    } else {
      forall s: State<T> | Reachable(s) && !s.oc.zeros ensures ReturnsOnce(s) { NotInPool(s); }
    }
  }

  lemma NotInPool<T(!new)>(s: State<T>)
    requires Reachable(s) && !s.oc.zeros
    ensures ReturnsOnce(s)
  {
    ReachableInv(s);
    forall t | 0 <= t < |s.c| && s.c[t].CFree? ensures s.c[t].b !in s.free {
      assert RangeOk(s, t) && NumberOk(s, Num(s.c[t].start, s.ix.bs));
    }
  }

  /** In all runs lookups find their block if and only if no caller asks for 0 elements. */
  lemma LookupsSoundIff<T(!new)>(v: T, zeros: bool)
    ensures (forall s: State<T> | Reachable(s) && s.oc.zeros == zeros :: LookupsSound(s)) <==> !zeros
  {
    if zeros {
      LooksUpMissing(v);
      assert LooksPast(v).c[1].CKey? && !LookupSound(LooksPast(v), LooksPast(v).c[1]);
      assert !LookupsSound(LooksPast(v));
    } else {
      forall s: State<T> | Reachable(s) && !s.oc.zeros ensures LookupsSound(s) { AllLookupsSound(s); }
    }
  }

  lemma AllLookupsSound<T(!new)>(s: State<T>)
    requires Reachable(s) && !s.oc.zeros
    ensures LookupsSound(s)
  {
    ReachableInv(s);
    forall t | 0 <= t < |s.c| && s.c[t].CKey? ensures LookupSound(s, s.c[t]) { LookupFindsLiveEntry(s, t); }
  }

  /** What every thread is about to go through exists. */
  ghost predicate AllAccesses<T>(s: State<T>) {
    Sized(s) && ProducerAccess(s) && forall t | 0 <= t < |s.c| :: ConsumerAccess(s, t)
  }

  /** In all runs what an access goes through exists if and only if no caller asks for 0 elements. */
  lemma AccessesValidIff<T(!new)>(v: T, zeros: bool)
    ensures (forall s: State<T> | Reachable(s) && s.oc.zeros == zeros :: AllAccesses(s)) <==> !zeros
  {
    if zeros {
      FindsNoBlock(v);
      assert !ConsumerAccess(NoBlock(v), 1);
      assert !AllAccesses(NoBlock(v));
    } else {
      forall s: State<T> | Reachable(s) && !s.oc.zeros ensures AllAccesses(s) { AccessesExist(s); }
    }
  }

  lemma AccessesExist<T(!new)>(s: State<T>)
    requires Reachable(s) && !s.oc.zeros
    ensures AllAccesses(s)
  {
    ReachableInv(s);
    if s.p.PWrite? { TailNumberLive(s); }
    forall t | 0 <= t < |s.c| ensures ConsumerAccess(s, t) { AccessesValid(s, t); }
  }
}
