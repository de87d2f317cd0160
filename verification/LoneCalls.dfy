/** Calls of an implicit producer's queue (include/thirdparty/concurrentqueue.h:2187-2587) that nothing interrupts, from
  any state that a run reaches: what they return, and that they end. No caller asks for 0 elements.
 */
module LoneCalls {
  import opened ImplicitProducer
  import OC = Overcommit
  import BI = BlockIndex
  import Sets

  // ---------- a consumer alone ----------

  /** A step of thread t in its call. */
  ghost predicate Own<T>(s: State<T>, s': State<T>, t: nat) {
    && Sized(s) && (ConsumerStep(s, s', t) || (OC.ClaimStep(s.oc, s'.oc, t) && ClaimStep(s, s', t)))
  }

  ghost predicate OwnAt<T>(path: seq<State<T>>, i: nat, t: nat)
    requires i + 1 < |path|
  {
    Own(path[i], path[i + 1], t)
  }

  ghost predicate Calls<T>(s: State<T>, s': State<T>, t: nat, max: nat) {
    Sized(s) && OC.Call(s.oc, s'.oc, t, max) && ClaimStep(s, s', t)
  }

  /** Thread t calls with a maximum, and no other thread steps. */
  ghost predicate Alone<T>(path: seq<State<T>>, t: nat, max: nat) {
    && |path| >= 2 && Calls(path[0], path[1], t, max)
    && forall i | 1 <= i < |path| - 1 :: OwnAt(path, i, t)
  }

  /** No consumer is at work, and there are elements. */
  ghost predicate Ready<T>(s: State<T>) {
    s.oc.head < s.oc.tail && NoneWork(s)
  }

  ghost predicate NoneWork<T>(s: State<T>) {
    && |s.c| == |s.oc.threads|
    && forall t | 0 <= t < |s.c| :: s.c[t] == CNone && s.oc.threads[t] == OC.Idle
  }

  /** The call of thread t is over. */
  ghost predicate Over<T>(s: State<T>, t: nat) {
    t < |s.c| == |s.oc.threads| && s.c[t] == CNone && s.oc.threads[t] == OC.Idle
  }

  /** What the call of thread t alone has made of state a. */
  ghost predicate Reaches<T>(a: State<T>, s: State<T>, t: nat, max: nat) {
    && t < |a.c| == |a.oc.threads| == |s.oc.threads|
    && s.elems == a.elems && s.oc.tail == a.oc.tail && s.c == a.c[t := if t < |s.c| then s.c[t] else CNone]
    && s.oc.threads == a.oc.threads[t := s.oc.threads[t]]
    && (if s.oc.threads[t].Idle? then s.oc.head == a.oc.head + OC.Min(max, a.oc.tail - a.oc.head)
        else OC.Progress(a.oc, s.oc, t, max))
  }

  lemma CallReaches<T>(a: State<T>, s: State<T>, t: nat, max: nat)
    requires Ready(a) && Calls(a, s, t, max)
    ensures Reaches(a, s, t, max) && Sized(s)
  {
  }

  lemma OwnReaches<T>(a: State<T>, s: State<T>, s': State<T>, t: nat, max: nat)
    requires Ready(a) && a.oc.opt - a.oc.over == a.oc.head && max >= 1 && Reaches(a, s, t, max) && Own(s, s', t)
    ensures Reaches(a, s', t, max)
  {
    if OC.ClaimStep(s.oc, s'.oc, t) { OC.StepProgress(a.oc, s.oc, s'.oc, t, max); }
  }

  lemma OwnReachable<T(!new)>(s: State<T>, s': State<T>, t: nat)
    requires Reachable(s) && Own(s, s', t)
    ensures Reachable(s') && s'.oc.zeros == s.oc.zeros
  {
    StepReachable(s, s');
    StepKeepsZeros(s, s');
  }

  lemma StepReachable<T(!new)>(s: State<T>, s': State<T>)
    requires Reachable(s) && Next(s, s')
    ensures Reachable(s')
  {
    var run: seq<State<T>> :| Run(run) && run[|run| - 1] == s;
    var run' := run + [s'];
    forall i | 0 <= i < |run'| ensures Follows(run', i) {
      assert i < |run| ==> Follows(run, i);
    }
    assert Run(run') && run'[|run'| - 1] == s';
  }

  lemma FirstReaches<T(!new)>(a: State<T>, s: State<T>, t: nat, max: nat)
    requires Reachable(a) && !a.oc.zeros && Ready(a) && Calls(a, s, t, max)
    ensures Reachable(s) && !s.oc.zeros && Reaches(a, s, t, max)
  {
    CallReaches(a, s, t, max);
    StepReachable(a, s);
    StepKeepsZeros(a, s);
  }

  lemma NextReaches<T(!new)>(a: State<T>, s: State<T>, s': State<T>, t: nat, max: nat)
    requires Reachable(a) && !a.oc.zeros && Ready(a) && max >= 1
    requires Reachable(s) && !s.oc.zeros && Reaches(a, s, t, max) && Own(s, s', t)
    ensures Reachable(s') && !s'.oc.zeros && Reaches(a, s', t, max)
  {
    ReadyBalance(a);
    OwnReaches(a, s, s', t, max);
    OwnReachable(s, s', t);
  }

  /** State i of the path is one the call reaches. */
  ghost predicate Along<T(!new)>(path: seq<State<T>>, i: nat, t: nat, max: nat)
    requires i < |path|
  {
    Reachable(path[i]) && !path[i].oc.zeros && Reaches(path[0], path[i], t, max)
  }

  ghost predicate StartsWell<T(!new)>(path: seq<State<T>>, t: nat, max: nat) {
    |path| >= 2 && Reachable(path[0]) && !path[0].oc.zeros && Ready(path[0]) && max >= 1 && Calls(path[0], path[1], t, max)
  }

  lemma AlongFirst<T(!new)>(path: seq<State<T>>, t: nat, max: nat)
    requires StartsWell(path, t, max)
    ensures Along(path, 1, t, max)
  {
    FirstReaches(path[0], path[1], t, max);
  }

  lemma AlongNext<T(!new)>(path: seq<State<T>>, i: nat, t: nat, max: nat)
    requires StartsWell(path, t, max) && i + 1 < |path| && Along(path, i, t, max) && OwnAt(path, i, t)
    ensures Along(path, i + 1, t, max)
  {
    NextReaches(path[0], path[i], path[i + 1], t, max);
  }

  lemma PathReaches<T(!new)>(path: seq<State<T>>, t: nat, max: nat)
    requires StartsWell(path, t, max) && forall k | 1 <= k < |path| - 1 :: OwnAt(path, k, t)
    ensures Along(path, |path| - 1, t, max)
  {
    AlongFirst(path, t, max);
    var i := 1;
    while i < |path| - 1
      invariant 1 <= i < |path| && Along(path, i, t, max)
    {
      AlongNext(path, i, t, max);
      i := i + 1;
    }
  }

  /** With no consumer at work, the optimistic count less the overcommit is the head. */
  lemma ReadyBalance<T(!new)>(s: State<T>)
    requires Reachable(s) && !s.oc.zeros && NoneWork(s)
    ensures s.oc.opt - s.oc.over == s.oc.head
  {
    ReachableInv(s);
    OC.QuietBalance(s.oc);
  }

  /** A call alone, once it is over, has taken the element at the head and those after it, as many as were asked for
      or as there are. */
  lemma LoneDequeue<T(!new)>(path: seq<State<T>>, t: nat, max: nat)
    requires Alone(path, t, max) && Reachable(path[0]) && !path[0].oc.zeros && Ready(path[0]) && max >= 1
    requires Over(path[|path| - 1], t)
    ensures var s, s' := path[0], path[|path| - 1];
            var count := OC.Min(max, s.oc.tail - s.oc.head);
            && s'.oc.head == s.oc.head + count <= |s.elems| && s'.elems == s.elems
            && s'.taken == s.taken + map i: nat | s.oc.head <= i < s.oc.head + count :: s.elems[i]
  {
    PathReaches(path, t, max);
    TakenBetween(path[0], path[|path| - 1], t, max);
  }

  lemma TakenBetween<T(!new)>(s: State<T>, s': State<T>, t: nat, max: nat)
    requires Reachable(s) && !s.oc.zeros && Ready(s) && Reachable(s') && !s'.oc.zeros && Reaches(s, s', t, max)
    requires Over(s', t)
    ensures var count := OC.Min(max, s.oc.tail - s.oc.head);
            && s'.oc.head == s.oc.head + count <= |s.elems| && s'.elems == s.elems
            && s'.taken == s.taken + map i: nat | s.oc.head <= i < s.oc.head + count :: s.elems[i]
  {
    NothingLost(s);
    NothingLost(s');
  }

  // ---------- it ends ----------

  /** Where the segment begins that a consumer is at. */
  function Segment(c: Consumer): nat
    requires !c.CNone?
  {
    if c.CRead? || c.CEmpty? || c.CClear? || c.CFree? then c.start else c.i
  }

  function Stage(c: Consumer): nat {
    match c
    case CHeader(_) => 8
    case CTail(_, _) => 7
    case CKey(_, _, _, _) => 6
    case CValue(_, _, _) => 5
    case CRead(_, _, _, _, _) => 4
    case CEmpty(_, _, _, _, _) => 3
    case CClear(_, _, _, _, _) => 2
    case CFree(_, _, _, _, _) => 1
    case _ => 0
  }

  function Rest(stop: nat, i: nat): nat { if i < stop then stop - i else 0 }

  /** The steps of its claim that thread t has left ... */
  ghost function ClaimLeft<T>(s: State<T>, t: nat): nat
    requires t < |s.oc.threads|
  {
    if s.oc.threads[t].Idle? then 0 else 1 + OC.Left(s.oc.threads[t])
  }

  /** ... what is left of its range from the segment on that it is at ... */
  ghost function RangeLeft<T>(s: State<T>, t: nat): nat
    requires t < |s.c| == |s.oc.threads|
  {
    if s.c[t].CNone? then 0 else Rest(Stop(s, t), Segment(s.c[t]))
  }

  /** ... and of that segment. */
  ghost function SegmentLeft<T>(s: State<T>, t: nat): nat
    requires t < |s.c| == |s.oc.threads|
  {
    if s.c[t].CRead? then Rest(Stop(s, t), s.c[t].i) else 0
  }

  ghost predicate Less<T>(s': State<T>, s: State<T>, t: nat)
    requires t < |s.c| == |s.oc.threads| && t < |s'.c| == |s'.oc.threads|
  {
    || ClaimLeft(s', t) < ClaimLeft(s, t)
    || (&& ClaimLeft(s', t) == ClaimLeft(s, t)
        && (|| RangeLeft(s', t) < RangeLeft(s, t)
            || (&& RangeLeft(s', t) == RangeLeft(s, t)
                && (|| Stage(s'.c[t]) < Stage(s.c[t])
                    || (Stage(s'.c[t]) == Stage(s.c[t]) && SegmentLeft(s', t) < SegmentLeft(s, t))))))
  }

  lemma Finds<T>(s: State<T>, t: nat) returns (s': State<T>)
    requires Sized(s) && t < |s.c| && s.oc.threads[t].Claimed? && ConsumerAccess(s, t)
    requires s.c[t].CHeader? || s.c[t].CTail? || s.c[t].CKey? || s.c[t].CValue?
    requires s.c[t].i < Stop(s, t)
    ensures ConsumerStep(s, s', t) && Less(s', s, t)
  {
    match s.c[t]
    case CHeader(i) => s' := SetC(s, t, CTail(i, |s.ix.headers| - 1));
    case CTail(i, h) => s' := SetC(s, t, CKey(i, h, s.ix.headers[h].tail, s.ix.headers[h].last));
    case CKey(i, h, pos, n) =>
      var offset := (Num(i, s.ix.bs) * s.ix.bs - s.ix.entries[EntryAt(s, h, pos)].key.value) / s.ix.bs;
      s' := SetC(s, t, CValue(i, h, (pos + offset) % s.ix.headers[h].capacity));
    case CValue(i, h, idx) =>
      SegmentAhead(s, t, i);
      s' := SetC(s, t, CRead(i, h, idx, s.ix.entries[EntryAt(s, h, idx)].value.value, i));
  }

  lemma Reads<T>(s: State<T>, t: nat) returns (s': State<T>)
    requires Sized(s) && t < |s.c| && s.oc.threads[t].Claimed? && ConsumerAccess(s, t)
    requires s.c[t].CRead? && s.c[t].i < Stop(s, t)
    ensures ConsumerStep(s, s', t) && Less(s', s, t)
  {
    match s.c[t]
    case CRead(i, h, idx, b, start) =>
      s' := SetC(s, t, if i + 1 == SegmentEnd(s, t, start) then CEmpty(i + 1, h, idx, b, start)
                       else CRead(i + 1, h, idx, b, start)).(taken := s.taken[i := s.blocks[b].data[i % s.ix.bs]]);
  }

  lemma Counts<T>(s: State<T>, t: nat) returns (s': State<T>)
    requires Sized(s) && t < |s.c| && s.oc.threads[t].Claimed? && ConsumerAccess(s, t)
    requires s.c[t].CEmpty? && s.c[t].start < s.c[t].i <= Stop(s, t)
    ensures ConsumerStep(s, s', t) && Less(s', s, t)
  {
    match s.c[t]
    case CEmpty(i, h, idx, b, start) =>
      var done := s.blocks[b].done + (i - start);
      s' := SetC(s, t, if done == s.ix.bs then CClear(i, h, idx, b, start) else Advance(s, t, i, h, idx)).(
              blocks := s.blocks[b := s.blocks[b].(done := done)], emptied := s.emptied + Sets.Range(start, i));
      LeavesSegment(s, s', t);
  }

  /** Returning the block, going on to the next segment and finishing are all less than counting. */
  lemma LeavesSegment<T>(s: State<T>, s': State<T>, t: nat)
    requires t < |s.c| == |s.oc.threads| && s'.oc == s.oc && |s'.c| == |s.c| && s.oc.threads[t].Claimed?
    requires s.c[t].CEmpty? && s.c[t].start < s.c[t].i <= Stop(s, t)
    requires s'.c[t].CClear? || s'.c[t].CFinish? || s'.c[t].CValue?
    requires s'.c[t].i == s.c[t].i && (s'.c[t].CClear? ==> s'.c[t].start == s.c[t].start)
    ensures Less(s', s, t)
  {
  }

  lemma Returns<T>(s: State<T>, t: nat) returns (s': State<T>)
    requires Sized(s) && t < |s.c| && s.oc.threads[t].Claimed? && ConsumerAccess(s, t)
    requires s.c[t].CClear? || s.c[t].CFree? || s.c[t].CFinish?
    requires s.c[t].Freeing() ==> s.c[t].start < s.c[t].i <= Stop(s, t)
    ensures ConsumerStep(s, s', t) && Less(s', s, t)
  {
    match s.c[t]
    case CClear(i, h, idx, b, start) =>
      s' := SetC(s, t, CFree(i, h, idx, b, start)).(
              ix := BI.SetValue(s.ix, EntryAt(s, h, idx), BI.None), cleared := s.cleared + {Num(start, s.ix.bs)});
    case CFree(i, h, idx, b, start) =>
      s' := SetC(s, t, Advance(s, t, i, h, idx)).(free := s.free + {b}, freed := s.freed + {Num(start, s.ix.bs)});
    case CFinish(_) => s' := SetC(s, t, CNone).(oc := OC.Go(s.oc, t, OC.Idle));
  }

  lemma Claims<T>(a: State<T>, s: State<T>, t: nat, max: nat) returns (s': State<T>)
    requires Ready(a) && a.oc.opt - a.oc.over == a.oc.head && max >= 1 && Reaches(a, s, t, max)
    requires Sized(s) && OC.Inv(s.oc) && s.c[t] == CNone && !s.oc.threads[t].Idle? && !s.oc.threads[t].Claimed?
    ensures Own(s, s', t) && t < |s'.c| == |s'.oc.threads| && Less(s', s, t)
  {
    assert OC.ThreadOk(s.oc, t);
    var oc' := s.oc;
    if s.oc.threads[t].InFlight() { oc' := OC.SettlesOn(s.oc, t); } else { oc' := OC.AsksOn(s.oc, t); }
    OC.StepProgress(a.oc, s.oc, oc', t, max);
    s' := s.(oc := oc', c := if oc'.threads[t].Claimed? then s.c[t := CHeader(oc'.threads[t].first)] else s.c);
  }

  lemma GoesOn<T(!new)>(a: State<T>, s: State<T>, t: nat, max: nat) returns (s': State<T>)
    requires Ready(a) && a.oc.opt - a.oc.over == a.oc.head && max >= 1 && Reaches(a, s, t, max)
    requires Reachable(s) && !s.oc.zeros && !Over(s, t)
    ensures Own(s, s', t) && t < |s.c| == |s.oc.threads| && t < |s'.c| == |s'.oc.threads| && Less(s', s, t)
  {
    ReachableInv(s);
    AccessesValid(s, t);
    assert RangeOk(s, t);
    if s.c[t].CNone? {
      s' := Claims(a, s, t, max);
    } else if s.c[t].CHeader? || s.c[t].CTail? || s.c[t].CKey? || s.c[t].CValue? {
      s' := Finds(s, t);
    } else if s.c[t].CRead? {
      s' := Reads(s, t);
    } else if s.c[t].CEmpty? {
      s' := Counts(s, t);
    } else {
      s' := Returns(s, t);
    }
  }

  lemma Finishes<T(!new)>(a: State<T>, s: State<T>, t: nat, max: nat) returns (path: seq<State<T>>)
    requires Ready(a) && a.oc.opt - a.oc.over == a.oc.head && max >= 1 && Reaches(a, s, t, max)
    requires Reachable(s) && !s.oc.zeros && |s.c| == |s.oc.threads|
    ensures |path| >= 1 && path[0] == s && Over(path[|path| - 1], t)
    ensures forall i | 0 <= i < |path| - 1 :: OwnAt(path, i, t)
    decreases ClaimLeft(s, t), RangeLeft(s, t), Stage(s.c[t]), SegmentLeft(s, t)
  {
    if Over(s, t) {
      path := [s];
    } else {
      var s' := GoesOn(a, s, t, max);
      OwnReaches(a, s, s', t, max);
      OwnReachable(s, s', t);
      var rest := Finishes(a, s', t, max);
      path := [s] + rest;
      OneMore(path, rest, t);
    }
  }

  lemma OneMore<T>(path: seq<State<T>>, rest: seq<State<T>>, t: nat)
    requires |rest| >= 1 && |path| == |rest| + 1 && path[1..] == rest && Own(path[0], rest[0], t)
    requires forall i | 0 <= i < |rest| - 1 :: OwnAt(rest, i, t)
    ensures forall i | 0 <= i < |path| - 1 :: OwnAt(path, i, t)
  {
    assert path[1] == rest[0];
    forall i | 0 <= i < |path| - 1 ensures OwnAt(path, i, t) {
      assert i > 0 ==> OwnAt(rest, i - 1, t) && path[i] == rest[i - 1] && path[i + 1] == rest[i];
    }
  }

  lemma Begins<T(!new)>(s: State<T>, t: nat, max: nat) returns (s1: State<T>)
    requires Reachable(s) && !s.oc.zeros && Ready(s) && t < |s.c| && max >= 1
    ensures Calls(s, s1, t, max) && Reachable(s1) && !s1.oc.zeros
  {
    IsSized(s);
    s1 := s.(oc := OC.Go(s.oc, t, OC.LoadOver(max, s.oc.tail)));
    assert OC.Call(s.oc, s1.oc, t, max);
    assert ClaimStep(s, s1, t);
    StepReachable(s, s1);
  }

  lemma IsSized<T(!new)>(s: State<T>)
    requires Reachable(s) && !s.oc.zeros
    ensures Sized(s)
  {
    ReachableInv(s);
  }

  /** From every reachable state with elements and no consumer at work, a call alone can run to its end. */
  lemma LoneDequeueEnds<T(!new)>(s: State<T>, t: nat, max: nat) returns (path: seq<State<T>>)
    requires Reachable(s) && !s.oc.zeros && Ready(s) && t < |s.c| && max >= 1
    ensures Alone(path, t, max) && path[0] == s && Over(path[|path| - 1], t)
  {
    ReadyBalance(s);
    var s1 := Begins(s, t, max);
    CallReaches(s, s1, t, max);
    var rest := Finishes(s, s1, t, max);
    path := [s] + rest;
    AloneOf(path, rest, t, max);
  }

  lemma AloneOf<T>(path: seq<State<T>>, rest: seq<State<T>>, t: nat, max: nat)
    requires |rest| >= 1 && |path| == |rest| + 1 && path[1..] == rest && Calls(path[0], rest[0], t, max)
    requires forall i | 0 <= i < |rest| - 1 :: OwnAt(rest, i, t)
    ensures Alone(path, t, max)
  {
    assert path[1] == rest[0];
    forall i | 1 <= i < |path| - 1 ensures OwnAt(path, i, t) {
      assert OwnAt(rest, i - 1, t);
      assert path[i] == rest[i - 1] && path[i + 1] == rest[i];
    }
  }

  // ---------- the producer ----------

  /** The step with which `enqueue` returns true publishes its element, and no other step of it publishes anything; it
      returns false only when the index could not grow or no block could be had. */
  lemma EnqueueReturns<T(!new)>(s: State<T>, s': State<T>)
    requires Reachable(s) && !s.oc.zeros && Next(s, s') && ProducerStep(s, s')
    ensures !s.p.Resting()
    ensures if s'.p == PDone(true) then s'.elems == s.elems + [s.p.v] && s'.oc.tail == s.oc.tail + 1
            else s'.elems == s.elems && s'.oc == s.oc
    ensures s'.p == PDone(false) ==> Sized(s) && ((s.p.PCheckEntry? && !BI.CanReuse(s.ix)) || s.p.PClear?)
  {
    if s.p.PCheckHead? { HeadCheckPasses(s, s'); }
  }

  function ProducerLeft<T>(p: Producer<T>): nat {
    match p
    case PCheckHead(_) => 8
    case PCheckEntry(_) => 7
    case PStoreKey(_) => 6
    case PStoreTail(_, _) => 5
    case PRequisition(_, _) => 4
    case PStoreValue(_, _, _) => 3
    case PWrite(_) => 2
    case PPublish(_) => 1
    case _ => 0
  }

  lemma Grow(x: BI.Index) returns (x': BI.Index)
    requires |x.headers| > 0 && BI.HeaderShape(x, BI.Cur(x))
    ensures BI.Grows(x, x')
  {
    var h := BI.Cur(x);
    var n := |x.entries|;
    var index := seq(h.capacity, i requires 0 <= i < h.capacity => h.index[(h.tail + 1 + i) % h.capacity])
                 + seq(h.capacity, i requires 0 <= i => n + i);
    var g := BI.Header(2 * h.capacity, h.capacity - 1, index, h.capacity - 1 - h.last, h.last);
    x' := x.(entries := x.entries + seq(h.capacity, _ => BI.Entry(BI.None, BI.None)), headers := x.headers + [g]);
  }

  /** An `enqueue` in progress can take its next step, and is given memory if it asks for some. */
  lemma ProducerGoesOn<T(!new)>(s: State<T>) returns (s': State<T>)
    requires Reachable(s) && !s.oc.zeros && ProducerLeft(s.p) > 0
    ensures Sized(s) && ProducerStep(s, s') && ProducerLeft(s'.p) < ProducerLeft(s.p)
    ensures if ProducerLeft(s.p) == 1 then s'.p == PDone(true) else ProducerLeft(s'.p) > 0 && s'.p.v == s.p.v
  {
    ReachableInv(s);
    OC.HeadBounded(s.oc);
    if s.p.PWrite? { TailNumberLive(s); }
    if s.p.PCheckEntry? && !BI.CanReuse(s.ix) {
      var x' := Grow(s.ix);
      s' := s.(ix := x', p := PStoreKey(s.p.v));
    } else if s.p.PWrite? || s.p.PPublish? {
      s' := Stores(s);
    } else {
      s' := Inserts(s);
    }
  }

  lemma Inserts<T>(s: State<T>) returns (s': State<T>)
    requires Sized(s) && ProducerLeft(s.p) > 2 && s.oc.head < s.oc.tail + s.ix.bs
    requires s.p.PCheckEntry? ==> BI.CanReuse(s.ix)
    requires s.p.PStoreValue? ==> s.p.e < |s.ix.entries|
    ensures ProducerStep(s, s') && 0 < ProducerLeft(s'.p) < ProducerLeft(s.p) && s'.p.v == s.p.v
  {
    match s.p
    case PCheckHead(v) => s' := s.(p := PCheckEntry(v));
    case PCheckEntry(v) => s' := s.(p := PStoreKey(v));
    case PStoreKey(v) => s' := s.(ix := BI.StoreKey(s.ix), p := PStoreTail(v, BI.NextEntry(s.ix)));
    case PStoreTail(v, e) => s' := s.(ix := BI.AdvanceTail(s.ix), p := PRequisition(v, e));
    case PRequisition(v, e) =>
      var b := |s.blocks|;
      s' := s.(blocks := s.blocks + [Block(0, seq(s.ix.bs, _ => v))], p := PStoreValue(v, e, b));
      assert Requisition(s, s', b);
    case PStoreValue(v, e, b) =>
      s' := s.(ix := BI.SetValue(s.ix, e, BI.Some(b)), tailBlock := b, blk := s.blk + [b], p := PWrite(v));
  }

  lemma Stores<T>(s: State<T>) returns (s': State<T>)
    requires Sized(s) && (s.p.PWrite? || s.p.PPublish?) && (s.p.PWrite? ==> s.tailBlock < |s.blocks|)
    ensures ProducerStep(s, s') && ProducerLeft(s'.p) == ProducerLeft(s.p) - 1
    ensures if s.p.PPublish? then s'.p == PDone(true) else s'.p == PPublish(s.p.v)
  {
    match s.p
    case PWrite(v) =>
      var b := s.blocks[s.tailBlock];
      s' := s.(blocks := s.blocks[s.tailBlock := b.(data := b.data[s.oc.tail % s.ix.bs := v])], p := PPublish(v));
    case PPublish(v) => s' := s.(oc := s.oc.(tail := s.oc.tail + 1), elems := s.elems + [v], p := PDone(true));
  }

  lemma BeginsEnqueue<T(!new)>(s: State<T>, v: T) returns (s1: State<T>)
    requires Reachable(s) && !s.oc.zeros && s.p.Resting()
    ensures Sized(s) && EnqueueCall(s, s1, v) && Reachable(s1) && !s1.oc.zeros && Enqueuing(s, s1, v)
    ensures ProducerLeft(s1.p) > 0
  {
    IsSized(s);
    s1 := s.(p := if s.oc.tail % s.ix.bs == 0 then PCheckHead(v) else PWrite(v));
    assert EnqueueCall(s, s1, v);
    StepReachable(s, s1);
  }

  lemma EnqueuesOn<T(!new)>(a: State<T>, s: State<T>, v: T) returns (s': State<T>)
    requires Reachable(s) && !s.oc.zeros && Enqueuing(a, s, v) && ProducerLeft(s.p) > 0
    ensures Sized(s) && ProducerStep(s, s') && ProducerLeft(s'.p) < ProducerLeft(s.p)
    ensures Reachable(s') && !s'.oc.zeros && Enqueuing(a, s', v)
  {
    s' := ProducerGoesOn(s);
    StepReachable(s, s');
    EnqueueReturns(s, s');
    StepKeepsZeros(s, s');
  }

  /** With memory, an `enqueue` called in any reachable state can run to its end, and v is the last element then. */
  lemma LoneEnqueueEnds<T(!new)>(s: State<T>, v: T) returns (path: seq<State<T>>)
    requires Reachable(s) && !s.oc.zeros && s.p.Resting()
    ensures Sized(s) && |path| >= 2 && path[0] == s && EnqueueCall(s, path[1], v)
    ensures forall i | 1 <= i < |path| - 1 :: ProducesAt(path, i)
    ensures path[|path| - 1].p == PDone(true) && path[|path| - 1].elems == s.elems + [v]
  {
    var s1 := BeginsEnqueue(s, v);
    path := [s, s1];
    while ProducerLeft(path[|path| - 1].p) > 0
      invariant |path| >= 2 && path[0] == s && path[1] == s1
      invariant forall i | 1 <= i < |path| - 1 :: ProducesAt(path, i)
      invariant Reachable(path[|path| - 1]) && !path[|path| - 1].oc.zeros
      invariant Enqueuing(s, path[|path| - 1], v)
      decreases ProducerLeft(path[|path| - 1].p)
    {
      var last := path[|path| - 1];
      var next := EnqueuesOn(s, last, v);
      ProducesMore(path, next);
      path := path + [next];
    }
  }

  /** The call is under way and has changed no elements, or is over and has added v. */
  ghost predicate Enqueuing<T>(a: State<T>, s: State<T>, v: T) {
    if ProducerLeft(s.p) > 0 then s.p.v == v && s.elems == a.elems else s.p == PDone(true) && s.elems == a.elems + [v]
  }

  ghost predicate ProducesAt<T>(path: seq<State<T>>, i: nat)
    requires i + 1 < |path|
  {
    Sized(path[i]) && ProducerStep(path[i], path[i + 1])
  }

  lemma ProducesMore<T>(path: seq<State<T>>, next: State<T>)
    requires |path| >= 2 && Sized(path[|path| - 1]) && ProducerStep(path[|path| - 1], next)
    requires forall i | 1 <= i < |path| - 1 :: ProducesAt(path, i)
    ensures forall i | 1 <= i < |path| :: ProducesAt(path + [next], i)
  {
    forall i | 1 <= i < |path| ensures ProducesAt(path + [next], i) {
      assert i < |path| - 1 ==> ProducesAt(path, i);
    }
  }
}
