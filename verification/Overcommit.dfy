/** The optimistic counters with which consumers of include/thirdparty/concurrentqueue.h claim indices of a
  producer's queue: `dequeue` (lines 1688-1779 and 2265-2334) and `dequeue_bulk` (1967-2058 and 2487-2587).

  Each access of a counter is one step. `dequeue` is `dequeue_bulk` with a maximum of one. Counters are
  unbounded, so `circular_less_than` is `<` and a difference may be negative.
 */
module Overcommit {

  datatype Pc =
    | Idle
    | LoadOver(max: nat, tail: nat)
    | LoadOpt(max: nat, tail: nat, over: nat)
    | AddOpt(want: nat, over: nat)
    | LoadTail(k: nat)
    | AddOver(k: nat, got: nat, short: nat)
    | AddHead(k: nat, got: nat)
    | Claimed(first: nat, count: nat)
  {
    /** The thread has added to the optimistic count and has not settled its ticket yet. */
    predicate InFlight() { LoadTail? || AddOver? || AddHead? }
  }

  /** One `fetch_add` on `dequeueOptimisticCount`: the value before it, the amount, the overcommit the thread
      had read before; then the tail it read after it, what it was granted, gave back, and added to `headIndex`. */
  datatype Ticket = Ticket(my: nat, want: nat, over: nat, seen: nat, got: nat, failed: nat, claimed: nat)

  function Want(t: Ticket): nat { t.want }
  function Got(t: Ticket): nat { t.got }
  function Failed(t: Ticket): nat { t.failed }
  function Claims(t: Ticket): nat { t.claimed }

  function Sum(log: seq<Ticket>, f: Ticket -> nat): nat {
    if log == [] then 0 else Sum(log[..|log| - 1], f) + f(log[|log| - 1])
  }

  /** The four counters and the threads. `log` lists the tickets in the order of their `fetch_add` and
      `owner[i]` is the thread that claimed index i; both are history, of which a thread only knows its own
      ticket. `zeros` is whether some caller may ask for a maximum of 0 elements; no step changes it. */
  datatype State = State(
    tail: nat, head: nat, opt: nat, over: nat, threads: seq<Pc>, log: seq<Ticket>, owner: seq<nat>, zeros: bool)

  ghost predicate Init(s: State) {
    && s.tail == s.head == s.opt == s.over == 0 && s.log == [] && s.owner == []
    && forall t | 0 <= t < |s.threads| :: s.threads[t] == Idle
  }

  function Min(a: int, b: int): int {
    if a < b then a else b
  }

  ghost function Go(s: State, t: nat, pc: Pc): State
    requires t < |s.threads|
  {
    s.(threads := s.threads[t := pc])
  }

  /** The producer publishes one more element. */
  ghost predicate Enqueue(s: State, s': State) {
    s' == s.(tail := s.tail + 1)
  }

  ghost predicate Call(s: State, s': State, t: nat, max: nat) {
    && t < |s.threads| && s.threads[t] == Idle && (max >= 1 || s.zeros)
    && s' == Go(s, t, LoadOver(max, s.tail))
  }

  ghost predicate ClaimStep(s: State, s': State, t: nat) {
    && t < |s.threads|
    && match s.threads[t]
       case LoadOver(max, tail) => s' == Go(s, t, LoadOpt(max, tail, s.over))
       case LoadOpt(max, tail, over) =>
         var desired := tail - (s.opt - over);
         s' == Go(s, t, if desired > 0 then AddOpt(Min(desired, max), over) else Idle)
       case AddOpt(want, over) =>
         s' == Go(s, t, LoadTail(|s.log|)).(opt := s.opt + want, log := s.log + [Ticket(s.opt, want, over, 0, 0, 0, 0)])
       case LoadTail(k) =>
         && k < |s.log|
         && var x := s.log[k];
            var actual := s.tail - (x.my - x.over);
            if actual > 0 then
              var got := Min(x.want, actual);
              s' == Go(s, t, if got < x.want then AddOver(k, got, x.want - got) else AddHead(k, got)).(
                      log := s.log[k := x.(seen := s.tail, got := got)])
            else s' == Go(s, t, AddOver(k, 0, x.want)).(log := s.log[k := x.(seen := s.tail)])
       case AddOver(k, got, short) =>
         && k < |s.log|
         && s' == Go(s, t, if got > 0 then AddHead(k, got) else Idle).(
                    over := s.over + short, log := s.log[k := s.log[k].(failed := short)])
       case AddHead(k, got) =>
         && k < |s.log|
         && s' == Go(s, t, Claimed(s.head, got)).(
                    head := s.head + got, log := s.log[k := s.log[k].(claimed := got)],
                    owner := s.owner + seq(got, _ => t))
       case _ => false
  }

  /** The thread has consumed what it claimed. */
  ghost predicate Finish(s: State, s': State, t: nat) {
    t < |s.threads| && s.threads[t].Claimed? && s' == Go(s, t, Idle)
  }

  ghost predicate Next(s: State, s': State) {
    || Enqueue(s, s')
    || (exists t, max :: Call(s, s', t, max))
    || (exists t :: ClaimStep(s, s', t))
    || (exists t :: Finish(s, s', t))
  }

  // ---------- sums ----------

  lemma {:induction false} SumSet(log: seq<Ticket>, k: nat, x: Ticket, f: Ticket -> nat)
    requires k < |log|
    ensures Sum(log[k := x], f) == Sum(log, f) - f(log[k]) + f(x)
  {
    var n := |log| - 1;
    if k == n {
      assert log[k := x][..n] == log[..n];
    } else {
      assert log[k := x][..n] == log[..n][k := x];
      SumSet(log[..n], k, x, f);
    }
  }

  lemma SumPush(log: seq<Ticket>, x: Ticket, f: Ticket -> nat)
    ensures Sum(log + [x], f) == Sum(log, f) + f(x)
  {
    assert (log + [x])[..|log|] == log;
  }

  lemma {:induction false} SumNext(log: seq<Ticket>, n: nat, f: Ticket -> nat)
    requires n < |log|
    ensures Sum(log[..n + 1], f) == Sum(log[..n], f) + f(log[n])
  {
    assert log[..n + 1][..n] == log[..n];
  }

  // ---------- the invariant ----------

  ghost predicate TicketOk(s: State, k: nat)
    requires k < |s.log|
  {
    var x := s.log[k];
    && x.my == Sum(s.log[..k], Want)
    && x.over <= Sum(s.log[..k], Failed)
    && x.got + x.failed <= x.want && x.claimed <= x.got
    && (x.got > 0 ==> x.my - x.over + x.got <= s.tail)
    && x.seen <= s.tail
  }

  ghost predicate Settled(x: Ticket) {
    x.got + x.failed == x.want && x.claimed == x.got
  }

  ghost predicate ThreadOk(s: State, t: nat)
    requires t < |s.threads|
  {
    match s.threads[t]
    case Idle => true
    case LoadOver(max, tail) => (max >= 1 || s.zeros) && tail <= s.tail
    case LoadOpt(max, tail, over) => (max >= 1 || s.zeros) && over <= s.over && tail <= s.tail
    case AddOpt(want, over) => (want >= 1 || s.zeros) && over <= s.over
    case LoadTail(k) =>
      k < |s.log| && var x := s.log[k]; (x.want >= 1 || s.zeros) && x.got == x.failed == x.claimed == 0
    case AddOver(k, got, short) =>
      k < |s.log| && var x := s.log[k];
      (short >= 1 || s.zeros) && (got == 0 ==> x.my - x.over >= x.seen || x.want == 0) && x.got == got && x.failed == x.claimed == 0 && got + short == x.want
    case AddHead(k, got) =>
      k < |s.log| && var x := s.log[k]; (got >= 1 || s.zeros) && x.got == got && x.claimed == 0 && got + x.failed == x.want
    case Claimed(first, count) =>
      (count >= 1 || s.zeros) && first + count <= s.head == |s.owner| && forall i | first <= i < first + count :: s.owner[i] == t
  }

  ghost predicate TicketsDistinct(s: State) {
    forall t, u | 0 <= t < u < |s.threads| && s.threads[t].InFlight() && s.threads[u].InFlight() ::
      s.threads[t].k != s.threads[u].k
  }

  ghost predicate AllSettled(s: State) {
    forall k | 0 <= k < |s.log| :: Settled(s.log[k]) || HasOwner(s, k)
  }

  ghost predicate HasOwner(s: State, k: nat) {
    exists t :: 0 <= t < |s.threads| && s.threads[t].InFlight() && s.threads[t].k == k
  }

  ghost predicate Inv(s: State) {
    && s.opt == Sum(s.log, Want) && s.over == Sum(s.log, Failed)
    && s.head == Sum(s.log, Claims) == |s.owner|
    && (forall k | 0 <= k < |s.log| :: TicketOk(s, k))
    && (forall t | 0 <= t < |s.threads| :: ThreadOk(s, t))
    && TicketsDistinct(s) && AllSettled(s)
  }

  /** Up to any ticket, what was granted or given back was asked for. */
  lemma {:induction false} PrefixBalance(s: State, n: nat)
    requires Inv(s) && n <= |s.log|
    ensures Sum(s.log[..n], Got) + Sum(s.log[..n], Failed) <= Sum(s.log[..n], Want)
    ensures Sum(s.log[..n], Claims) <= Sum(s.log[..n], Got)
  {
    if n > 0 {
      PrefixBalance(s, n - 1);
      assert TicketOk(s, n - 1);
      SumNext(s.log, n - 1, Got);
      SumNext(s.log, n - 1, Failed);
      SumNext(s.log, n - 1, Want);
      SumNext(s.log, n - 1, Claims);
    }
  }

  /** What was granted never exceeds the tail: look at the last ticket that was granted anything. All before
      it asked for `my` together, and the overcommit it subtracted was given back by tickets before it. */
  lemma {:induction false} GrantedBounded(s: State, n: nat)
    requires Inv(s) && n <= |s.log|
    ensures Sum(s.log[..n], Got) <= s.tail
  {
    if n > 0 {
      assert TicketOk(s, n - 1);
      SumNext(s.log, n - 1, Got);
      if s.log[n - 1].got == 0 {
        GrantedBounded(s, n - 1);
      } else {
        PrefixBalance(s, n - 1);
      }
    }
  }

  lemma HeadBounded(s: State)
    requires Inv(s)
    ensures s.head <= s.tail && s.over <= s.opt
  {
    assert s.log[..|s.log|] == s.log;
    PrefixBalance(s, |s.log|);
    GrantedBounded(s, |s.log|);
  }

  // ---------- every step keeps it ----------

  lemma LocalKeepsInv(s: State, s': State, t: nat)
    requires Inv(s) && t < |s.threads| && t < |s'.threads| && s' == Go(s, t, s'.threads[t])
    requires !s.threads[t].InFlight() && !s'.threads[t].InFlight() && ThreadOk(s', t)
    ensures Inv(s')
  {
    forall k | 0 <= k < |s'.log| ensures TicketOk(s', k) && (Settled(s'.log[k]) || HasOwner(s', k)) {
      assert TicketOk(s, k);
      if !Settled(s.log[k]) {
        var u :| 0 <= u < |s.threads| && s.threads[u].InFlight() && s.threads[u].k == k;
        assert s'.threads[u].InFlight() && s'.threads[u].k == k;
      }
    }
    forall u | 0 <= u < |s'.threads| ensures ThreadOk(s', u) { assert ThreadOk(s, u); }
  }

  lemma EnqueueKeepsInv(s: State, s': State)
    requires Inv(s) && Enqueue(s, s')
    ensures Inv(s')
  {
    forall k | 0 <= k < |s'.log| ensures TicketOk(s', k) && (Settled(s'.log[k]) || HasOwner(s', k)) {
      assert TicketOk(s, k);
      if HasOwner(s, k) {
        var u :| 0 <= u < |s.threads| && s.threads[u].InFlight() && s.threads[u].k == k;
        assert s'.threads[u].InFlight() && s'.threads[u].k == k;
      }
    }
    forall u | 0 <= u < |s'.threads| ensures ThreadOk(s', u) { assert ThreadOk(s, u); }
  }

  lemma AddOptKeepsTickets(s: State, s': State, t: nat)
    requires Inv(s) && t < |s.threads| && s.threads[t].AddOpt? && ClaimStep(s, s', t)
    ensures forall k | 0 <= k < |s'.log| :: TicketOk(s', k)
    ensures AllSettled(s')
  {
    assert ThreadOk(s, t);
    forall k | 0 <= k < |s'.log| ensures TicketOk(s', k) && (Settled(s'.log[k]) || HasOwner(s', k)) {
      if k < |s.log| {
        assert TicketOk(s, k) && s'.log[..k] == s.log[..k];
        if HasOwner(s, k) {
          var u :| 0 <= u < |s.threads| && s.threads[u].InFlight() && s.threads[u].k == k;
          assert s'.threads[u].InFlight() && s'.threads[u].k == k;
        }
      } else {
        assert s'.log[..k] == s.log;
        assert s'.threads[t].InFlight() && s'.threads[t].k == k;
      }
    }
  }

  lemma AddOptKeepsThreads(s: State, s': State, t: nat)
    requires t < |s.threads| && s.threads[t].AddOpt? && ClaimStep(s, s', t) && TicketsDistinct(s)
    requires forall u | 0 <= u < |s.threads| :: ThreadOk(s, u)
    ensures forall u | 0 <= u < |s'.threads| :: ThreadOk(s', u)
    ensures TicketsDistinct(s')
  {
    forall u | 0 <= u < |s'.threads| ensures ThreadOk(s', u) { assert ThreadOk(s, u) && ThreadOk(s, t); }
    forall u, v | 0 <= u < v < |s'.threads| && s'.threads[u].InFlight() && s'.threads[v].InFlight()
      ensures s'.threads[u].k != s'.threads[v].k
    {
      assert ThreadOk(s, u) && ThreadOk(s, v);
    }
  }

  lemma AddOptKeepsInv(s: State, s': State, t: nat)
    requires Inv(s) && t < |s.threads| && s.threads[t].AddOpt? && ClaimStep(s, s', t)
    ensures Inv(s')
  {
    var x := s'.log[|s.log|];
    SumPush(s.log, x, Want);
    SumPush(s.log, x, Failed);
    SumPush(s.log, x, Claims);
    AddOptKeepsTickets(s, s', t);
    AddOptKeepsThreads(s, s', t);
  }

  lemma TicketKept(s: State, s': State, k: nat, x: Ticket, j: nat)
    requires k < |s.log| && s'.log == s.log[k := x] && s'.tail == s.tail && j < |s.log| && TicketOk(s, j)
    requires x == s.log[k].(seen := x.seen, got := x.got, failed := x.failed, claimed := x.claimed) && x.seen <= s.tail
    requires x.failed >= s.log[k].failed && x.got + x.failed <= x.want && x.claimed <= x.got
    requires x.got > 0 ==> x.my - x.over + x.got <= s.tail
    ensures TicketOk(s', j)
  {
    if j <= k {
      assert s'.log[..j] == s.log[..j];
    } else {
      assert s'.log[..j] == s.log[..j][k := x];
      SumSet(s.log[..j], k, x, Want);
      SumSet(s.log[..j], k, x, Failed);
    }
  }

  /** A thread in flight rewrites its own ticket. */
  lemma OwnTicketKeepsInv(s: State, s': State, t: nat, k: nat, x: Ticket)
    requires Inv(s) && t < |s.threads| && s.threads[t].InFlight() && s.threads[t].k == k < |s.log|
    requires |s'.threads| == |s.threads| && s'.threads == s.threads[t := s'.threads[t]]
    requires s'.log == s.log[k := x] && s'.tail == s.tail && s'.opt == s.opt && s'.zeros == s.zeros
    requires x == s.log[k].(seen := x.seen, got := x.got, failed := x.failed, claimed := x.claimed) && x.seen <= s.tail
    requires x.failed >= s.log[k].failed && x.got + x.failed <= x.want && x.claimed <= x.got
    requires x.got > 0 ==> x.my - x.over + x.got <= s.tail
    requires s'.over == s.over - s.log[k].failed + x.failed && s'.head == s.head - s.log[k].claimed + x.claimed
    requires s.owner <= s'.owner && |s'.owner| == s'.head >= s.head
    requires if s'.threads[t].InFlight() then s'.threads[t].k == k else Settled(x)
    requires ThreadOk(s', t)
    ensures Inv(s')
  {
    SumSet(s.log, k, x, Want);
    SumSet(s.log, k, x, Failed);
    SumSet(s.log, k, x, Claims);
    forall j | 0 <= j < |s'.log| ensures TicketOk(s', j) {
      assert TicketOk(s, j);
      TicketKept(s, s', k, x, j);
    }
    forall j | 0 <= j < |s'.log| ensures Settled(s'.log[j]) || HasOwner(s', j) {
      if j == k {
        if !Settled(x) { assert s'.threads[t].InFlight() && s'.threads[t].k == k; }
      } else if HasOwner(s, j) {
        var u :| 0 <= u < |s.threads| && s.threads[u].InFlight() && s.threads[u].k == j;
        assert s'.threads[u].InFlight() && s'.threads[u].k == j;
      }
    }
    forall u | 0 <= u < |s'.threads| ensures ThreadOk(s', u) {
      assert ThreadOk(s, u);
      if u != t && s.threads[u].InFlight() { assert s.threads[u].k != k; }
    }
  }

  lemma ClaimKeepsInv(s: State, s': State, t: nat)
    requires Inv(s) && ClaimStep(s, s', t)
    ensures Inv(s')
  {
    assert ThreadOk(s, t);
    match s.threads[t]
    case AddOpt(_, _) => AddOptKeepsInv(s, s', t);
    case LoadTail(k) =>
      assert TicketOk(s, k);
      assert s.log[k := s.log[k]] == s.log;
      OwnTicketKeepsInv(s, s', t, k, s'.log[k]);
    case AddOver(k, _, _) =>
      assert TicketOk(s, k);
      OwnTicketKeepsInv(s, s', t, k, s'.log[k]);
    case AddHead(k, _) =>
      assert TicketOk(s, k);
      OwnTicketKeepsInv(s, s', t, k, s'.log[k]);
    case _ => LocalKeepsInv(s, s', t);
  }

  lemma StepKeepsInv(s: State, s': State)
    requires Inv(s) && Next(s, s')
    ensures Inv(s')
  {
    if Enqueue(s, s') {
      EnqueueKeepsInv(s, s');
    } else if t :| ClaimStep(s, s', t) {
      ClaimKeepsInv(s, s', t);
    } else if t, max :| Call(s, s', t, max) {
      LocalKeepsInv(s, s', t);
    } else {
      var t :| Finish(s, s', t);
      LocalKeepsInv(s, s', t);
    }
  }

  // ---------- whole runs ----------

  ghost predicate Run(run: seq<State>) {
    |run| > 0 && forall i | 0 <= i < |run| :: Follows(run, i)
  }

  /** The first state is an initial one, every other is one step after the one before. */
  ghost predicate Follows(run: seq<State>, i: nat)
    requires i < |run|
  {
    if i == 0 then Init(run[0]) else Next(run[i - 1], run[i])
  }

  ghost predicate Reachable(s: State) {
    exists run: seq<State> :: Run(run) && run[|run| - 1] == s
  }

  lemma {:induction false} RunInv(run: seq<State>, i: nat)
    requires Run(run) && i < |run|
    ensures Inv(run[i])
  {
    assert Follows(run, i);
    if i > 0 {
      RunInv(run, i - 1);
      StepKeepsInv(run[i - 1], run[i]);
    }
  }

  lemma ReachableInv(s: State)
    requires Reachable(s)
    ensures Inv(s)
  {
    var run: seq<State> :| Run(run) && run[|run| - 1] == s;
    RunInv(run, |run| - 1);
  }

  // ---------- main results ----------

  /** With any mix of single and bulk consumers, a maximum of 0 included, the indices claimed never exceed the
      elements enqueued. */
  lemma ClaimsNeverExceedTail(s: State)
    requires Reachable(s)
    ensures s.head <= s.tail
  {
    ReachableInv(s);
    HeadBounded(s);
  }

  /** Every index below the head was claimed by one thread, and a thread that is consuming owns its whole
      range: two threads never hold the same index. */
  lemma ClaimsDisjoint(s: State, t: nat, u: nat, i: nat)
    requires Reachable(s) && t < |s.threads| && u < |s.threads|
    requires s.threads[t].Claimed? && s.threads[t].first <= i < s.threads[t].first + s.threads[t].count
    requires s.threads[u].Claimed? && s.threads[u].first <= i < s.threads[u].first + s.threads[u].count
    ensures t == u && i < s.tail
  {
    ReachableInv(s);
    HeadBounded(s);
    assert ThreadOk(s, t) && ThreadOk(s, u);
    assert s.owner[i] == t && s.owner[i] == u;
  }

  /** With no consumer between its optimistic increment and its claim, optimistic count less overcommit is
      the number of indices claimed. */
  lemma QuietCounters(s: State)
    requires Reachable(s) && forall t | 0 <= t < |s.threads| :: !s.threads[t].InFlight()
    ensures s.opt - s.over == s.head
  {
    ReachableInv(s);
    QuietBalance(s);
  }

  lemma QuietBalance(s: State)
    requires Inv(s) && forall t | 0 <= t < |s.threads| :: !s.threads[t].InFlight()
    ensures s.opt - s.over == s.head
  {
    forall k | 0 <= k < |s.log| ensures Settled(s.log[k]) { assert Settled(s.log[k]) || HasOwner(s, k); }
    SettledSums(s.log);
  }

  lemma {:induction false} SettledSums(log: seq<Ticket>)
    requires forall k | 0 <= k < |log| :: Settled(log[k])
    ensures Sum(log, Want) == Sum(log, Failed) + Sum(log, Claims)
  {
    if log != [] { SettledSums(log[..|log| - 1]); }
  }

  /** The assertion `overcommit <= myDequeueCount` of the source (lines 1719, 1977, 2274 and 2497). */
  lemma OvercommitAtMostCount(s: State, t: nat)
    requires Reachable(s) && t < |s.threads| && s.threads[t].LoadTail?
    ensures s.threads[t].k < |s.log| && s.log[s.threads[t].k].over <= s.log[s.threads[t].k].my
  {
    ReachableInv(s);
    assert ThreadOk(s, t) && TicketOk(s, s.threads[t].k);
    PrefixBalance(s, s.threads[t].k);
  }

  /** A thread that works on its claim can take its next step. */
  lemma NeverStuck(s: State, t: nat) returns (s': State)
    requires Reachable(s) && t < |s.threads| && !s.threads[t].Idle?
    ensures ClaimStep(s, s', t) || Finish(s, s', t)
  {
    ReachableInv(s);
    assert ThreadOk(s, t);
    if s.threads[t].Claimed? {
      s' := Go(s, t, Idle);
    } else if s.threads[t].InFlight() {
      s' := SettlesOn(s, t);
    } else {
      s' := AsksOn(s, t);
    }
  }

  lemma AsksOn(s: State, t: nat) returns (s': State)
    requires t < |s.threads| && (s.threads[t].LoadOver? || s.threads[t].LoadOpt? || s.threads[t].AddOpt?)
    ensures ClaimStep(s, s', t)
  {
    match s.threads[t]
    case LoadOver(max, tail) => s' := Go(s, t, LoadOpt(max, tail, s.over));
    case LoadOpt(max, tail, over) =>
      var desired := tail - (s.opt - over);
      s' := Go(s, t, if desired > 0 then AddOpt(Min(desired, max), over) else Idle);
    case AddOpt(want, over) =>
      s' := Go(s, t, LoadTail(|s.log|)).(opt := s.opt + want, log := s.log + [Ticket(s.opt, want, over, 0, 0, 0, 0)]);
  }

  lemma SettlesOn(s: State, t: nat) returns (s': State)
    requires t < |s.threads| && s.threads[t].InFlight() && s.threads[t].k < |s.log|
    ensures ClaimStep(s, s', t)
  {
    match s.threads[t]
    case LoadTail(k) =>
      var x := s.log[k];
      var actual := s.tail - (x.my - x.over);
      if actual > 0 {
        var got := Min(x.want, actual);
        s' := Go(s, t, if got < x.want then AddOver(k, got, x.want - got) else AddHead(k, got)).(
                log := s.log[k := x.(seen := s.tail, got := got)]);
      } else {
        s' := Go(s, t, AddOver(k, 0, x.want)).(log := s.log[k := x.(seen := s.tail)]);
      }
    case AddOver(k, got, short) =>
      s' := Go(s, t, if got > 0 then AddHead(k, got) else Idle).(
              over := s.over + short, log := s.log[k := s.log[k].(failed := short)]);
    case AddHead(k, got) =>
      s' := Go(s, t, Claimed(s.head, got)).(head := s.head + got, log := s.log[k := s.log[k].(claimed := got)],
                                            owner := s.owner + seq(got, _ => t));
  }

  // ---------- when a claim ends with nothing ----------

  /** A claim that asks for nothing has seen that what was asked for before, less the overcommit it read, reaches the
      tail it read; and one that gives back all it asked for has seen the same of its own ticket. */
  lemma NothingOnlyWhenAskedFor(s: State, s': State, t: nat)
    requires Reachable(s) && t < |s.threads| && ClaimStep(s, s', t)
    ensures s.threads[t].LoadOpt? ==>
              && s.threads[t].tail <= s.tail && s.threads[t].over <= s.over
              && (s'.threads[t].Idle? <==> Sum(s.log, Want) - s.threads[t].over >= s.threads[t].tail)
    ensures s.threads[t].AddOver? && s'.threads[t].Idle? ==>
              && s.threads[t].k < |s.log|
              && var x := s.log[s.threads[t].k];
                 && x.seen <= s.tail && x.over <= s.over && x.failed == 0
                 && (x.want == 0 || Sum(s.log[..s.threads[t].k], Want) - x.over >= x.seen)
    ensures s'.threads[t].Idle? ==> s.threads[t].LoadOpt? || s.threads[t].AddOver?
    ensures s'.threads[t].Idle? ==> s'.head == s.head && s'.owner == s.owner
  {
    ReachableInv(s);
    assert ThreadOk(s, t);
    if s.threads[t].AddOver? {
      var k := s.threads[t].k;
      assert TicketOk(s, k);
      FailedGrows(s.log, k);
    }
  }

  lemma {:induction false} FailedGrows(log: seq<Ticket>, k: nat)
    requires k <= |log|
    ensures Sum(log[..k], Failed) <= Sum(log, Failed)
  {
    if k == |log| {
      assert log[..k] == log;
    } else {
      var n := |log| - 1;
      assert log[..n][..k] == log[..k];
      FailedGrows(log[..n], k);
    }
  }

  /** Thread t calls with a maximum and then takes steps of its claim, while no other thread steps. */
  ghost predicate Alone(path: seq<State>, t: nat, max: nat) {
    && |path| >= 2 && Call(path[0], path[1], t, max)
    && forall i | 1 <= i < |path| - 1 :: ClaimsAt(path, i, t)
  }

  ghost predicate ClaimsAt(path: seq<State>, i: nat, t: nat)
    requires i + 1 < |path|
  {
    ClaimStep(path[i], path[i + 1], t)
  }

  /** No claim is under way: some threads may be consuming what they have claimed. */
  ghost predicate Quiet(s: State) {
    forall t | 0 <= t < |s.threads| :: !s.threads[t].InFlight()
  }

  ghost predicate SameCounts(s: State, s': State) {
    s'.tail == s.tail && s'.head == s.head && s'.opt == s.opt && s'.over == s.over && s'.log == s.log
  }

  /** How many steps are left of a claim that is granted all it asks for. */
  function Left(pc: Pc): nat {
    match pc
    case LoadOver(_, _) => 5
    case LoadOpt(_, _, _) => 4
    case AddOpt(_, _) => 3
    case LoadTail(_) => 2
    case AddHead(_, _) => 1
    case _ => 0
  }

  /** What thread t alone has made of state a: it asks for as many elements as it may, and is granted them. */
  ghost predicate Progress(a: State, s: State, t: nat, max: nat) {
    var want := Min(max, a.tail - a.head);
    && t < |a.threads| == |s.threads| && s.threads == a.threads[t := s.threads[t]] && s.tail == a.tail
    && match s.threads[t]
       case LoadOver(m, tail) => SameCounts(a, s) && m == max && tail == a.tail
       case LoadOpt(m, tail, over) => SameCounts(a, s) && m == max && tail == a.tail && over == a.over
       case AddOpt(w, over) => SameCounts(a, s) && w == want && over == a.over
       case LoadTail(k) =>
         && k < |s.log| && s.log[k].my == a.opt && s.log[k].over == a.over && s.log[k].want == want && s.head == a.head
       case AddHead(_, got) => got == want && s.head == a.head
       case Claimed(first, count) => first == a.head && count == want && s.head == a.head + want
       case _ => false
  }

  lemma StepProgress(a: State, s: State, s': State, t: nat, max: nat)
    requires a.opt - a.over == a.head < a.tail && max >= 1 && Progress(a, s, t, max) && ClaimStep(s, s', t)
    ensures Progress(a, s', t, max) && Left(s'.threads[t]) == Left(s.threads[t]) - 1
  {
  }

  lemma {:induction false} PathProgress(path: seq<State>, i: nat, t: nat, max: nat)
    requires Alone(path, t, max) && 1 <= i < |path|
    requires path[0].opt - path[0].over == path[0].head < path[0].tail && max >= 1
    ensures Progress(path[0], path[i], t, max) && Left(path[i].threads[t]) == 6 - i
  {
    if i > 1 {
      PathProgress(path, i - 1, t, max);
      assert ClaimsAt(path, i - 1, t);
      StepProgress(path[0], path[i - 1], path[i], t, max);
    }
  }

  /** Called alone while there are elements, a claim takes as many as it may, from the head on. It is over after six
      steps, and not before. */
  lemma LoneClaim(path: seq<State>, t: nat, max: nat)
    requires Alone(path, t, max) && Reachable(path[0]) && Quiet(path[0]) && path[0].head < path[0].tail && max >= 1
    ensures |path| <= 7 && t < |path[|path| - 1].threads|
    ensures var s, s', count := path[0], path[|path| - 1], Min(max, path[0].tail - path[0].head);
            if |path| < 7 then !s'.threads[t].Idle? && !s'.threads[t].Claimed?
            else s'.threads[t] == Claimed(s.head, count) && s'.head == s.head + count && s'.tail == s.tail
  {
    QuietCounters(path[0]);
    PathProgress(path, |path| - 1, t, max);
  }

  /** And such a path exists. */
  lemma LoneClaimEnds(s: State, t: nat, max: nat) returns (path: seq<State>)
    requires Reachable(s) && Quiet(s) && t < |s.threads| && s.threads[t].Idle? && s.head < s.tail && max >= 1
    ensures |path| == 7 && path[0] == s && Alone(path, t, max)
  {
    path := [s, Go(s, t, LoadOver(max, s.tail))];
    assert Alone(path, t, max);
    CallReachable(s, path[1], t, max);
    while |path| < 7
      invariant 2 <= |path| <= 7 && path[0] == s && Alone(path, t, max) && Reachable(path[|path| - 1])
      decreases 7 - |path|
    {
      LoneClaim(path, t, max);
      var last := path[|path| - 1];
      var next := NeverStuck(last, t);
      var path' := path + [next];
      forall i | 1 <= i < |path'| - 1 ensures ClaimsAt(path', i, t) {
        assert i < |path| - 1 ==> ClaimsAt(path, i, t);
      }
      ClaimReachable(last, next, t);
      path := path';
    }
  }

  lemma ClaimReachable(s: State, s': State, t: nat)
    requires Reachable(s) && ClaimStep(s, s', t)
    ensures Reachable(s')
  {
    StepReachable(s, s');
  }

  lemma CallReachable(s: State, s': State, t: nat, max: nat)
    requires Reachable(s) && Call(s, s', t, max)
    ensures Reachable(s')
  {
    StepReachable(s, s');
  }

  lemma StepReachable(s: State, s': State)
    requires Reachable(s) && Next(s, s')
    ensures Reachable(s')
  {
    var run: seq<State> :| Run(run) && run[|run| - 1] == s;
    var run' := run + [s'];
    forall i | 0 <= i < |run'| ensures Follows(run', i) {
      assert i < |run| ==> Follows(run, i);
    }
    assert Run(run') && run'[|run'| - 1] == s';
  }
}
