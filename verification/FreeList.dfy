/** The lock-free free list of include/thirdparty/concurrentqueue.h:1175-1288, used by any number of threads.

  Nodes are numbers. Every load, store, fetch_add and compare-and-exchange is one step. The word
  `freeListRefs` is kept as its flag bit `SHOULD_BE_ON_FREELIST` and its count `REFS_MASK`.
 */
module FreeList {
  import Sets

  datatype Option<+T> = None | Some(value: T)

  datatype Refs = Refs(flag: bool, count: nat)

  datatype Node = Node(refs: Refs, next: Option<nat>)

  /** What follows a push: `add` returns, `try_get` goes on with the head it saw last. */
  datatype After = Return | Retry(head: Option<nat>)

  /** Where a thread stands, named by its next access: `Add...` in `add_knowing_refcount_is_zero`, `Get...`
      in `try_get`. */
  datatype Pc =
    | Idle
    | AddLoad(n: nat, after: After)
    | AddNext(n: nat, head: Option<nat>, after: After)
    | AddRefs(n: nat, head: Option<nat>, after: After)
    | AddCas(n: nat, head: Option<nat>, after: After)
    | AddUndo(n: nat, head: Option<nat>, after: After)
    | GetHead
    | GetRefs(n: nat)
    | GetInc(n: nat, refs: Refs)
    | GetNext(n: nat)
    | GetCas(n: nat, next: Option<nat>)
    | GetTake(n: nat)
    | GetDrop(n: nat, head: Option<nat>)
    | GetDone(r: Option<nat>)
  {
    predicate Resting() { Idle? || GetDone? }
    /** The thread counts itself in the node's reference count. */
    predicate Holds(m: nat) { (GetNext? || GetCas? || GetDrop?) && n == m }
    predicate Pushes(m: nat) { (AddLoad? || AddNext? || AddRefs? || AddCas? || AddUndo?) && n == m }
    /** The pusher has given the node the list's reference and it can be seen by others. */
    predicate Exposed() { AddCas? || AddUndo? }
  }

  /** History of a node: with a client, on the list, taken off it by t, being pushed by t, or to be pushed
      by whoever drops its last reference. */
  datatype Status = Held | Listed | Taken(t: nat) | Pushing(t: nat) | Flagged

  /** `list` is the list from the head and `status` the nodes' history; no step reads them. */
  datatype State = State(nodes: seq<Node>, head: Option<nat>, threads: seq<Pc>, list: seq<nat>, status: seq<Status>)

  ghost predicate Init(s: State) {
    && (forall n | 0 <= n < |s.nodes| :: s.nodes[n] == Node(Refs(false, 0), None))
    && s.head == None && s.list == []
    && (forall t | 0 <= t < |s.threads| :: s.threads[t] == Idle)
    && |s.status| == |s.nodes| && (forall n | 0 <= n < |s.nodes| :: s.status[n] == Held)
  }

  function Resume(after: After): Pc {
    match after
    case Return => Idle
    case Retry(None) => GetDone(None)
    case Retry(Some(h)) => GetRefs(h)
  }

  ghost function Go(s: State, t: nat, pc: Pc): State
    requires t < |s.threads|
  {
    s.(threads := s.threads[t := pc])
  }

  ghost function SetRefs(s: State, n: nat, r: Refs): State
    requires n < |s.nodes|
  {
    s.(nodes := s.nodes[n := s.nodes[n].(refs := r)])
  }

  /** A thread outside calls `add` with a node a client holds, or `try_get`. The first access of `add` sets
      the flag bit, which is known to be clear. */
  ghost predicate CallStep(s: State, s': State, t: nat, n: nat)
    requires t < |s.threads|
  {
    && s.threads[t].Resting()
    && (|| s' == Go(s, t, GetHead)
        || (&& n < |s.nodes| == |s.status| && s.status[n] == Held
            && var r := s.nodes[n].refs;
               s' == SetRefs(if r == Refs(false, 0) then
                               Go(s, t, AddLoad(n, Return)).(status := s.status[n := Pushing(t)])
                             else Go(s, t, Idle).(status := s.status[n := Flagged]),
                             n, Refs(true, r.count))))
  }

  ghost predicate AddStep(s: State, s': State, t: nat)
    requires t < |s.threads|
  {
    var pc := s.threads[t];
    && (pc.AddLoad? || pc.AddNext? || pc.AddRefs? || pc.AddCas? || pc.AddUndo?)
    && var n := pc.n;
    && n < |s.nodes| == |s.status|
    && match pc
       case AddLoad(_, after) => s' == Go(s, t, AddNext(n, s.head, after))
       case AddNext(_, head, after) =>
         s' == Go(s, t, AddRefs(n, head, after)).(nodes := s.nodes[n := s.nodes[n].(next := head)])
       case AddRefs(_, head, after) => s' == SetRefs(Go(s, t, AddCas(n, head, after)), n, Refs(false, 1))
       case AddCas(_, head, after) =>
         if s.head == head then
           s' == Go(s, t, Resume(after)).(head := Some(n), list := [n] + s.list, status := s.status[n := Listed])
         else
           s' == Go(s, t, AddUndo(n, s.head, after))
       case AddUndo(_, head, after) =>
         var r := s.nodes[n].refs;
         && !r.flag && r.count >= 1
         && s' == SetRefs(if r == Refs(false, 1) then Go(s, t, AddNext(n, head, after))
                          else Go(s, t, Resume(after)).(status := s.status[n := Flagged]),
                          n, Refs(true, r.count - 1))
       case _ => false
  }

  ghost predicate GetStep(s: State, s': State, t: nat)
    requires t < |s.threads|
  {
    match s.threads[t]
    case GetHead => s' == Go(s, t, if s.head == None then GetDone(None) else GetRefs(s.head.value))
    case GetRefs(n) =>
      && n < |s.nodes|
      && s' == Go(s, t, if s.nodes[n].refs.count == 0 then GetHead else GetInc(n, s.nodes[n].refs))
    case GetInc(n, refs) =>
      && n < |s.nodes|
      && if s.nodes[n].refs == refs then s' == SetRefs(Go(s, t, GetNext(n)), n, refs.(count := refs.count + 1))
         else s' == Go(s, t, GetHead)
    case GetNext(n) => n < |s.nodes| && s' == Go(s, t, GetCas(n, s.nodes[n].next))
    case GetCas(n, next) =>
      if s.head == Some(n) then
        && n < |s.status| && |s.list| > 0
        && s' == Go(s, t, GetTake(n)).(head := next, list := s.list[1..], status := s.status[n := Taken(t)])
      else
        s' == Go(s, t, GetDrop(n, s.head))
    case GetTake(n) =>
      && n < |s.nodes| == |s.status| && s.nodes[n].refs.count >= 2
      && s' == SetRefs(Go(s, t, GetDone(Some(n))).(status := s.status[n := Held]),
                       n, s.nodes[n].refs.(count := s.nodes[n].refs.count - 2))
    case GetDrop(n, head) =>
      && n < |s.nodes| == |s.status| && s.nodes[n].refs.count >= 1
      && var r := s.nodes[n].refs;
         s' == SetRefs(if r == Refs(true, 1) then
                         Go(s, t, AddLoad(n, Retry(head))).(status := s.status[n := Pushing(t)])
                       else Go(s, t, Resume(Retry(head))),
                       n, r.(count := r.count - 1))
    case _ => false
  }

  ghost predicate ThreadStep(s: State, s': State, t: nat) {
    t < |s.threads| && ((exists n :: CallStep(s, s', t, n)) || AddStep(s, s', t) || GetStep(s, s', t))
  }

  ghost predicate Next(s: State, s': State) {
    exists t :: ThreadStep(s, s', t)
  }

  // ---------- the invariant ----------

  ghost function Holders(s: State, n: nat): set<nat> {
    set t | 0 <= t < |s.threads| && s.threads[t].Holds(n)
  }

  ghost predicate NodeOk(s: State, n: nat)
    requires n < |s.nodes| == |s.status|
  {
    var r, h := s.nodes[n].refs, |Holders(s, n)|;
    match s.status[n]
    case Held => r == Refs(false, h)
    case Listed => r == Refs(false, h + 1)
    case Taken(t) => r == Refs(false, h + 2) && t < |s.threads| && s.threads[t] == GetTake(n)
    case Flagged => r == Refs(true, h) && h >= 1
    case Pushing(t) =>
      && t < |s.threads| && s.threads[t].Pushes(n)
      && (if s.threads[t].Exposed() then r == Refs(false, h + 1) else r == Refs(true, 0) && h == 0)
      && (s.threads[t].AddRefs? || s.threads[t].AddCas? ==> s.nodes[n].next == s.threads[t].head)
  }

  ghost predicate InRange(s: State, o: Option<nat>) {
    o.Some? ==> o.value < |s.nodes|
  }

  ghost predicate ThreadOk(s: State, t: nat)
    requires t < |s.threads| && |s.nodes| == |s.status|
  {
    var pc := s.threads[t];
    && (!pc.Resting() && !pc.GetHead? ==> pc.n < |s.nodes|)
    && (pc.AddLoad? || pc.AddNext? || pc.AddRefs? || pc.AddCas? || pc.AddUndo? ==>
          && s.status[pc.n] == Pushing(t)
          && (pc.after.Retry? ==> InRange(s, pc.after.head))
          && (!pc.AddLoad? ==> InRange(s, pc.head)))
    && (pc.GetTake? ==> s.status[pc.n] == Taken(t))
    && (pc.GetCas? ==> pc.next == s.nodes[pc.n].next)
    && (pc.GetDrop? ==> InRange(s, pc.head))
    && (pc.GetInc? ==> pc.refs.count >= 1)
  }

  function Successor(list: seq<nat>, i: nat): Option<nat> {
    if i + 1 < |list| then Some(list[i + 1]) else None
  }

  ghost predicate ListOk(s: State)
    requires |s.nodes| == |s.status|
  {
    && s.head == (if s.list == [] then None else Some(s.list[0]))
    && (forall i | 0 <= i < |s.list| :: s.list[i] < |s.nodes|)
    && (forall i | 0 <= i < |s.list| :: s.nodes[s.list[i]].next == Successor(s.list, i))
    && (forall i, j | 0 <= i < j < |s.list| :: s.list[i] != s.list[j])
    && (forall n | 0 <= n < |s.nodes| :: s.status[n] == Listed <==> n in s.list)
  }

  ghost predicate Inv(s: State) {
    && |s.nodes| == |s.status|
    && (forall n | 0 <= n < |s.nodes| :: NodeOk(s, n) && InRange(s, s.nodes[n].next))
    && (forall t | 0 <= t < |s.threads| :: ThreadOk(s, t))
    && ListOk(s)
  }

  /** A thread that gains or loses a reference changes the number of holders by one. */
  lemma HoldersAfter(s: State, s': State, t: nat, n: nat)
    requires t < |s.threads| && |s'.threads| == |s.threads| && s'.threads == s.threads[t := s'.threads[t]]
    ensures |Holders(s', n)| == |Holders(s, n)|
              - (if s.threads[t].Holds(n) then 1 else 0) + (if s'.threads[t].Holds(n) then 1 else 0)
  {
    var a, b := Holders(s, n), Holders(s', n);
    assert forall u | 0 <= u < |s.threads| && u != t :: s'.threads[u] == s.threads[u];
    if s.threads[t].Holds(n) {
      if s'.threads[t].Holds(n) { assert a == b; } else { assert a == b + {t}; }
    } else {
      if s'.threads[t].Holds(n) { assert b == a + {t}; } else { assert a == b; }
    }
  }

  lemma InitInv(s: State)
    requires Init(s)
    ensures Inv(s)
  {
    forall n | 0 <= n < |s.nodes| ensures NodeOk(s, n) {
      assert Holders(s, n) == {};
    }
  }

  /** A step of thread t that concerns no node but n. */
  ghost predicate Concerns(s: State, s': State, t: nat, n: nat) {
    && t < |s.threads| == |s'.threads| && n < |s.nodes| == |s'.nodes| && |s.nodes| == |s.status| == |s'.status|
    && s'.threads == s.threads[t := s'.threads[t]]
    && (forall m | 0 <= m < |s.nodes| && m != n :: s'.nodes[m] == s.nodes[m] && s'.status[m] == s.status[m])
  }

  ghost predicate NodesOkBut(s: State, n: nat)
    requires |s.nodes| == |s.status|
  {
    forall m | 0 <= m < |s.nodes| && m != n :: NodeOk(s, m) && InRange(s, s.nodes[m].next)
  }

  ghost predicate ThreadsOkBut(s: State, t: nat)
    requires |s.nodes| == |s.status|
  {
    forall u | 0 <= u < |s.threads| && u != t :: ThreadOk(s, u)
  }

  /** Steps after which the list is the same and no other node or thread is concerned. */
  lemma OthersKept(s: State, s': State, t: nat, n: nat)
    requires Inv(s) && Concerns(s, s', t, n)
    requires s.threads[t].Resting() || s.threads[t].GetHead? || s.threads[t].n == n
    requires s'.threads[t].Resting() || s'.threads[t].GetHead? || s'.threads[t].GetRefs? || s'.threads[t].n == n
    ensures NodesOkBut(s', n)
  {
    forall m | 0 <= m < |s.nodes| && m != n ensures NodeOk(s', m) && InRange(s', s'.nodes[m].next) {
      assert NodeOk(s, m) && InRange(s, s.nodes[m].next);
      HoldersAfter(s, s', t, m);
    }
  }

  /** The threads other than t are not concerned either, unless they read `next` of a node being pushed. */
  lemma ThreadsKept(s: State, s': State, t: nat, n: nat)
    requires Inv(s) && Concerns(s, s', t, n)
    requires s'.nodes[n].next == s.nodes[n].next || |Holders(s, n)| == 0
    requires s'.status[n] == s.status[n] || !(s.status[n].Pushing? || s.status[n].Taken?) || s.status[n].t == t
    ensures ThreadsOkBut(s', t)
  {
    forall u | 0 <= u < |s.threads| && u != t ensures ThreadOk(s', u) {
      assert ThreadOk(s, u);
      if s.threads[u].GetCas? && s.threads[u].n == n {
        assert u in Holders(s, n);
      }
    }
  }

  /** The list when no head moves and no node joins or leaves it. */
  lemma ListKept(s: State, s': State, n: nat)
    requires Inv(s) && n < |s.nodes| && |s'.nodes| == |s.nodes| == |s'.status|
    requires s'.head == s.head && s'.list == s.list
    requires forall m | 0 <= m < |s.nodes| && m != n :: s'.nodes[m] == s.nodes[m] && s'.status[m] == s.status[m]
    requires s'.nodes[n].next == s.nodes[n].next || s.status[n] != Listed
    requires s'.status[n] == Listed <==> s.status[n] == Listed
    ensures ListOk(s')
  {
    forall i | 0 <= i < |s'.list| ensures s'.nodes[s'.list[i]].next == Successor(s'.list, i) {
      assert s.list[i] in s.list && s.nodes[s.list[i]].next == Successor(s.list, i);
    }
  }

  /** A step of t that rewrites node n, and neither the head nor the list. */
  lemma NodeStepKeepsInv(s: State, s': State, t: nat, n: nat)
    requires Inv(s) && Concerns(s, s', t, n) && s'.head == s.head && s'.list == s.list
    requires s.threads[t].Resting() || s.threads[t].GetHead? || s.threads[t].n == n
    requires s'.threads[t].Resting() || s'.threads[t].GetHead? || s'.threads[t].GetRefs? || s'.threads[t].n == n
    requires s'.nodes[n].next == s.nodes[n].next || (|Holders(s, n)| == 0 && s.status[n] != Listed)
    requires s'.status[n] == s.status[n] || !(s.status[n].Pushing? || s.status[n].Taken?) || s.status[n].t == t
    requires s'.status[n] == Listed <==> s.status[n] == Listed
    requires NodeOk(s', n) && InRange(s', s'.nodes[n].next) && ThreadOk(s', t)
    ensures Inv(s')
  {
    OthersKept(s, s', t, n);
    ThreadsKept(s, s', t, n);
    ListKept(s, s', n);
  }

  lemma CallKeepsInv(s: State, s': State, t: nat, n: nat)
    requires Inv(s) && t < |s.threads| && CallStep(s, s', t, n)
    ensures Inv(s')
  {
    if s' == Go(s, t, GetHead) {
      LocalKeepsInv(s, s', t);
    } else {
      assert NodeOk(s, n);
      HoldersAfter(s, s', t, n);
      NodeStepKeepsInv(s, s', t, n);
    }
  }

  /** Steps that change nothing but the thread's position, and no reference. */
  lemma LocalKeepsInv(s: State, s': State, t: nat)
    requires Inv(s) && t < |s.threads| && t < |s'.threads| && s' == Go(s, t, s'.threads[t])
    requires s.threads[t].Resting() || s.threads[t].GetHead? || s.threads[t].GetRefs? || s.threads[t].GetInc?
          || s.threads[t].GetNext? || s.threads[t].GetCas? || s.threads[t].AddLoad? || s.threads[t].AddCas?
    requires forall n :: s'.threads[t].Holds(n) <==> s.threads[t].Holds(n)
    requires forall n :: s'.threads[t].Pushes(n) <==> s.threads[t].Pushes(n)
    requires s'.threads[t].Exposed() <==> s.threads[t].Exposed()
    requires !s'.threads[t].AddRefs? && !s'.threads[t].AddCas? && !s'.threads[t].GetTake?
    requires ThreadOk(s', t)
    ensures Inv(s')
  {
    forall n | 0 <= n < |s.nodes| ensures NodeOk(s', n) && InRange(s', s'.nodes[n].next) {
      assert NodeOk(s, n) && InRange(s, s.nodes[n].next);
      HoldersAfter(s, s', t, n);
    }
    forall u | 0 <= u < |s.threads| && u != t ensures ThreadOk(s', u) {
      assert ThreadOk(s, u);
    }
    if |s.nodes| > 0 { ListKept(s, s', 0); }
  }

  lemma AddNextKeepsInv(s: State, s': State, t: nat)
    requires Inv(s) && t < |s.threads| && s.threads[t].AddNext? && AddStep(s, s', t)
    ensures Inv(s')
  {
    var n := s.threads[t].n;
    assert ThreadOk(s, t) && NodeOk(s, n);
    HoldersAfter(s, s', t, n);
    NodeStepKeepsInv(s, s', t, n);
  }

  lemma AddRefsKeepsInv(s: State, s': State, t: nat)
    requires Inv(s) && t < |s.threads| && s.threads[t].AddRefs? && AddStep(s, s', t)
    ensures Inv(s')
  {
    var n := s.threads[t].n;
    assert ThreadOk(s, t) && NodeOk(s, n);
    HoldersAfter(s, s', t, n);
    NodeStepKeepsInv(s, s', t, n);
  }

  lemma AddUndoKeepsInv(s: State, s': State, t: nat)
    requires Inv(s) && t < |s.threads| && s.threads[t].AddUndo? && AddStep(s, s', t)
    ensures Inv(s')
  {
    var n := s.threads[t].n;
    assert ThreadOk(s, t) && NodeOk(s, n);
    UndoneNodeOk(s, s', t, n);
    NodeStepKeepsInv(s, s', t, n);
  }

  /** The node whose push failed: nobody else holds it and it is tried again, or it is left to its holders. */
  lemma UndoneNodeOk(s: State, s': State, t: nat, n: nat)
    requires t < |s.threads| && n < |s.nodes| == |s.status| && s.threads[t].AddUndo? && s.threads[t].n == n
    requires NodeOk(s, n) && InRange(s, s.nodes[n].next) && ThreadOk(s, t) && AddStep(s, s', t)
    ensures Concerns(s, s', t, n) && NodeOk(s', n) && InRange(s', s'.nodes[n].next) && ThreadOk(s', t)
  {
    HoldersAfter(s, s', t, n);
  }

  /** The exchange that puts a node on the list. Its `next` is the head it replaces. */
  lemma PushKeepsInv(s: State, s': State, t: nat)
    requires Inv(s) && t < |s.threads| && s.threads[t].AddCas? && s.head == s.threads[t].head
    requires AddStep(s, s', t)
    ensures Inv(s')
  {
    var n := s.threads[t].n;
    assert ThreadOk(s, t) && NodeOk(s, n);
    PushKeepsList(s, s', n);
    PushKeepsRest(s, s', t, n);
  }

  lemma PushKeepsRest(s: State, s': State, t: nat, n: nat)
    requires Inv(s) && Concerns(s, s', t, n) && s.threads[t].AddCas? && s.threads[t].n == n
    requires s'.threads[t] == Resume(s.threads[t].after)
    requires s'.nodes == s.nodes && s'.status == s.status[n := Listed]
    ensures NodesOkBut(s', n) && NodeOk(s', n) && InRange(s', s'.nodes[n].next)
    ensures ThreadsOkBut(s', t) && ThreadOk(s', t)
  {
    assert ThreadOk(s, t) && NodeOk(s, n);
    PushedNodeOk(s, s', t, n);
    OthersKept(s, s', t, n);
    ThreadsKept(s, s', t, n);
  }

  lemma PushedNodeOk(s: State, s': State, t: nat, n: nat)
    requires Concerns(s, s', t, n) && s.threads[t].AddCas? && s.threads[t].n == n
    requires ThreadOk(s, t) && NodeOk(s, n) && InRange(s, s.nodes[n].next)
    requires s'.threads[t] == Resume(s.threads[t].after)
    requires s'.nodes == s.nodes && s'.status == s.status[n := Listed]
    ensures NodeOk(s', n) && InRange(s', s'.nodes[n].next) && ThreadOk(s', t)
  {
    HoldersAfter(s, s', t, n);
  }

  lemma PushKeepsList(s: State, s': State, n: nat)
    requires Inv(s) && n < |s.nodes| && s.status[n] != Listed && s.nodes[n].next == s.head
    requires s'.nodes == s.nodes && s'.status == s.status[n := Listed]
    requires s'.head == Some(n) && s'.list == [n] + s.list
    ensures ListOk(s')
  {
    assert n !in s.list;
    forall i | 0 <= i < |s'.list| ensures s'.nodes[s'.list[i]].next == Successor(s'.list, i) {
      if i > 0 { assert s'.list[i] == s.list[i - 1] && s.nodes[s.list[i - 1]].next == Successor(s.list, i - 1); }
    }
    forall m | 0 <= m < |s.nodes| ensures s'.status[m] == Listed <==> m in s'.list {
      assert m in s'.list <==> m == n || m in s.list;
    }
  }

  /** The exchange that takes the first node off the list. The thread has held a reference since before it
      read `next`, so what it installs is the node's successor. */
  lemma PopKeepsInv(s: State, s': State, t: nat)
    requires Inv(s) && t < |s.threads| && s.threads[t].GetCas? && s.head == Some(s.threads[t].n)
    requires GetStep(s, s', t)
    ensures Inv(s')
  {
    var n := s.threads[t].n;
    assert ThreadOk(s, t) && NodeOk(s, n);
    assert s.list[0] == n && n in s.list;
    HoldersAfter(s, s', t, n);
    OthersKept(s, s', t, n);
    ThreadsKept(s, s', t, n);
    PopKeepsList(s, s', n, t);
  }

  lemma PopKeepsList(s: State, s': State, n: nat, t: nat)
    requires |s.nodes| == |s.status| && ListOk(s) && |s.list| > 0 && s.list[0] == n
    requires s'.nodes == s.nodes && s'.status == s.status[n := Taken(t)]
    requires s'.head == s.nodes[n].next && s'.list == s.list[1..]
    ensures ListOk(s')
  {
    assert s.list == [n] + s'.list;
    assert s.nodes[s.list[0]].next == Successor(s.list, 0);
    forall i | 0 <= i < |s'.list| ensures s'.nodes[s'.list[i]].next == Successor(s'.list, i) {
      assert s'.list[i] == s.list[i + 1] && s.nodes[s.list[i + 1]].next == Successor(s.list, i + 1);
    }
    forall i | 0 <= i < |s'.list| ensures s'.list[i] != n {
      assert s.list[0] != s.list[i + 1];
    }
    forall m | 0 <= m < |s.nodes| ensures s'.status[m] == Listed <==> m in s'.list {
      assert m in s.list <==> m == n || m in s'.list;
    }
  }

  lemma AddKeepsInv(s: State, s': State, t: nat)
    requires Inv(s) && t < |s.threads| && AddStep(s, s', t)
    ensures Inv(s')
  {
    assert ThreadOk(s, t);
    match s.threads[t]
    case AddLoad(_, _) => LocalKeepsInv(s, s', t);
    case AddNext(_, _, _) => AddNextKeepsInv(s, s', t);
    case AddRefs(_, _, _) => AddRefsKeepsInv(s, s', t);
    case AddUndo(_, _, _) => AddUndoKeepsInv(s, s', t);
    case AddCas(_, head, _) =>
      if s.head == head { PushKeepsInv(s, s', t); } else { LocalKeepsInv(s, s', t); }
  }

  lemma GetIncKeepsInv(s: State, s': State, t: nat)
    requires Inv(s) && t < |s.threads| && s.threads[t].GetInc? && GetStep(s, s', t) && s'.threads[t].GetNext?
    ensures Inv(s')
  {
    var n := s.threads[t].n;
    assert ThreadOk(s, t) && NodeOk(s, n);
    HoldersAfter(s, s', t, n);
    NodeStepKeepsInv(s, s', t, n);
  }

  lemma GetTakeKeepsInv(s: State, s': State, t: nat)
    requires Inv(s) && t < |s.threads| && s.threads[t].GetTake? && GetStep(s, s', t)
    ensures Inv(s')
  {
    var n := s.threads[t].n;
    assert ThreadOk(s, t) && NodeOk(s, n);
    HoldersAfter(s, s', t, n);
    NodeStepKeepsInv(s, s', t, n);
  }

  lemma GetDropKeepsInv(s: State, s': State, t: nat)
    requires Inv(s) && t < |s.threads| && s.threads[t].GetDrop? && GetStep(s, s', t)
    ensures Inv(s')
  {
    var n := s.threads[t].n;
    assert ThreadOk(s, t) && NodeOk(s, n) && t in Holders(s, n);
    HoldersAfter(s, s', t, n);
    NodeStepKeepsInv(s, s', t, n);
  }

  lemma GetKeepsInv(s: State, s': State, t: nat)
    requires Inv(s) && t < |s.threads| && GetStep(s, s', t)
    ensures Inv(s')
  {
    assert ThreadOk(s, t);
    match s.threads[t]
    case GetInc(_, _) => if s'.threads[t].GetNext? { GetIncKeepsInv(s, s', t); } else { LocalKeepsInv(s, s', t); }
    case GetCas(n, _) => if s.head == Some(n) { PopKeepsInv(s, s', t); } else { LocalKeepsInv(s, s', t); }
    case GetTake(_) => GetTakeKeepsInv(s, s', t);
    case GetDrop(_, _) => GetDropKeepsInv(s, s', t);
    case _ => LocalKeepsInv(s, s', t);
  }

  lemma StepKeepsInv(s: State, s': State, t: nat)
    requires Inv(s) && ThreadStep(s, s', t)
    ensures Inv(s')
  {
    if AddStep(s, s', t) {
      AddKeepsInv(s, s', t);
    } else if GetStep(s, s', t) {
      GetKeepsInv(s, s', t);
    } else {
      var n :| CallStep(s, s', t, n);
      CallKeepsInv(s, s', t, n);
    }
  }

  // ---------- whole runs ----------

  ghost predicate Run(run: seq<State>) {
    |run| > 0 && forall i | 0 <= i < |run| :: Follows(run, i)
  }

  /** The first state is an initial one, every other is one step after the one before. */
  ghost predicate Follows(run: seq<State>, i: nat)
    requires i < |run|
  {
    if i == 0 then Init(run[0]) else Next(run[i - 1], run[i])
  }

  ghost predicate Reachable(s: State) {
    exists run: seq<State> :: Run(run) && run[|run| - 1] == s
  }

  lemma RunInv(run: seq<State>, i: nat)
    requires Run(run) && i < |run|
    ensures Inv(run[i])
  {
    assert Follows(run, 0);
    InitInv(run[0]);
    var k := 0;
    while k < i
      invariant k <= i && Inv(run[k])
    {
      assert Follows(run, k + 1);
      NextKeepsInv(run[k], run[k + 1]);
      k := k + 1;
    }
  }

  lemma NextKeepsInv(s: State, s': State)
    requires Inv(s) && Next(s, s')
    ensures Inv(s')
  {
    var t :| ThreadStep(s, s', t);
    StepKeepsInv(s, s', t);
  }

  lemma ReachableInv(s: State)
    requires Reachable(s)
    ensures Inv(s)
  {
    var run: seq<State> :| Run(run) && run[|run| - 1] == s;
    var i := |run| - 1;
    RunInv(run, i);
    assert run[i] == s;
  }

  // ---------- main results ----------

  /** The list reached from the head by `next` is `list`; no node is on it twice. */
  lemma NeverListedTwice(s: State)
    requires Reachable(s)
    ensures s.head == (if s.list == [] then None else Some(s.list[0]))
    ensures forall i | 0 <= i < |s.list| ::
              s.list[i] < |s.nodes| && s.nodes[s.list[i]].next == Successor(s.list, i)
    ensures forall i, j | 0 <= i < j < |s.list| :: s.list[i] != s.list[j]
  {
    ReachableInv(s);
  }

  /** The exchange of `try_get` replaces the head by its successor, whatever happened since the thread read
      it: a stale `next` is never installed. The exchange of `add` puts its node in front of the list. */
  lemma HeadNeverStale(s: State, s': State, t: nat)
    requires Reachable(s) && ThreadStep(s, s', t)
    ensures s.threads[t].GetCas? && s'.threads[t].GetTake? ==>
              s.list != [] && s.list[0] == s.threads[t].n && s'.list == s.list[1..] && s'.head == Successor(s.list, 0)
    ensures s.threads[t].AddCas? && !s'.threads[t].AddUndo? ==>
              s'.list == [s.threads[t].n] + s.list && s'.nodes[s.threads[t].n].next == s.head
    ensures s'.list != s.list ==> s.threads[t].GetCas? || s.threads[t].AddCas?
  {
    ReachableInv(s);
    assert ThreadOk(s, t);
    if s.list != [] { assert s.nodes[s.list[0]].next == Successor(s.list, 0); }
    if s.threads[t].AddCas? { assert NodeOk(s, s.threads[t].n); }
  }

  /** A node `try_get` returns is in nobody else's hands: not with a client, not on the list, not being
      pushed, and no other thread is returning it. */
  lemma HandedToOne(s: State, s': State, t: nat)
    requires Reachable(s) && ThreadStep(s, s', t) && s.threads[t].GetTake?
    ensures var n := s.threads[t].n;
            && s'.threads[t] == GetDone(Some(n))
            && n < |s.nodes| == |s.status| && s.status[n] == Taken(t) && s'.status[n] == Held
            && n !in s.list && !s.nodes[n].refs.flag
            && (forall u | 0 <= u < |s.threads| :: !s.threads[u].Pushes(n))
            && (forall u | 0 <= u < |s.threads| && u != t :: s.threads[u] != GetTake(n))
  {
    ReachableInv(s);
    var n := s.threads[t].n;
    assert ThreadOk(s, t) && NodeOk(s, n);
    forall u | 0 <= u < |s.threads|
      ensures !s.threads[u].Pushes(n) && (u != t ==> s.threads[u] != GetTake(n))
    {
      assert ThreadOk(s, u);
    }
  }

  /** No added node is lost. It is on the list, or just one thread is pushing it, or just one thread is
      taking it, or it is flagged and a thread still holds a reference to it. */
  lemma NeverLost(s: State, n: nat)
    requires Reachable(s) && n < |s.nodes| == |s.status| && s.status[n] != Held
    ensures || n in s.list
            || (exists t :: 0 <= t < |s.threads| && s.threads[t].Pushes(n) &&
                  forall u | 0 <= u < |s.threads| && u != t :: !s.threads[u].Pushes(n))
            || (exists t :: 0 <= t < |s.threads| && s.threads[t] == GetTake(n) &&
                  forall u | 0 <= u < |s.threads| && u != t :: s.threads[u] != GetTake(n))
            || (s.nodes[n].refs.flag && exists t :: 0 <= t < |s.threads| && s.threads[t].Holds(n))
  {
    ReachableInv(s);
    assert NodeOk(s, n);
    match s.status[n]
    case Listed =>
    case Pushing(t) =>
      forall u | 0 <= u < |s.threads| && u != t ensures !s.threads[u].Pushes(n) { assert ThreadOk(s, u); }
    case Taken(t) =>
      forall u | 0 <= u < |s.threads| && u != t ensures s.threads[u] != GetTake(n) { assert ThreadOk(s, u); }
    case Flagged =>
      assert Holders(s, n) != {};
      var t :| t in Holders(s, n);
  }

  /** With no call in flight, every node is either with a client or on the list, and its reference word says
      which. */
  lemma QuietList(s: State, n: nat)
    requires Reachable(s) && n < |s.nodes| == |s.status|
    requires forall t | 0 <= t < |s.threads| :: s.threads[t].Resting()
    ensures s.status[n] == Listed ==> n in s.list && s.nodes[n].refs == Refs(false, 1)
    ensures s.status[n] != Listed ==> s.status[n] == Held && n !in s.list && s.nodes[n].refs == Refs(false, 0)
  {
    ReachableInv(s);
    assert NodeOk(s, n);
    assert Holders(s, n) == {};
  }

  /** The count stays below the number of threads plus two, so with fewer than 2^31 - 2 threads it never
      runs into the flag bit of the 32-bit word. */
  lemma CountFits(s: State, n: nat)
    requires Reachable(s) && n < |s.nodes|
    ensures s.nodes[n].refs.count <= |s.threads| + 1
  {
    ReachableInv(s);
    assert NodeOk(s, n);
    var all := Sets.Range(0, |s.threads|);
    Sets.SubsetSize(Holders(s, n), all);
    if t: nat :| s.status[n] == Taken(t) {
      assert |all - {t}| == |all| - 1;
      Sets.SubsetSize(Holders(s, n), all - {t});
    }
  }

  /** Every thread in a call can take its next step: nothing the steps above ask for beyond what the source tests
      ever fails. */
  lemma NeverStuck(s: State, t: nat) returns (s': State)
    requires Reachable(s) && t < |s.threads| && !s.threads[t].Resting()
    ensures ThreadStep(s, s', t)
  {
    ReachableInv(s);
    assert ThreadOk(s, t);
    if s.threads[t].GetHead? {
      s' := Go(s, t, if s.head == None then GetDone(None) else GetRefs(s.head.value));
      assert GetStep(s, s', t);
      return;
    }
    assert NodeOk(s, s.threads[t].n);
    if s.threads[t].AddLoad? || s.threads[t].AddNext? || s.threads[t].AddRefs? || s.threads[t].AddCas?
              || s.threads[t].AddUndo? {
      s' := AddsOn(s, t);
    } else {
      s' := GetsOn(s, t);
    }
  }

  lemma AddsOn(s: State, t: nat) returns (s': State)
    requires |s.nodes| == |s.status| && t < |s.threads| && ThreadOk(s, t)
    requires s.threads[t].AddLoad? || s.threads[t].AddNext? || s.threads[t].AddRefs? || s.threads[t].AddCas?
             || s.threads[t].AddUndo?
    requires NodeOk(s, s.threads[t].n)
    ensures AddStep(s, s', t)
  {
    match s.threads[t]
    case AddLoad(n, after) => s' := Go(s, t, AddNext(n, s.head, after));
    case AddNext(n, head, after) => s' := Go(s, t, AddRefs(n, head, after)).(nodes := s.nodes[n := s.nodes[n].(next := head)]);
    case AddRefs(n, head, after) => s' := SetRefs(Go(s, t, AddCas(n, head, after)), n, Refs(false, 1));
    case AddCas(n, head, after) =>
      if s.head == head {
        s' := Go(s, t, Resume(after)).(head := Some(n), list := [n] + s.list, status := s.status[n := Listed]);
      } else {
        s' := Go(s, t, AddUndo(n, s.head, after));
      }
    case AddUndo(n, head, after) =>
      var r := s.nodes[n].refs;
      s' := SetRefs(if r == Refs(false, 1) then Go(s, t, AddNext(n, head, after))
                    else Go(s, t, Resume(after)).(status := s.status[n := Flagged]), n, Refs(true, r.count - 1));
  }

  lemma GetsOn(s: State, t: nat) returns (s': State)
    requires |s.nodes| == |s.status| && t < |s.threads| && ThreadOk(s, t) && ListOk(s)
    requires s.threads[t].GetRefs? || s.threads[t].GetInc? || s.threads[t].GetNext? || s.threads[t].GetCas?
             || s.threads[t].GetTake? || s.threads[t].GetDrop?
    requires NodeOk(s, s.threads[t].n)
    ensures GetStep(s, s', t)
  {
    match s.threads[t]
    case GetRefs(n) => s' := Go(s, t, if s.nodes[n].refs.count == 0 then GetHead else GetInc(n, s.nodes[n].refs));
    case GetInc(n, refs) =>
      s' := if s.nodes[n].refs == refs then SetRefs(Go(s, t, GetNext(n)), n, refs.(count := refs.count + 1))
            else Go(s, t, GetHead);
    case GetNext(n) => s' := Go(s, t, GetCas(n, s.nodes[n].next));
    case GetCas(n, next) =>
      s' := if s.head == Some(n) then
              Go(s, t, GetTake(n)).(head := next, list := s.list[1..], status := s.status[n := Taken(t)])
            else Go(s, t, GetDrop(n, s.head));
    case GetTake(n) =>
      s' := SetRefs(Go(s, t, GetDone(Some(n))).(status := s.status[n := Held]),
                    n, s.nodes[n].refs.(count := s.nodes[n].refs.count - 2));
    case GetDrop(n, head) =>
      assert t in Holders(s, n);
      var r := s.nodes[n].refs;
      s' := SetRefs(if r == Refs(true, 1) then
                      Go(s, t, AddLoad(n, Retry(head))).(status := s.status[n := Pushing(t)])
                    else Go(s, t, Resume(Retry(head))), n, r.(count := r.count - 1));
  }

  // ---------- when `try_get` finds nothing ----------

  /** The list with an observation: the threads for which it was empty at some moment of the current (or last) call. */
  datatype Watch = Watch(core: State, emptySeen: set<nat>)

  /** One step of thread t; a thread that rests starts a call with it. */
  ghost predicate WatchStep(w: Watch, w': Watch, t: nat) {
    && ThreadStep(w.core, w'.core, t)
    && forall u | 0 <= u < |w'.core.threads| ::
         u in w'.emptySeen <==> (u in w.emptySeen && !(u == t && w.core.threads[t].Resting())) || w'.core.list == []
  }

  ghost predicate WatchNext(w: Watch, w': Watch) {
    exists t :: WatchStep(w, w', t)
  }

  ghost predicate WatchInit(w: Watch) {
    Init(w.core) && forall u | 0 <= u < |w.core.threads| :: u in w.emptySeen
  }

  ghost predicate WatchRun(run: seq<Watch>) {
    |run| > 0 && forall i | 0 <= i < |run| :: WatchFollows(run, i)
  }

  ghost predicate WatchFollows(run: seq<Watch>, i: nat)
    requires i < |run|
  {
    if i == 0 then WatchInit(run[0]) else WatchNext(run[i - 1], run[i])
  }

  ghost predicate WatchReachable(w: Watch) {
    exists run: seq<Watch> :: WatchRun(run) && run[|run| - 1] == w
  }

  /** The head that the thread saw last was null. */
  predicate SawNone(pc: Pc) {
    || pc == GetDone(None)
    || (pc.GetDrop? && pc.head == None)
    || ((pc.AddLoad? || pc.AddNext? || pc.AddRefs? || pc.AddCas? || pc.AddUndo?) && pc.after == Retry(None))
  }

  ghost predicate WatchOk(w: Watch, u: nat)
    requires u < |w.core.threads|
  {
    && (w.core.list == [] && !w.core.threads[u].Resting() ==> u in w.emptySeen)
    && (SawNone(w.core.threads[u]) ==> u in w.emptySeen)
  }

  ghost predicate WatchInv(w: Watch) {
    Inv(w.core) && forall u | 0 <= u < |w.core.threads| :: WatchOk(w, u)
  }

  /** A thread comes to have seen a null head only by looking at an empty list in its call. */
  lemma SeesNone(s: State, s': State, t: nat)
    requires s.head == None ==> s.list == []
    requires ThreadStep(s, s', t) && t < |s'.threads| && SawNone(s'.threads[t]) && !SawNone(s.threads[t])
    ensures s.list == [] && !s.threads[t].Resting()
  {
    if s.threads[t].Resting() {
      NotAtOnce(s, s', t);
    } else if AddStep(s, s', t) {
      AddSeesNothing(s, s', t);
    } else {
      GetSeesNone(s, s', t);
    }
  }

  lemma AddSeesNothing(s: State, s': State, t: nat)
    requires t < |s.threads| && AddStep(s, s', t) && t < |s'.threads| && SawNone(s'.threads[t])
    ensures SawNone(s.threads[t])
  {
  }

  lemma GetSeesNone(s: State, s': State, t: nat)
    requires t < |s.threads| && GetStep(s, s', t) && t < |s'.threads| && SawNone(s'.threads[t]) && !SawNone(s.threads[t])
    ensures s.head == None
  {
  }

  lemma OthersStand(s: State, s': State, t: nat)
    requires ThreadStep(s, s', t)
    ensures |s'.threads| == |s.threads| && forall u | 0 <= u < |s.threads| && u != t :: s'.threads[u] == s.threads[u]
  {
  }

  lemma WatchKeeps(w: Watch, w': Watch, t: nat)
    requires |w.core.nodes| == |w.core.status| && ListOk(w.core) && WatchStep(w, w', t)
    requires forall u | 0 <= u < |w.core.threads| :: WatchOk(w, u)
    ensures forall u | 0 <= u < |w'.core.threads| :: WatchOk(w', u)
  {
    OthersStand(w.core, w'.core, t);
    forall u | 0 <= u < |w'.core.threads| ensures WatchOk(w', u) {
      assert WatchOk(w, u);
      if u == t && SawNone(w'.core.threads[t]) {
        if !SawNone(w.core.threads[t]) {
          SeesNone(w.core, w'.core, t);
        } else if w.core.threads[t].Resting() {
          NotAtOnce(w.core, w'.core, t);
        }
      }
    }
  }

  /** A thread that rests and starts a call has not looked yet. */
  lemma NotAtOnce(s: State, s': State, t: nat)
    requires ThreadStep(s, s', t) && t < |s'.threads| && s.threads[t].Resting()
    ensures !SawNone(s'.threads[t])
  {
  }

  lemma WatchRunInv(run: seq<Watch>, i: nat)
    requires WatchRun(run) && i < |run|
    ensures WatchInv(run[i])
  {
    assert WatchFollows(run, 0);
    InitInv(run[0].core);
    var k := 0;
    while k < i
      invariant k <= i && WatchInv(run[k])
    {
      assert WatchFollows(run, k + 1);
      WatchKeepsInv(run[k], run[k + 1]);
      k := k + 1;
    }
  }

  lemma WatchKeepsInv(w: Watch, w': Watch)
    requires WatchInv(w) && WatchNext(w, w')
    ensures WatchInv(w')
  {
    var t :| WatchStep(w, w', t);
    StepKeepsInv(w.core, w'.core, t);
    WatchKeeps(w, w', t);
  }

  /** `try_get` returns null only if the list was empty at some moment of the call. */
  lemma NothingOnlyWhenEmpty(w: Watch, t: nat)
    requires WatchReachable(w) && t < |w.core.threads| && w.core.threads[t] == GetDone(None)
    ensures t in w.emptySeen
  {
    var run: seq<Watch> :| WatchRun(run) && run[|run| - 1] == w;
    NoneSeen(run, |run| - 1, t);
  }

  lemma NoneSeen(run: seq<Watch>, i: nat, t: nat)
    requires WatchRun(run) && i < |run| && t < |run[i].core.threads| && run[i].core.threads[t] == GetDone(None)
    ensures t in run[i].emptySeen
  {
    WatchRunInv(run, i);
    assert WatchOk(run[i], t);
  }

  // ---------- calls that nothing interrupts ----------

  /** Thread t calls `try_get`, and no other thread steps. */
  ghost predicate GetsAlone(path: seq<State>, t: nat) {
    && |path| >= 2 && t < |path[0].threads| && path[0].threads[t].Resting() && path[1] == Go(path[0], t, GetHead)
    && forall i | 1 <= i < |path| - 1 :: StepsAt(path, i, t)
  }

  ghost predicate StepsAt(path: seq<State>, i: nat, t: nat)
    requires i + 1 < |path|
  {
    t < |path[i].threads| && (AddStep(path[i], path[i + 1], t) || GetStep(path[i], path[i + 1], t))
  }

  function GetLeft(pc: Pc): nat {
    match pc
    case GetHead => 6
    case GetRefs(_) => 5
    case GetInc(_, _) => 4
    case GetNext(_) => 3
    case GetCas(_, _) => 2
    case GetTake(_) => 1
    case _ => 0
  }

  /** What `try_get` alone has made of a state whose list begins with n. */
  ghost predicate Gets(a: State, s: State, t: nat, n: nat) {
    && t < |a.threads| == |s.threads| && |a.list| > 0 && n < |a.nodes| == |s.nodes| == |s.status|
    && (GetLeft(s.threads[t]) >= 4 ==> s.nodes == a.nodes)
    && (GetLeft(s.threads[t]) >= 2 ==> s.head == Some(n) && s.list == a.list)
    && (GetLeft(s.threads[t]) < 2 ==> s.list == a.list[1..])
    && match s.threads[t]
       case GetHead => true
       case GetRefs(m) => m == n
       case GetInc(m, r) => m == n && r == a.nodes[n].refs
       case GetNext(m) => m == n
       case GetCas(m, _) => m == n
       case GetTake(m) => m == n
       case GetDone(r) => r == Some(n) && s.status[n] == Held
       case _ => false
  }

  lemma GetsOne(a: State, s: State, s': State, t: nat, n: nat)
    requires Gets(a, s, t, n) && a.nodes[n].refs.count >= 1 && t < |s.threads| && GetStep(s, s', t)
    ensures Gets(a, s', t, n) && GetLeft(s'.threads[t]) == GetLeft(s.threads[t]) - 1
  {
  }

  lemma {:induction false} PathGets(path: seq<State>, i: nat, t: nat, n: nat)
    requires GetsAlone(path, t) && 1 <= i < |path| && n < |path[0].nodes| == |path[0].status|
    requires |path[0].list| > 0 && path[0].head == Some(n) && path[0].nodes[n].refs.count >= 1
    ensures Gets(path[0], path[i], t, n) && GetLeft(path[i].threads[t]) == 7 - i
  {
    if i > 1 {
      PathGets(path, i - 1, t, n);
      assert StepsAt(path, i - 1, t);
      GetsOne(path[0], path[i - 1], path[i], t, n);
    }
  }

  lemma FirstListed(s: State)
    requires Reachable(s) && s.list != []
    ensures s.head == Some(s.list[0]) && s.list[0] < |s.nodes| == |s.status| && s.nodes[s.list[0]].refs.count >= 1
  {
    ReachableInv(s);
    assert s.list[0] in s.list && NodeOk(s, s.list[0]);
  }

  /** Called alone on a list that is not empty, whatever the other threads are in the middle of, `try_get` hands out the
      first node. It takes seven steps. */
  lemma LoneTryGet(path: seq<State>, t: nat)
    requires GetsAlone(path, t) && Reachable(path[0]) && path[0].list != []
    ensures |path| <= 8 && t < |path[|path| - 1].threads|
    ensures if |path| < 8 then !path[|path| - 1].threads[t].Resting()
            else && path[7].threads[t] == GetDone(Some(path[0].list[0])) && path[7].list == path[0].list[1..]
                 && path[0].list[0] < |path[7].status| && path[7].status[path[0].list[0]] == Held
  {
    FirstListed(path[0]);
    PathGets(path, |path| - 1, t, path[0].list[0]);
  }

  lemma StepReachable(s: State, s': State, t: nat)
    requires Reachable(s) && ThreadStep(s, s', t)
    ensures Reachable(s')
  {
    var run: seq<State> :| Run(run) && run[|run| - 1] == s;
    var run' := run + [s'];
    forall i | 0 <= i < |run'| ensures Follows(run', i) {
      assert i < |run| ==> Follows(run, i);
    }
    assert Run(run') && run'[|run'| - 1] == s';
  }

  /** And it can take them. */
  lemma LoneTryGetEnds(s: State, t: nat) returns (path: seq<State>)
    requires Reachable(s) && s.list != [] && t < |s.threads| && s.threads[t].Resting()
    ensures |path| == 8 && path[0] == s && GetsAlone(path, t)
  {
    path := [s, Go(s, t, GetHead)];
    assert CallStep(s, path[1], t, 0);
    StepReachable(s, path[1], t);
    while |path| < 8
      invariant 2 <= |path| <= 8 && path[0] == s && GetsAlone(path, t) && Reachable(path[|path| - 1])
      decreases 8 - |path|
    {
      LoneTryGet(path, t);
      var next := NeverStuck(path[|path| - 1], t);
      assert AddStep(path[|path| - 1], next, t) || GetStep(path[|path| - 1], next, t);
      StepReachable(path[|path| - 1], next, t);
      var path' := path + [next];
      forall i | 1 <= i < |path'| - 1 ensures StepsAt(path', i, t) {
        assert i < |path| - 1 ==> StepsAt(path, i, t);
      }
      path := path';
    }
  }

  /** How many steps are left of a push that nothing interrupts. */
  function PushLeft(pc: Pc): nat {
    match pc
    case AddLoad(_, _) => 4
    case AddNext(_, _, _) => 3
    case AddRefs(_, _, _) => 2
    case AddCas(_, _, _) => 1
    case _ => 0
  }

  ghost predicate PushesAlone(path: seq<State>, t: nat) {
    && |path| >= 1 && t < |path[0].threads| && path[0].threads[t].AddLoad?
    && forall i | 0 <= i < |path| - 1 :: StepsAt(path, i, t)
  }

  ghost predicate PushesOn(a: State, s: State, t: nat, n: nat, after: After) {
    && t < |a.threads| == |s.threads| && s.head == a.head && s.list == a.list
    && match s.threads[t]
       case AddLoad(m, f) => m == n && f == after
       case AddNext(m, h, f) => m == n && h == a.head && f == after
       case AddRefs(m, h, f) => m == n && h == a.head && f == after
       case AddCas(m, h, f) => m == n && h == a.head && f == after
       case _ => false
  }

  lemma {:induction false} PathPushes(path: seq<State>, i: nat, t: nat)
    requires PushesAlone(path, t) && i < |path| && i <= 3
    ensures PushesOn(path[0], path[i], t, path[0].threads[t].n, path[0].threads[t].after)
    ensures PushLeft(path[i].threads[t]) == 4 - i
  {
    if i > 0 {
      PathPushes(path, i - 1, t);
      assert StepsAt(path, i - 1, t);
    }
  }

  /** A push that nothing interrupts, begun by `add` or by the drop of a last reference, puts its node in front of the
      list in four steps. */
  lemma LonePush(path: seq<State>, t: nat)
    requires PushesAlone(path, t) && |path| >= 5
    ensures var n := path[0].threads[t].n; path[4].list == [n] + path[0].list && path[4].head == Some(n)
    ensures t < |path[4].threads| && path[4].threads[t] == Resume(path[0].threads[t].after)
  {
    PathPushes(path, 3, t);
    assert StepsAt(path, 3, t);
  }
}
