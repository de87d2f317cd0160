/** The background logger of include/thirdparty/spdlog/details/async_log_helper.h under the `block_retry`
  policy: any number of client threads, the destructor's thread and one worker share a bounded queue.

  Thread 0 of the queue is the worker, thread 1 runs the destructor, the others are clients. A step is one
  access of the queue, one write to one sink, or one local decision.
 */
module AsyncLog {
  import Q = MpmcQueue

  /** `off` is level `off`, the message that stops the worker. */
  datatype Msg = Msg(off: bool, text: string)

  datatype Worker = Polling | Sinking(m: Msg, k: nat) | Exited

  const WORKER: nat := 0
  const DTOR: nat := 1

  /** `sinks[k]` is what sink k has been given and `held[t]` the message of thread t's `log` call. `returned`
      maps the ticket of each `log` call that has returned to its message, `before` is what it was when the
      destructor started; both are history. */
  datatype State = State(
    q: Q.State<Msg>,
    worker: Worker,
    sinks: seq<seq<Msg>>,
    held: seq<Msg>,
    dtorStarted: bool,
    returned: map<nat, Msg>,
    before: map<nat, Msg>)

  ghost predicate Init(s: State) {
    && Q.Init(s.q) && |s.q.threads| >= 2
    && s.worker == Polling
    && (forall k | 0 <= k < |s.sinks| :: s.sinks[k] == [])
    && |s.held| == |s.q.threads|
    && !s.dtorStarted && s.returned == map[] && s.before == map[]
  }

  /** A thread inside `enqueue` or `dequeue` performs its next access. */
  ghost predicate QueueStep(s: State, s': State, t: nat) {
    && Q.Shape(s.q) && t < |s.q.threads|
    && (Q.EnqueueStep(s.q, s'.q, t) || Q.DequeueStep(s.q, s'.q, t))
    && s' == s.(q := s'.q)
  }

  /** A client enters `log` with a message of an ordinary level. */
  ghost predicate ClientLog(s: State, s': State, t: nat, m: Msg) {
    && DTOR < t < |s.q.threads| == |s.held| && s.q.threads[t].Idle?
    && !m.off
    && s' == s.(q := Q.Go(s.q, t, Q.EnqLoad(m)), held := s.held[t := m])
  }

  /** The destructor enters `log` with the level-off message. */
  ghost predicate StartDestructor(s: State, s': State, off: Msg) {
    && DTOR < |s.q.threads| == |s.held| && s.q.threads[DTOR].Idle? && !s.dtorStarted
    && off.off
    && s' == s.(q := Q.Go(s.q, DTOR, Q.EnqLoad(off)), held := s.held[DTOR := off],
                dtorStarted := true, before := s.returned)
  }

  /** `log` tries again after a full queue: a failed `enqueue` does not move from the message. */
  ghost predicate Retry(s: State, s': State, t: nat) {
    && DTOR <= t < |s.q.threads| == |s.held| && s.q.threads[t].EnqDone? && !s.q.threads[t].ok
    && s' == s.(q := Q.Go(s.q, t, Q.EnqLoad(s.held[t])))
  }

  /** `log` returns. */
  ghost predicate Return(s: State, s': State, t: nat) {
    && DTOR <= t < |s.q.threads| == |s.held| && s.q.threads[t].EnqDone? && s.q.threads[t].ok
    && s' == s.(q := Q.Go(s.q, t, Q.Idle), returned := s.returned[s.q.threads[t].pos := s.held[t]])
  }

  /** The worker outside the queue: `worker_loop` and `process_next_msg`. */
  ghost predicate WorkerStep(s: State, s': State) {
    && WORKER < |s.q.threads| && s.q.threads[WORKER].Resting()
    && match s.worker
       case Exited => false
       case Polling =>
         var pc := s.q.threads[WORKER];
         if pc.DeqDone? && pc.r.Some? then
           s' == s.(worker := if pc.r.value.off then Exited else Sinking(pc.r.value, 0))
         else
           s' == s.(q := Q.Go(s.q, WORKER, Q.DeqLoad))
       case Sinking(m, k) =>
         if k < |s.sinks| then
           s' == s.(sinks := s.sinks[k := s.sinks[k] + [m]], worker := Sinking(m, k + 1))
         else
           s' == s.(worker := Polling, q := Q.Go(s.q, WORKER, Q.DeqLoad))
  }

  /** A step of a client or of the destructor outside the queue, by thread t. */
  ghost predicate ClientStep(s: State, s': State, t: nat) {
    || (exists m :: ClientLog(s, s', t, m))
    || (t == DTOR && exists m :: StartDestructor(s, s', m))
    || Retry(s, s', t)
    || Return(s, s', t)
  }

  ghost predicate Next(s: State, s': State) {
    (exists t :: QueueStep(s, s', t)) || (exists t :: ClientStep(s, s', t)) || WorkerStep(s, s')
  }

  ghost predicate Run(run: seq<State>) {
    |run| > 0 && forall i | 0 <= i < |run| :: Follows(run, i)
  }

  /** The first state is an initial one, every other is one step after the one before. */
  ghost predicate Follows(run: seq<State>, i: nat)
    requires i < |run|
  {
    if i == 0 then Init(run[0]) else Next(run[i - 1], run[i])
  }

  /** Only the worker dequeues, only the destructor carries an off message. */
  ghost predicate RoleOk(s: State, t: nat)
    requires t < |s.q.threads| == |s.held| && |s.q.log| == s.q.enq
  {
    var pc := s.q.threads[t];
    if t == WORKER then
      pc.Idle? || pc.DeqLoad? || pc.DeqSeq? || pc.DeqCas? || pc.DeqRead? || pc.DeqRelease? || pc.DeqDone?
    else
      && (pc.Idle? || pc.EnqLoad? || pc.EnqSeq? || pc.EnqCas? || pc.EnqWrite? || pc.EnqPublish? || pc.EnqDone?)
      && (pc.EnqLoad? || pc.EnqSeq? || pc.EnqCas? || pc.EnqWrite? || pc.EnqPublish? ==>
            pc.v == s.held[t] && (t == DTOR ==> s.dtorStarted))
      && (!pc.Idle? ==> (t == DTOR <==> s.held[t].off))
      && (pc.EnqDone? && pc.ok ==> pc.pos < s.q.enq && s.q.log[pc.pos] == s.held[t])
      && (t == DTOR && pc.EnqDone? ==> s.dtorStarted)
  }

  /** How many messages sink k has been given, as a prefix of the ticket order. */
  ghost function Given(s: State, k: nat): int
    requires |s.q.threads| > WORKER
  {
    var pc := s.q.threads[WORKER];
    match s.worker
    case Polling => if pc.Reads() || (pc.DeqDone? && pc.r.Some?) then s.q.deq - 1 else s.q.deq
    case Sinking(_, j) => if k < j then s.q.deq else s.q.deq - 1
    case Exited => s.q.deq - 1
  }

  ghost predicate WorkerOk(s: State)
    requires |s.q.threads| > WORKER && |s.q.log| == s.q.enq && s.q.deq <= s.q.enq
  {
    var pc := s.q.threads[WORKER];
    && (pc.Reads() || (pc.DeqDone? && pc.r.Some?) ==> pc.pos == s.q.deq - 1)
    && (pc.DeqDone? && pc.r.Some? ==> s.q.deq > 0 && pc.r.value == s.q.log[pc.pos])
    && (s.worker.Sinking? ==> pc.DeqDone? && pc.r == Q.Some(s.worker.m) && !s.worker.m.off && s.worker.k <= |s.sinks|)
    && (s.worker.Exited? ==> pc.DeqDone? && pc.r.Some? && pc.r.value.off)
    && (forall k | 0 <= k < |s.sinks| :: 0 <= Given(s, k) && s.sinks[k] == s.q.log[..Given(s, k)])
  }

  /** Finished `log` calls own different published tickets. */
  ghost predicate TicketsOk(s: State)
    requires |s.q.log| == |s.q.phase| == s.q.enq
  {
    && (forall p | p in s.returned :: p < s.q.enq && s.returned[p] == s.q.log[p] && !s.q.phase[p].Writing?)
    && (forall t | 0 <= t < |s.q.threads| && Succeeded(s, t) ::
          var p := s.q.threads[t].pos; p !in s.returned && p < s.q.enq && !s.q.phase[p].Writing?)
    && (forall t, u | 0 <= t < u < |s.q.threads| && Succeeded(s, t) && Succeeded(s, u) ::
          s.q.threads[t].pos != s.q.threads[u].pos)
  }

  ghost predicate Succeeded(s: State, t: nat)
    requires t < |s.q.threads|
  {
    s.q.threads[t].EnqDone? && s.q.threads[t].ok
  }

  ghost predicate StopOk(s: State)
    requires |s.q.log| == s.q.enq
  {
    && (forall p | p in s.before :: p in s.returned && s.before[p] == s.returned[p])
    && (!s.dtorStarted ==> s.before == map[])
    && (forall p | 0 <= p < s.q.enq && s.q.log[p].off :: s.dtorStarted && forall b | b in s.before :: b < p)
  }

  ghost predicate Sized(s: State) {
    |s.q.threads| == |s.held| >= 2 && |s.q.log| == |s.q.phase| == s.q.enq && s.q.deq <= s.q.enq
  }

  ghost predicate RolesOk(s: State)
    requires Sized(s)
  {
    forall t | 0 <= t < |s.q.threads| :: RoleOk(s, t)
  }

  ghost predicate Inv(s: State) {
    && Q.Inv(s.q) && Sized(s)
    && RolesOk(s) && WorkerOk(s) && TicketsOk(s) && StopOk(s)
  }

  lemma InitInv(s: State)
    requires Init(s)
    ensures Inv(s)
  {
    Q.InitInv(s.q);
  }

  /** What a step inside `enqueue` can change, for the logger. */
  ghost predicate EnqueueEffect(s: State, s': State, t: nat)
    requires Sized(s) && t < |s.q.threads|
  {
    var pc := s.q.threads[t];
    && Sized(s') && s' == s.(q := s'.q)
    && (pc.EnqLoad? || pc.EnqSeq? || pc.EnqCas? || pc.EnqWrite? || pc.EnqPublish?)
    && |s'.q.threads| == |s.q.threads| && s'.q.deq == s.q.deq
    && (forall u | 0 <= u < |s.q.threads| && u != t :: s'.q.threads[u] == s.q.threads[u])
    && (s'.q.log == s.q.log || s'.q.log == s.q.log + [pc.v])
    && (var pc' := s'.q.threads[t];
        || ((pc'.EnqLoad? || pc'.EnqSeq? || pc'.EnqCas? || pc'.EnqWrite? || pc'.EnqPublish?) && pc'.v == pc.v)
        || (pc'.EnqDone? && !pc'.ok)
        || (pc'.EnqDone? && pc.EnqPublish? && pc'.pos == pc.pos < s.q.enq && s.q.phase[pc.pos].Writing?
            && s.q.log[pc.pos] == pc.v && s'.q.phase[pc.pos].Published?))
    && (forall p | 0 <= p < s.q.enq && s'.q.phase[p].Writing? :: s.q.phase[p].Writing?)
  }

  lemma EnqueueHasEffect(s: State, s': State, t: nat)
    requires Inv(s) && t < |s.q.threads| && Q.EnqueueStep(s.q, s'.q, t) && s' == s.(q := s'.q)
    ensures EnqueueEffect(s, s', t)
  {
    assert Q.ThreadOk(s.q, t);
  }

  lemma EnqueueKeepsRoles(s: State, s': State, t: nat)
    requires Sized(s) && RolesOk(s) && 0 < t < |s.q.threads| && EnqueueEffect(s, s', t)
    ensures RolesOk(s')
  {
    assert RoleOk(s, t);
    forall u | 0 <= u < |s'.q.threads| ensures RoleOk(s', u) {
      assert RoleOk(s, u);
    }
  }

  lemma EnqueueKeepsInv(s: State, s': State, t: nat)
    requires Sized(s) && RolesOk(s) && WorkerOk(s) && TicketsOk(s) && StopOk(s)
    requires 0 < t < |s.q.threads| && EnqueueEffect(s, s', t)
    ensures WorkerOk(s') && TicketsOk(s') && StopOk(s')
  {
    assert RoleOk(s, t);
    forall k | 0 <= k < |s'.sinks| ensures 0 <= Given(s', k) && s'.sinks[k] == s'.q.log[..Given(s', k)] {
      assert Given(s', k) == Given(s, k);
    }
    forall u | 0 <= u < |s'.q.threads| && u != t && Succeeded(s', u) ensures Succeeded(s, u) {
    }
  }

  /** What a step of the worker inside `dequeue` can change, for the logger. */
  ghost predicate DequeueEffect(s: State, s': State)
    requires Sized(s)
  {
    var pc, pc' := s.q.threads[WORKER], if |s'.q.threads| > 0 then s'.q.threads[WORKER] else Q.Idle;
    && Sized(s') && s' == s.(q := s'.q)
    && !pc.Resting() && s'.q.threads == s.q.threads[WORKER := pc']
    && s'.q.log == s.q.log
    && (pc'.DeqLoad? || pc'.DeqSeq? || pc'.DeqCas? || pc'.DeqRead? || pc'.DeqRelease? || pc'.DeqDone?)
    && (if pc'.Reads() && !pc.Reads() then s'.q.deq == s.q.deq + 1 && pc'.pos == s.q.deq
        else s'.q.deq == s.q.deq && (pc.Reads() <==> pc'.Reads() || (pc'.DeqDone? && pc'.r.Some?)))
    && (pc.Reads() ==> pc'.pos == pc.pos)
    && (pc'.DeqDone? && pc'.r.Some? ==> pc.pos < s.q.enq && pc'.r.value == s.q.log[pc.pos])
    && (forall p | 0 <= p < s.q.enq && s'.q.phase[p].Writing? :: s.q.phase[p].Writing?)
  }

  lemma DequeueHasEffect(s: State, s': State)
    requires Inv(s) && Q.DequeueStep(s.q, s'.q, WORKER) && s' == s.(q := s'.q)
    ensures DequeueEffect(s, s')
  {
    assert RoleOk(s, WORKER) && Q.ThreadOk(s.q, WORKER);
  }

  lemma DequeueKeepsInv(s: State, s': State)
    requires Sized(s) && RolesOk(s) && WorkerOk(s) && TicketsOk(s) && StopOk(s)
    requires DequeueEffect(s, s')
    ensures RolesOk(s') && WorkerOk(s') && TicketsOk(s') && StopOk(s')
  {
    assert RoleOk(s, WORKER);
    forall u | 0 <= u < |s'.q.threads| ensures RoleOk(s', u) {
      assert RoleOk(s, u);
    }
    forall k | 0 <= k < |s'.sinks| ensures 0 <= Given(s', k) && s'.sinks[k] == s'.q.log[..Given(s', k)] {
      assert Given(s', k) == Given(s, k);
    }
    forall u | 0 <= u < |s'.q.threads| && Succeeded(s', u) ensures u != WORKER && Succeeded(s, u) {
    }
  }

  lemma QueueStepKeepsInv(s: State, s': State, t: nat)
    requires Inv(s) && QueueStep(s, s', t)
    ensures Inv(s')
  {
    assert RoleOk(s, t);
    Q.StepKeepsInv(s.q, s'.q, t);
    if t == WORKER {
      DequeueHasEffect(s, s');
      DequeueKeepsInv(s, s');
    } else {
      EnqueueHasEffect(s, s', t);
      EnqueueKeepsRoles(s, s', t);
      EnqueueKeepsInv(s, s', t);
    }
  }

  /** Steps outside the queue that put one thread at the entry of an operation, or take it out of one. */
  ghost predicate Moves(s: State, s': State, t: nat)
    requires t < |s.q.threads|
  {
    && s.q.threads[t].Resting() && t < |s'.q.threads|
    && s'.q == Q.Go(s.q, t, s'.q.threads[t])
    && (s'.q.threads[t].Idle? || s'.q.threads[t].EnqLoad? || s'.q.threads[t].DeqLoad?)
  }

  lemma MoveKeepsQueue(s: State, s': State, t: nat)
    requires Inv(s) && t < |s.q.threads| && Moves(s, s', t)
    ensures Q.Inv(s'.q)
  {
    Q.LocalKeepsInv(s.q, s'.q, t);
  }

  lemma WorkerStepKeepsInv(s: State, s': State)
    requires Inv(s) && WorkerStep(s, s')
    ensures Inv(s')
  {
    assert RoleOk(s, WORKER);
    if s'.q != s.q { MoveKeepsQueue(s, s', WORKER); }
    WorkerKeepsRoles(s, s');
    WorkerKeepsRest(s, s');
  }

  lemma WorkerKeepsRoles(s: State, s': State)
    requires Sized(s) && RolesOk(s) && WorkerStep(s, s')
    ensures Sized(s') && RolesOk(s')
  {
    forall u | 0 <= u < |s'.q.threads| ensures RoleOk(s', u) {
      assert RoleOk(s, u);
    }
  }

  lemma WorkerKeepsRest(s: State, s': State)
    requires Sized(s) && RolesOk(s) && WorkerOk(s) && TicketsOk(s) && StopOk(s) && WorkerStep(s, s')
    ensures Sized(s') && WorkerOk(s') && TicketsOk(s') && StopOk(s')
  {
    assert RoleOk(s, WORKER);
    forall u | 0 <= u < |s'.q.threads| && Succeeded(s', u) ensures u != WORKER && Succeeded(s, u) {
    }
  }

  lemma ClientStepKeepsInv(s: State, s': State, t: nat)
    requires Inv(s) && ClientStep(s, s', t)
    ensures Inv(s')
  {
    MoveKeepsQueue(s, s', t);
    if Return(s, s', t) {
      ReturnKeepsRest(s, s', t);
    } else if Retry(s, s', t) {
      EntryKeepsRest(s, s', t, s.held[t]);
    } else {
      var m :| ClientLog(s, s', t, m) || (t == DTOR && StartDestructor(s, s', m));
      EntryKeepsRest(s, s', t, m);
    }
  }

  /** Entering `log`, for the first time or again. */
  lemma EntryKeepsRest(s: State, s': State, t: nat, m: Msg)
    requires Sized(s) && RolesOk(s) && WorkerOk(s) && TicketsOk(s) && StopOk(s)
    requires ClientLog(s, s', t, m) || (t == DTOR && StartDestructor(s, s', m)) || Retry(s, s', t)
    ensures Sized(s') && RolesOk(s') && WorkerOk(s') && TicketsOk(s') && StopOk(s')
  {
    assert RoleOk(s, t);
    forall u | 0 <= u < |s'.q.threads| ensures RoleOk(s', u) {
      assert RoleOk(s, u);
    }
    forall k | 0 <= k < |s'.sinks| ensures 0 <= Given(s', k) && s'.sinks[k] == s'.q.log[..Given(s', k)] {
      assert Given(s', k) == Given(s, k);
    }
    forall u | 0 <= u < |s'.q.threads| && Succeeded(s', u) ensures u != t && Succeeded(s, u) {
    }
  }

  lemma ReturnKeepsRest(s: State, s': State, t: nat)
    requires Sized(s) && RolesOk(s) && WorkerOk(s) && TicketsOk(s) && StopOk(s) && Return(s, s', t)
    ensures Sized(s') && RolesOk(s') && WorkerOk(s') && TicketsOk(s') && StopOk(s')
  {
    assert Succeeded(s, t);
    assert RoleOk(s, t);
    forall u | 0 <= u < |s'.q.threads| ensures RoleOk(s', u) {
      assert RoleOk(s, u);
    }
    forall k | 0 <= k < |s'.sinks| ensures 0 <= Given(s', k) && s'.sinks[k] == s'.q.log[..Given(s', k)] {
      assert Given(s', k) == Given(s, k);
    }
    forall u | 0 <= u < |s'.q.threads| && Succeeded(s', u) ensures u != t && Succeeded(s, u) {
    }
  }

  lemma StepKeepsInv(s: State, s': State)
    requires Inv(s) && Next(s, s')
    ensures Inv(s')
  {
    if t :| QueueStep(s, s', t) {
      QueueStepKeepsInv(s, s', t);
    } else if WorkerStep(s, s') {
      WorkerStepKeepsInv(s, s');
    } else {
      var t :| ClientStep(s, s', t);
      ClientStepKeepsInv(s, s', t);
    }
  }

  lemma {:induction false} RunInv(run: seq<State>, i: nat)
    requires Run(run) && i < |run|
    ensures Inv(run[i])
  {
    assert Follows(run, i);
    if i == 0 {
      InitInv(run[0]);
    } else {
      RunInv(run, i - 1);
      StepKeepsInv(run[i - 1], run[i]);
    }
  }

  /** When the worker has stopped, every sink holds exactly the messages whose tickets come before the
      off message, once each and in ticket order; and every message whose `log` call had returned when the
      destructor started is among them, at the place of its ticket. */
  lemma DrainedBeforeExit(run: seq<State>, i: nat, k: nat)
    requires Run(run) && i < |run| && run[i].worker.Exited? && k < |run[i].sinks|
    ensures var s := run[i];
            var n := |s.sinks[k]|;
            && n < |s.q.log| && s.sinks[k] == s.q.log[..n] && s.q.log[n].off
            && forall p | p in s.before :: p < n && s.sinks[k][p] == s.before[p]
  {
    RunInv(run, i);
    var s := run[i];
    assert Given(s, k) == s.q.deq - 1;
  }

  /** At every moment of every run each sink has been given a prefix of the ticket order. */
  lemma SinksInTicketOrder(run: seq<State>, i: nat, k: nat)
    requires Run(run) && i < |run| && k < |run[i].sinks|
    ensures run[i].sinks[k] <= run[i].q.log
  {
    RunInv(run, i);
    var s := run[i];
    assert s.sinks[k] == s.q.log[..Given(s, k)];
  }

  /** A `log` call that returns owns a ticket no other returned call owns, and its message is the one
      logged under that ticket. */
  lemma ReturnsOwnTicket(run: seq<State>, i: nat, t: nat)
    requires Run(run) && i + 1 < |run| && Return(run[i], run[i + 1], t)
    ensures var p := run[i].q.threads[t].pos;
            p !in run[i].returned && p < |run[i].q.log| && run[i].q.log[p] == run[i].held[t]
  {
    RunInv(run, i);
    assert Succeeded(run[i], t) && RoleOk(run[i], t);
  }

  // ---------- one ticket for each call ----------

  /** The logger with a count for each thread: how many tickets its current (or last) `log` call has won. */
  datatype Watch = Watch(core: State, tickets: seq<nat>)

  ghost predicate WatchQueueStep(w: Watch, w': Watch, t: nat) {
    && QueueStep(w.core, w'.core, t) && t < |w.tickets|
    && w'.tickets == if w'.core.q.enq != w.core.q.enq then w.tickets[t := w.tickets[t] + 1] else w.tickets
  }

  /** The count begins anew when the thread calls `log`, not when `log` tries again. */
  ghost predicate WatchClientStep(w: Watch, w': Watch, t: nat) {
    && ClientStep(w.core, w'.core, t) && t < |w.tickets|
    && w'.tickets == if w.core.q.threads[t].Idle? then w.tickets[t := 0] else w.tickets
  }

  ghost predicate WatchNext(w: Watch, w': Watch) {
    || (exists t :: WatchQueueStep(w, w', t))
    || (exists t :: WatchClientStep(w, w', t))
    || (WorkerStep(w.core, w'.core) && w'.tickets == w.tickets)
  }

  ghost predicate WatchFollows(run: seq<Watch>, i: nat)
    requires i < |run|
  {
    if i == 0 then
      && Init(run[0].core) && |run[0].tickets| == |run[0].core.q.threads|
      && forall t | 0 <= t < |run[0].tickets| :: run[0].tickets[t] == 0
    else WatchNext(run[i - 1], run[i])
  }

  ghost predicate WatchRun(run: seq<Watch>) {
    |run| > 0 && forall i | 0 <= i < |run| :: WatchFollows(run, i)
  }

  ghost predicate WatchReachable(w: Watch) {
    exists run: seq<Watch> :: WatchRun(run) && run[|run| - 1] == w
  }

  /** Before a call wins a ticket it has none, and from then on it has one. */
  ghost predicate CountOk(w: Watch, t: nat)
    requires t < |w.core.q.threads| == |w.tickets|
  {
    match w.core.q.threads[t]
    case EnqLoad(_) => w.tickets[t] == 0
    case EnqSeq(_, _) => w.tickets[t] == 0
    case EnqCas(_, _) => w.tickets[t] == 0
    case EnqWrite(_, _) => w.tickets[t] == 1
    case EnqPublish(_, _) => w.tickets[t] == 1
    case EnqDone(ok, _) => w.tickets[t] == if ok then 1 else 0
    case _ => w.tickets[t] <= 1
  }

  ghost predicate WatchInv(w: Watch) {
    Inv(w.core) && |w.core.q.threads| == |w.tickets| && forall t | 0 <= t < |w.tickets| :: CountOk(w, t)
  }

  lemma CallCounts(w: Watch, w': Watch, t: nat)
    requires WatchQueueStep(w, w', t) && |w.core.q.threads| == |w.tickets| && CountOk(w, t)
    ensures |w'.core.q.threads| == |w'.tickets| && CountOk(w', t)
  {
  }

  lemma QueueStepCounts(w: Watch, w': Watch, t: nat)
    requires |w.core.q.threads| == |w.tickets| && (forall u | 0 <= u < |w.tickets| :: CountOk(w, u))
    requires WatchQueueStep(w, w', t)
    ensures |w'.core.q.threads| == |w'.tickets| && forall u | 0 <= u < |w'.tickets| :: CountOk(w', u)
  {
    Q.OthersStand(w.core.q, w'.core.q, t);
    CallCounts(w, w', t);
    forall u | 0 <= u < |w'.tickets| ensures CountOk(w', u) {
      assert CountOk(w, u);
    }
  }

  lemma ClientMoves(s: State, s': State, t: nat)
    requires ClientStep(s, s', t)
    ensures t < |s.q.threads| == |s'.q.threads| && s'.q.threads == s.q.threads[t := s'.q.threads[t]]
    ensures s'.q.threads[t].EnqLoad? || (s'.q.threads[t].Idle? && s.q.threads[t].EnqDone?)
    ensures s.q.threads[t].EnqDone? && s'.q.threads[t].EnqLoad? ==> !s.q.threads[t].ok
    ensures s.q.threads[t].Idle? || s.q.threads[t].EnqDone?
  {
  }

  lemma ClientStepCounts(w: Watch, w': Watch, t: nat)
    requires |w.core.q.threads| == |w.tickets| && (forall u | 0 <= u < |w.tickets| :: CountOk(w, u))
    requires WatchClientStep(w, w', t)
    ensures |w'.core.q.threads| == |w'.tickets| && forall u | 0 <= u < |w'.tickets| :: CountOk(w', u)
  {
    ClientMoves(w.core, w'.core, t);
    forall u | 0 <= u < |w'.tickets| ensures CountOk(w', u) {
      assert CountOk(w, u);
    }
  }

  lemma WorkerStepCounts(w: Watch, w': Watch)
    requires |w.core.q.threads| == |w.tickets| && (forall u | 0 <= u < |w.tickets| :: CountOk(w, u))
    requires Sized(w.core) && RolesOk(w.core) && WorkerStep(w.core, w'.core) && w'.tickets == w.tickets
    ensures |w'.core.q.threads| == |w'.tickets| && forall u | 0 <= u < |w'.tickets| :: CountOk(w', u)
  {
    assert RoleOk(w.core, WORKER);
    forall u | 0 <= u < |w'.tickets| ensures CountOk(w', u) {
      assert CountOk(w, u);
    }
  }

  lemma WatchKeepsInv(w: Watch, w': Watch)
    requires WatchInv(w) && WatchNext(w, w')
    ensures WatchInv(w')
  {
    if t :| WatchQueueStep(w, w', t) {
      QueueStepKeepsInv(w.core, w'.core, t);
      QueueStepCounts(w, w', t);
    } else if t :| WatchClientStep(w, w', t) {
      ClientStepKeepsInv(w.core, w'.core, t);
      ClientStepCounts(w, w', t);
    } else {
      WorkerStepKeepsInv(w.core, w'.core);
      WorkerStepCounts(w, w');
    }
  }

  lemma WatchStarts(run: seq<Watch>)
    requires WatchRun(run)
    ensures WatchInv(run[0])
  {
    assert WatchFollows(run, 0);
    InitInv(run[0].core);
  }

  lemma WatchGoesOn(run: seq<Watch>, k: nat)
    requires WatchRun(run) && k + 1 < |run| && WatchInv(run[k])
    ensures WatchInv(run[k + 1])
  {
    assert WatchFollows(run, k + 1);
    WatchKeepsInv(run[k], run[k + 1]);
  }

  lemma WatchReachableInv(w: Watch)
    requires WatchReachable(w)
    ensures WatchInv(w)
  {
    var run: seq<Watch> :| WatchRun(run) && run[|run| - 1] == w;
    WatchStarts(run);
    var k := 0;
    while k < |run| - 1
      invariant k < |run| && WatchInv(run[k])
    {
      WatchGoesOn(run, k);
      k := k + 1;
    }
  }

  /** A `log` call that returns has put its message under just one ticket, and one that tries again has put it under
      none so far: the queue took nothing from the failed try. */
  lemma LogsOnce(w: Watch, w': Watch, t: nat)
    requires WatchReachable(w) && WatchClientStep(w, w', t)
    ensures Return(w.core, w'.core, t) ==>
              var p := w.core.q.threads[t].pos;
              w.tickets[t] == 1 && p < |w.core.q.log| && w.core.q.log[p] == w.core.held[t]
    ensures Retry(w.core, w'.core, t) ==> w.tickets[t] == 0
  {
    WatchReachableInv(w);
    assert CountOk(w, t) && RoleOk(w.core, t);
  }

  /** Tickets are won by `log` calls only, for the message of the call; and no call ever has two. */
  lemma TicketsAreForCalls(w: Watch, w': Watch, t: nat)
    requires WatchReachable(w) && WatchQueueStep(w, w', t)
    ensures w'.core.q.log != w.core.q.log ==>
              && t != WORKER && t < |w.core.held|
              && w'.core.q.log == w.core.q.log + [w.core.held[t]] && w.tickets[t] == 0 && w'.tickets[t] == 1
  {
    WatchReachableInv(w);
    assert CountOk(w, t) && RoleOk(w.core, t);
  }

  // ---------- the worker goes on ----------

  ghost predicate Reachable(s: State) {
    exists run: seq<State> :: Run(run) && run[|run| - 1] == s
  }

  /** The worker performs its next access, or its next step outside the queue. */
  ghost predicate WorkerMoves(s: State, s': State) {
    QueueStep(s, s', WORKER) || WorkerStep(s, s')
  }

  ghost predicate MovesAt(path: seq<State>, i: nat)
    requires i + 1 < |path|
  {
    WorkerMoves(path[i], path[i + 1])
  }

  ghost predicate WorkerPath(path: seq<State>) {
    |path| > 0 && forall i | 0 <= i < |path| - 1 :: MovesAt(path, i)
  }

  /** No ticket is being written. */
  ghost predicate AllPublished(s: State) {
    forall p | s.q.deq <= p < |s.q.phase| :: s.q.phase[p] == Q.Published
  }

  /** The worker has not passed ticket p: it is still in the queue, or in the worker's hands. */
  ghost predicate Ahead(s: State, p: nat)
    requires |s.q.threads| > WORKER
  {
    var pc := s.q.threads[WORKER];
    && p < |s.q.log| && s.q.log[p].off
    && (p >= s.q.deq || (s.worker.Polling? && p == s.q.deq - 1 && (pc.Reads() || (pc.DeqDone? && pc.r.Some?))))
  }

  /** How far the worker is from the next step that takes a ticket, or from the message after this one. */
  ghost function Distance(s: State): int
    requires |s.q.threads| > WORKER
  {
    var n := |s.sinks|;
    match s.worker
    case Exited => 0
    case Sinking(_, k) => n - k + 9
    case Polling =>
      match s.q.threads[WORKER]
      case DeqLoad => 3
      case DeqSeq(pos) => if pos == s.q.deq then 2 else 8
      case DeqCas(pos) => if pos == s.q.deq then 1 else 7
      case DeqRead(_) => n + 12
      case DeqRelease(_, _) => n + 11
      case DeqDone(r, _) => if r.Some? then n + 10 else 4
      case _ => 4
  }

  /** Every ticket costs the worker less than this. */
  ghost function Left(s: State): int
    requires |s.q.threads| > WORKER
  {
    (s.q.enq - s.q.deq) * (|s.sinks| + 13) + Distance(s)
  }

  ghost predicate Shut(s: State, p: nat) {
    Inv(s) && AllPublished(s) && s.q.deq <= p + 1 && (s.worker.Exited? || Ahead(s, p))
  }

  /** What the worker's next step has made of a state. */
  ghost predicate MovesOn(s: State, s': State, p: nat)
    requires |s.q.threads| > WORKER
  {
    && |s'.q.threads| > WORKER && Left(s') < Left(s)
    && AllPublished(s') && s'.q.deq <= p + 1 && (s'.worker.Exited? || Ahead(s', p))
    && s'.q.log == s.q.log && |s'.sinks| == |s.sinks|
  }

  lemma DequeueMoves(s: State, p: nat) returns (s': State)
    requires Shut(s, p) && s.worker.Polling? && !s.q.threads[WORKER].Resting()
    ensures QueueStep(s, s', WORKER) && MovesOn(s, s', p)
  {
    assert RoleOk(s, WORKER) && Q.ThreadOk(s.q, WORKER);
    var q' := Q.DequeuesOn(s.q, WORKER);
    s' := s.(q := q');
    if s.q.threads[WORKER].DeqSeq? { Q.UnreadCell(s.q, s.q.threads[WORKER].pos); }
    DequeueNearer(s, s', p);
  }

  lemma DequeueNearer(s: State, s': State, p: nat)
    requires Sized(s) && AllPublished(s) && s.q.deq <= p + 1 && Ahead(s, p) && s.worker.Polling?
    requires Q.Shape(s.q) && Q.DequeueStep(s.q, s'.q, WORKER) && s' == s.(q := s'.q)
    requires Q.ThreadOk(s.q, WORKER)
    requires s.q.threads[WORKER].DeqCas? && s.q.deq == s.q.threads[WORKER].pos ==> s'.q.threads[WORKER].DeqRead?
    requires var pc := s.q.threads[WORKER];
             pc.DeqSeq? ==>
               && (pc.pos == s.q.deq < s.q.enq ==> s.q.seqs[pc.pos % s.q.size] == pc.pos + 1)
               && (pc.pos < s.q.deq ==> s.q.seqs[pc.pos % s.q.size] >= pc.pos + 1)
    ensures MovesOn(s, s', p)
  {
  }

  lemma StepOutside(s: State, p: nat) returns (s': State)
    requires Shut(s, p) && !s.worker.Exited? && s.q.threads[WORKER].Resting()
    ensures WorkerStep(s, s') && MovesOn(s, s', p)
  {
    assert RoleOk(s, WORKER);
    var pc := s.q.threads[WORKER];
    match s.worker
    case Polling =>
      if pc.DeqDone? && pc.r.Some? {
        s' := s.(worker := if pc.r.value.off then Exited else Sinking(pc.r.value, 0));
      } else {
        s' := s.(q := Q.Go(s.q, WORKER, Q.DeqLoad));
      }
    case Sinking(m, k) =>
      if k < |s.sinks| {
        s' := s.(sinks := s.sinks[k := s.sinks[k] + [m]], worker := Sinking(m, k + 1));
      } else {
        s' := s.(worker := Polling, q := Q.Go(s.q, WORKER, Q.DeqLoad));
      }
  }

  lemma WorkerGoesOn(s: State, p: nat) returns (s': State)
    requires Shut(s, p) && !s.worker.Exited?
    ensures WorkerMoves(s, s') && Inv(s') && MovesOn(s, s', p)
  {
    if s.q.threads[WORKER].Resting() {
      s' := StepOutside(s, p);
      WorkerStepKeepsInv(s, s');
    } else {
      s' := DequeueMoves(s, p);
      QueueStepKeepsInv(s, s', WORKER);
    }
  }

  lemma LeftIsNatural(s: State, p: nat)
    requires Shut(s, p)
    ensures Left(s) >= 0
  {
  }

  lemma Longer(path: seq<State>, next: State) returns (path': seq<State>)
    requires WorkerPath(path) && WorkerMoves(path[|path| - 1], next)
    ensures path' == path + [next] && WorkerPath(path')
  {
    path' := path + [next];
    forall i | 0 <= i < |path'| - 1 ensures MovesAt(path', i) {
      assert i < |path| - 1 ==> MovesAt(path, i);
    }
  }

  lemma SinksOnExit(s: State, p: nat)
    requires Shut(s, p) && s.worker.Exited?
    ensures forall k | 0 <= k < |s.sinks| ::
              var n := |s.sinks[k]|; n <= p && n < |s.q.log| && s.sinks[k] == s.q.log[..n] && s.q.log[n].off
  {
    forall k | 0 <= k < |s.sinks|
      ensures var n := |s.sinks[k]|; n <= p && n < |s.q.log| && s.sinks[k] == s.q.log[..n] && s.q.log[n].off
    {
      assert Given(s, k) == s.q.deq - 1;
    }
  }

  lemma ReachableInv(s: State)
    requires Reachable(s)
    ensures Inv(s)
  {
    var run: seq<State> :| Run(run) && run[|run| - 1] == s;
    RunInv(run, |run| - 1);
  }

  /** Once the off message is in the queue and no ticket is being written, the worker alone gets through: it can
      take steps until it exits, and then every sink has been given exactly what was logged before the off message. */
  lemma WorkerDrains(s: State, p: nat) returns (path: seq<State>)
    requires Reachable(s) && AllPublished(s) && p < |s.q.log| && s.q.log[p].off && p >= s.q.deq
    ensures WorkerPath(path) && path[0] == s
    ensures var s' := path[|path| - 1];
            && s'.worker.Exited? && |s'.sinks| == |s.sinks| && s'.q.log == s.q.log
            && forall k | 0 <= k < |s'.sinks| ::
                 var n := |s'.sinks[k]|; n <= p < |s.q.log| && s'.sinks[k] == s.q.log[..n] && s.q.log[n].off
  {
    ReachableInv(s);
    path := [s];
    while !path[|path| - 1].worker.Exited?
      invariant |path| > 0 && path[0] == s && WorkerPath(path) && Shut(path[|path| - 1], p)
      invariant path[|path| - 1].q.log == s.q.log && |path[|path| - 1].sinks| == |s.sinks|
      decreases Left(path[|path| - 1])
    {
      var next := WorkerGoesOn(path[|path| - 1], p);
      LeftIsNatural(next, p);
      path := Longer(path, next);
    }
    SinksOnExit(path[|path| - 1], p);
  }

  // ---------- a call of the logger that nothing interrupts ----------

  ghost predicate LogsAt(path: seq<State>, i: nat, t: nat)
    requires i + 1 < |path|
  {
    QueueStep(path[i], path[i + 1], t) || ClientStep(path[i], path[i + 1], t)
  }

  /** Only client t steps. */
  ghost predicate ClientPath(path: seq<State>, t: nat) {
    |path| > 0 && forall i | 0 <= i < |path| - 1 :: LogsAt(path, i, t)
  }

  /** With room in the queue a client alone logs its message: under the next ticket, in seven steps. */
  lemma LoneLog(s: State, t: nat, m: Msg) returns (path: seq<State>)
    requires Reachable(s) && DTOR < t < |s.q.threads| && s.q.threads[t].Idle? && !m.off
    requires Q.Shape(s.q) && Q.HasRoom(s.q)
    ensures |path| == 8 && path[0] == s && ClientPath(path, t)
    ensures path[7].q.log == s.q.log + [m] && path[7].returned == s.returned[|s.q.log| := m]
    ensures t < |path[7].q.threads| && path[7].q.threads[t].Idle?
  {
    ReachableInv(s);
    var last := LogBegins(s, t, m);
    path := [s, last];
    assert LogsAt(path, 0, t);
    while |path| < 7
      invariant 2 <= |path| <= 7 && path[0] == s && ClientPath(path, t) && path[|path| - 1] == last
      invariant Inv(last) && t < |last.q.threads| && last == s.(q := last.q, held := s.held[t := m])
      invariant Q.EnqueuedSoFar(s.q, last.q, t, m, |path| - 1)
      decreases 7 - |path|
    {
      var next := LogsOn(s, last, t, m, |path| - 1);
      path := LoggedOn(path, next, t);
      last := next;
    }
    var p := last.q.threads[t].pos;
    var next := last.(q := Q.Go(last.q, t, Q.Idle), returned := last.returned[p := last.held[t]]);
    assert Return(last, next, t) && ClientStep(last, next, t);
    path := LoggedOn(path, next, t);
  }

  lemma LogBegins(s: State, t: nat, m: Msg) returns (s': State)
    requires Inv(s) && DTOR < t < |s.q.threads| && s.q.threads[t].Idle? && !m.off
    ensures s' == s.(q := Q.Go(s.q, t, Q.EnqLoad(m)), held := s.held[t := m]) && ClientStep(s, s', t) && Inv(s')
  {
    s' := s.(q := Q.Go(s.q, t, Q.EnqLoad(m)), held := s.held[t := m]);
    assert ClientLog(s, s', t, m);
    ClientStepKeepsInv(s, s', t);
  }

  /** One step of its `enqueue`. */
  lemma LogsOn(a: State, s: State, t: nat, m: Msg, k: nat) returns (s': State)
    requires Q.Shape(a.q) && Q.HasRoom(a.q) && Inv(s) && t < |s.q.threads|
    requires 1 <= k < 6 && Q.EnqueuedSoFar(a.q, s.q, t, m, k)
    ensures QueueStep(s, s', t) && Inv(s') && s' == s.(q := s'.q)
    ensures t < |s'.q.threads| && Q.EnqueuedSoFar(a.q, s'.q, t, m, k + 1)
  {
    assert Q.ThreadOk(s.q, t);
    var q' := Q.EnqueuesOn(s.q, t);
    s' := s.(q := q');
    QueueStepKeepsInv(s, s', t);
    Q.EnqueuesOne(a.q, s.q, q', t, m, k);
  }

  lemma LoggedOn(path: seq<State>, next: State, t: nat) returns (path': seq<State>)
    requires ClientPath(path, t) && (QueueStep(path[|path| - 1], next, t) || ClientStep(path[|path| - 1], next, t))
    ensures path' == path + [next] && ClientPath(path', t)
  {
    path' := path + [next];
    forall i | 0 <= i < |path'| - 1 ensures LogsAt(path', i, t) {
      assert i < |path| - 1 ==> LogsAt(path, i, t);
    }
  }
}
