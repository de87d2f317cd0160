/** A broker of type "queue": the counters of include/broker_storage.h around the queue, one producer thread
  in `write_to_queue`, and one consumer thread that waits as include/consumer.h:209-213 does and then calls
  `get_message_from_queue`.

  Every access of the queue and every update or comparison of the counters is one step.
 */
module BrokerQueue {
  import Q = SpscQueue
  import PowersOfTwo

  type Message = string

  /** `Enqueuing`: from the call of the queue until `++total_enqueued_messages_` has been done. */
  datatype Producer = Outside | Enqueuing(m: Message)

  datatype Consumer = Waiting | Dequeuing

  /** `written` and `received` are all messages that `write_to_queue` has counted and that the consumer has
      counted, in order; both are history. */
  datatype State = State(
    q: Q.State<Message>,
    totalEnqueued: nat,
    totalDequeued: nat,
    producer: Producer,
    consumer: Consumer,
    written: seq<Message>,
    received: seq<Message>)

  ghost predicate Init(s: State) {
    && Q.Init(s.q)
    && s.totalEnqueued == s.totalDequeued == 0
    && s.producer == Outside && s.consumer == Waiting
    && s.written == s.received == []
  }

  /** `get_queue_size`: a subtraction of 64-bit counters. */
  function QueueSize(enqueued: nat, dequeued: nat): nat {
    (enqueued - dequeued) % PowersOfTwo.WORD_SIZE
  }

  /** `write_to_queue` is entered. */
  ghost predicate Write(s: State, s': State, m: Message) {
    && s.producer == Outside
    && Q.Shape(s.q.core) && Q.Next(s.q, s'.q) && Q.EnqueueCall(s.q.core, s'.q.core, m, false)
    && s' == s.(q := s'.q, producer := Enqueuing(m))
  }

  ghost predicate ProducerStep(s: State, s': State)
    requires Q.Shape(s.q.core)
  {
    && s.producer.Enqueuing?
    && var p := s.q.core.p;
       if !p.Resting() then
         && Q.Next(s.q, s'.q) && Q.ProducerStep(s.q.core, s'.q.core)
         && s' == s.(q := s'.q)
       else if p == Q.PDone(true) then
         s' == s.(producer := Outside, totalEnqueued := s.totalEnqueued + 1, written := s.written + [s.producer.m])
       else
         && Q.Next(s.q, s'.q) && Q.EnqueueCall(s.q.core, s'.q.core, s.producer.m, false)
         && s' == s.(q := s'.q)
  }

  ghost predicate ConsumerStep(s: State, s': State)
    requires Q.Shape(s.q.core)
  {
    match s.consumer
    case Waiting =>
      if QueueSize(s.totalEnqueued, s.totalDequeued) == 0 then s' == s
      else
        && Q.Next(s.q, s'.q) && Q.DequeueCall(s.q.core, s'.q.core, false)
        && s' == s.(q := s'.q, consumer := Dequeuing)
    case Dequeuing =>
      var c := s.q.core.c;
      if !c.Resting() then
        && Q.Next(s.q, s'.q) && Q.ConsumerStep(s.q.core, s'.q.core)
        && s' == s.(q := s'.q)
      else if c.CDone? && c.r.Some? then
        s' == s.(consumer := Waiting, totalDequeued := s.totalDequeued + 1, received := s.received + [c.r.value])
      else s' == s.(consumer := Waiting)
  }

  ghost predicate Next(s: State, s': State) {
    && Q.Shape(s.q.core)
    && ((exists m :: Write(s, s', m)) || ProducerStep(s, s') || ConsumerStep(s, s'))
  }

  ghost predicate Run(run: seq<State>) {
    |run| > 0 && forall i | 0 <= i < |run| :: Follows(run, i)
  }

  /** The first state is an initial one, every other is one step after the one before. */
  ghost predicate Follows(run: seq<State>, i: nat)
    requires i < |run|
  {
    if i == 0 then Init(run[0]) else Next(run[i - 1], run[i])
  }

  ghost predicate Inv(s: State) {
    && Q.Reachable(s.q)
    && s.totalEnqueued == |s.written| && s.totalDequeued == |s.received|
    && (s.producer == Outside ==> s.q.core.p.Resting())
    && (s.producer.Enqueuing? && !s.q.core.p.Resting() ==> s.q.core.p.v == s.producer.m)
    && s.q.core.enqueued ==
       (if s.producer.Enqueuing? && s.q.core.p == Q.PDone(true) then s.written + [s.producer.m] else s.written)
    && (s.consumer == Waiting ==> s.q.core.c.Resting())
    && s.q.core.dequeued ==
       (if s.consumer.Dequeuing? && s.q.core.c.CDone? && s.q.core.c.r.Some? then s.received + [s.q.core.c.r.value]
        else s.received)
    && s.totalDequeued <= s.totalEnqueued
    && (s.consumer.Dequeuing? ==> s.totalDequeued < s.totalEnqueued)
    && (s.consumer.Dequeuing? && s.q.core.c.CDone? ==> s.q.core.c.r.Some?)
    && (s.consumer.Dequeuing? && !s.q.core.c.Resting() ==> !s.q.emptySeen && !s.q.core.c.Peeking())
  }

  lemma InitInv(s: State)
    requires Init(s)
    ensures Inv(s)
  {
    var run := [s.q];
    assert Q.Follows(run, 0);
    assert Q.Run(run) && run[|run| - 1] == s.q;
  }

  lemma EntryKeepsInv(s: State, s': State, m: Message)
    requires Inv(s) && Q.Shape(s.q.core) && s.q.core.p.Resting()
    requires s.producer == Outside || s.q.core.p != Q.PDone(true)
    requires Q.Next(s.q, s'.q) && Q.EnqueueCall(s.q.core, s'.q.core, m, false)
    requires s' == s.(q := s'.q, producer := Enqueuing(m))
    ensures Inv(s')
  {
    Q.EnqueueCallEffect(s.q, s'.q, m, false);
  }

  lemma ProducerKeepsInv(s: State, s': State)
    requires Inv(s) && Q.Shape(s.q.core) && ProducerStep(s, s')
    ensures Inv(s')
  {
    if !s.q.core.p.Resting() {
      Q.ProducerEffect(s.q, s'.q);
    } else if s.q.core.p != Q.PDone(true) {
      EntryKeepsInv(s, s', s.producer.m);
    }
  }

  lemma WaitKeepsInv(s: State, s': State)
    requires Inv(s) && Q.Shape(s.q.core) && ConsumerStep(s, s') && s.consumer == Waiting
    ensures Inv(s')
  {
    if s' != s {
      Q.DequeueCallEffect(s.q, s'.q, false);
      DifferentCounters(s);
    }
  }

  /** Equal counters give size 0, so a consumer that leaves the wait has counted fewer messages. */
  lemma DifferentCounters(s: State)
    requires QueueSize(s.totalEnqueued, s.totalDequeued) != 0 && s.totalDequeued <= s.totalEnqueued
    ensures s.totalDequeued < s.totalEnqueued
  {
  }

  lemma ConsumerKeepsInv(s: State, s': State)
    requires Inv(s) && Q.Shape(s.q.core) && ConsumerStep(s, s')
    ensures Inv(s')
  {
    if s.consumer == Waiting {
      WaitKeepsInv(s, s');
    } else if !s.q.core.c.Resting() {
      Q.ConsumerEffect(s.q, s'.q);
    }
  }

  lemma {:induction false} RunInv(run: seq<State>, i: nat)
    requires Run(run) && i < |run|
    ensures Inv(run[i])
  {
    assert Follows(run, i);
    if i == 0 {
      InitInv(run[0]);
    } else {
      RunInv(run, i - 1);
      var s, s' := run[i - 1], run[i];
      if m :| Write(s, s', m) {
        EntryKeepsInv(s, s', m);
      } else if ProducerStep(s, s') {
        ProducerKeepsInv(s, s');
      } else {
        ConsumerKeepsInv(s, s');
      }
    }
  }

  /** The consumer never counts more messages than the producer has counted, so the size it waits for is
      the true difference as long as that fits a 64-bit word. */
  lemma QueueSizeNeverWraps(run: seq<State>, i: nat)
    requires Run(run) && i < |run|
    ensures var s := run[i];
            && s.totalDequeued <= s.totalEnqueued
            && (s.totalEnqueued - s.totalDequeued < PowersOfTwo.WORD_SIZE ==>
                  QueueSize(s.totalEnqueued, s.totalDequeued) == s.totalEnqueued - s.totalDequeued)
  {
    RunInv(run, i);
    SmallDifference(run[i].totalEnqueued, run[i].totalDequeued);
  }

  lemma SmallDifference(enqueued: nat, dequeued: nat)
    ensures 0 <= enqueued - dequeued < PowersOfTwo.WORD_SIZE ==> QueueSize(enqueued, dequeued) == enqueued - dequeued
  {
  }

  /** The dequeue after the wait never comes back empty-handed. */
  lemma DequeueAfterWaitSucceeds(run: seq<State>, i: nat)
    requires Run(run) && i < |run| && run[i].consumer.Dequeuing? && run[i].q.core.c.CDone?
    ensures run[i].q.core.c.r.Some?
  {
    RunInv(run, i);
  }

  /** Messages reach the consumer in the order they were written, none lost and none twice. */
  lemma ReceivedIsPrefixOfWritten(run: seq<State>, i: nat)
    requires Run(run) && i < |run|
    ensures run[i].received <= run[i].written
  {
    RunInv(run, i);
    var s := run[i];
    Q.FirstInFirstOut(s.q);
    assert s.q.core.dequeued <= s.q.core.enqueued;
    assert s.received <= s.q.core.dequeued;
  }

  // ---------- the consumer goes on ----------

  ghost predicate Reachable(s: State) {
    exists run: seq<State> :: Run(run) && run[|run| - 1] == s
  }

  lemma ReachableInv(s: State)
    requires Reachable(s)
    ensures Inv(s) && Q.Shape(s.q.core)
  {
    var run: seq<State> :| Run(run) && run[|run| - 1] == s;
    RunInv(run, |run| - 1);
    Q.FirstInFirstOut(s.q);
  }

  /** A message is counted and not yet received, and the difference fits a 64-bit word. */
  ghost predicate Pending(s: State) {
    1 <= s.totalEnqueued - s.totalDequeued < PowersOfTwo.WORD_SIZE
  }

  /** With a message pending the next step of a waiting consumer starts a dequeue; with none it goes on waiting. */
  lemma LeavesTheWaitIff(s: State, s': State)
    requires Reachable(s) && Q.Shape(s.q.core) && ConsumerStep(s, s') && s.consumer == Waiting
    requires s.totalEnqueued - s.totalDequeued < PowersOfTwo.WORD_SIZE
    ensures if s.totalEnqueued > s.totalDequeued then s'.consumer == Dequeuing && !s'.q.core.c.Resting() else s' == s
  {
    ReachableInv(s);
    SmallDifference(s.totalEnqueued, s.totalDequeued);
    if s.totalEnqueued > s.totalDequeued { Q.DequeueCallEffect(s.q, s'.q, false); }
  }

  ghost predicate StepsAt(path: seq<State>, i: nat)
    requires i + 1 < |path|
  {
    Q.Shape(path[i].q.core) && ConsumerStep(path[i], path[i + 1])
  }

  /** Only the consumer steps. */
  ghost predicate ConsumerPath(path: seq<State>) {
    |path| > 0 && forall i | 0 <= i < |path| - 1 :: StepsAt(path, i)
  }

  function StepsLeft(s: State): nat {
    if s.consumer == Waiting then 10 else Q.ConsumerLeft(s.q.core.c)
  }

  ghost predicate AtWork(s: State, s': State) {
    && Inv(s') && Q.Shape(s'.q.core) && Pending(s') && StepsLeft(s') < StepsLeft(s)
    && s'.consumer == Dequeuing && !s'.q.core.c.CIdle? && s'.written == s.written && s'.received == s.received
  }

  lemma StartsDequeue(s: State) returns (s': State)
    requires Inv(s) && Q.Shape(s.q.core) && Pending(s) && s.consumer == Waiting
    ensures ConsumerStep(s, s') && AtWork(s, s')
  {
    SmallDifference(s.totalEnqueued, s.totalDequeued);
    var q' := Q.DequeueBegins(s.q);
    s' := s.(q := q', consumer := Dequeuing);
    WaitKeepsInv(s, s');
    Q.FirstInFirstOut(s'.q);
  }

  lemma GoesOn(s: State) returns (s': State)
    requires Inv(s) && Q.Shape(s.q.core) && Pending(s) && s.consumer == Dequeuing && !s.q.core.c.Resting()
    ensures ConsumerStep(s, s') && AtWork(s, s')
  {
    var c' := Q.ConsumerNeverStuck(s.q);
    Q.ConsumerNearer(s.q.core, c');
    s' := s.(q := Q.Observed(s.q, c'));
    ConsumerKeepsInv(s, s');
    Q.FirstInFirstOut(s'.q);
    Q.ConsumerEffect(s.q, s'.q);
  }

  /** With a message pending, the consumer alone receives the oldest one it has not received, in at most eleven steps,
      whatever the producer is in the middle of. */
  lemma ConsumerReceives(s: State) returns (path: seq<State>)
    requires Reachable(s) && s.consumer == Waiting && Pending(s)
    ensures ConsumerPath(path) && path[0] == s && |path| <= 12
    ensures var s' := path[|path| - 1];
            && s'.consumer == Waiting && s'.written == s.written && |s.received| < |s.written|
            && s'.received == s.received + [s.written[|s.received|]]
  {
    ReachableInv(s);
    var last := s;
    path := [s];
    while last.consumer == Waiting || !last.q.core.c.Resting()
      invariant ConsumerPath(path) && path[0] == s && path[|path| - 1] == last && Inv(last) && Q.Shape(last.q.core)
      invariant Pending(last) && last.written == s.written && last.received == s.received
      invariant |path| + StepsLeft(last) <= 11 && (last.consumer == Dequeuing ==> !last.q.core.c.CIdle?)
      decreases StepsLeft(last)
    {
      var next;
      if last.consumer == Waiting {
        next := StartsDequeue(last);
      } else {
        next := GoesOn(last);
      }
      path := Longer(path, next);
      last := next;
    }
    var next := Received(last);
    path := Longer(path, next);
  }

  lemma Received(s: State) returns (s': State)
    requires Inv(s) && Q.Shape(s.q.core) && s.consumer == Dequeuing && s.q.core.c.CDone?
    ensures ConsumerStep(s, s') && s'.consumer == Waiting && s'.written == s.written
    ensures |s.received| < |s.written| && s'.received == s.received + [s.written[|s.received|]]
  {
    var c := s.q.core.c;
    s' := s.(consumer := Waiting, totalDequeued := s.totalDequeued + 1, received := s.received + [c.r.value]);
    Q.FirstInFirstOut(s.q);
    assert s.q.core.enqueued[|s.received|] == s.q.core.dequeued[|s.received|];
  }

  lemma Longer(path: seq<State>, next: State) returns (path': seq<State>)
    requires ConsumerPath(path) && Q.Shape(path[|path| - 1].q.core) && ConsumerStep(path[|path| - 1], next)
    ensures path' == path + [next] && ConsumerPath(path')
  {
    path' := path + [next];
    forall i | 0 <= i < |path'| - 1 ensures StepsAt(path', i) {
      assert i < |path| - 1 ==> StepsAt(path, i);
    }
  }

  // ---------- and so does the producer ----------

  ghost predicate WritesAt(path: seq<State>, i: nat, m: Message)
    requires i + 1 < |path|
  {
    Q.Shape(path[i].q.core) && (Write(path[i], path[i + 1], m) || ProducerStep(path[i], path[i + 1]))
  }

  /** Only the producer steps; it calls `write_to_queue` with m. */
  ghost predicate ProducerPath(path: seq<State>, m: Message) {
    |path| > 0 && forall i | 0 <= i < |path| - 1 :: WritesAt(path, i, m)
  }

  ghost predicate Writing(a: State, s: State, m: Message) {
    && Inv(s) && Q.Shape(s.q.core) && s.producer == Enqueuing(m)
    && s.written == a.written && s.received == a.received
    && (s.q.core.p == Q.PDone(true) ||
        (!s.q.core.p.Resting() && Q.Count(s.q.core) < s.q.maxSize && !s.q.fullSeen))
  }

  lemma BeginsToWrite(s: State, m: Message) returns (s': State)
    requires Inv(s) && Q.Shape(s.q.core) && s.producer == Outside && Q.Count(s.q.core) < s.q.maxSize
    ensures Write(s, s', m) && Writing(s, s', m)
  {
    var q' := Q.EnqueueBegins(s.q, m);
    s' := s.(q := q', producer := Enqueuing(m));
    EntryKeepsInv(s, s', m);
    Q.EnqueueCallEffect(s.q, q', m, false);
    Q.FirstInFirstOut(q');
  }

  lemma WritesOn(a: State, s: State, m: Message) returns (s': State)
    requires Writing(a, s, m) && !s.q.core.p.Resting()
    ensures ProducerStep(s, s') && Writing(a, s', m) && Q.ProducerLeft(s'.q.core.p) < Q.ProducerLeft(s.q.core.p)
  {
    var q' := Q.EnqueueGoesOn(s.q);
    s' := s.(q := q');
    ProducerKeepsInv(s, s');
    Q.FirstInFirstOut(q');
  }

  /** With fewer than `maxSize` messages in the queue the producer alone gets its message written and counted. */
  lemma ProducerWrites(s: State, m: Message) returns (path: seq<State>)
    requires Reachable(s) && s.producer == Outside && Q.Count(s.q.core) < s.q.maxSize
    ensures ProducerPath(path, m) && path[0] == s
    ensures var s' := path[|path| - 1];
            s'.producer == Outside && s'.written == s.written + [m] && s'.totalEnqueued == s.totalEnqueued + 1
  {
    ReachableInv(s);
    var last := BeginsToWrite(s, m);
    path := [s, last];
    assert WritesAt(path, 0, m);
    while !last.q.core.p.Resting()
      invariant ProducerPath(path, m) && path[0] == s && path[|path| - 1] == last && Writing(s, last, m)
      decreases Q.ProducerLeft(last.q.core.p)
    {
      var next := WritesOn(s, last, m);
      path := WrittenOn(path, next, m);
      last := next;
    }
    var next := last.(producer := Outside, totalEnqueued := last.totalEnqueued + 1, written := last.written + [m]);
    path := WrittenOn(path, next, m);
  }

  lemma WrittenOn(path: seq<State>, next: State, m: Message) returns (path': seq<State>)
    requires ProducerPath(path, m) && Q.Shape(path[|path| - 1].q.core) && ProducerStep(path[|path| - 1], next)
    ensures path' == path + [next] && ProducerPath(path', m)
  {
    path' := path + [next];
    forall i | 0 <= i < |path'| - 1 ensures WritesAt(path', i, m) {
      assert i < |path| - 1 ==> WritesAt(path, i, m);
    }
  }
}
