/** The bounded multi-producer multi-consumer ring of include/thirdparty/spdlog/details/mpmc_bounded_q.h.

  Every atomic load, store or compare-and-exchange of `enqueue` and `dequeue` is one step of one thread,
  and a run interleaves the steps of any number of threads. Positions are unbounded, so the signed
  difference of the source is an integer difference; `pos & buffer_mask_` is `pos % size`, the same number
  for the powers of two the constructor accepts (PowersOfTwo.MaskIsRemainder).
 */
module MpmcQueue {
  import Modular
  import PowersOfTwo

  datatype Option<+T> = None | Some(value: T)

  /** Where a thread stands: the name says which access it performs next. */
  datatype Pc<T> =
    | Idle
    | EnqLoad(v: T)
    | EnqSeq(v: T, pos: nat)
    | EnqCas(v: T, pos: nat)
    | EnqWrite(v: T, pos: nat)
    | EnqPublish(v: T, pos: nat)
    | EnqDone(ok: bool, pos: nat)
    | DeqLoad
    | DeqSeq(pos: nat)
    | DeqCas(pos: nat)
    | DeqRead(pos: nat)
    | DeqRelease(v: T, pos: nat)
    | DeqDone(r: Option<T>, pos: nat)
  {
    predicate Resting() { Idle? || EnqDone? || DeqDone? }
    predicate Writes() { EnqWrite? || EnqPublish? }
    predicate Reads() { DeqRead? || DeqRelease? }
  }

  /** History of a ticket once `enqueue_pos_` has passed it. */
  datatype Phase = Writing(t: nat) | Published | Reading(t: nat) | Released

  /** `seqs` and `data` are the cells. The last three fields are history that no step reads: `log[p]` is
      the value ticket p was claimed for, `phase[p]` its progress, `taken[p]` what its dequeuer returned. */
  datatype State<T> = State(
    size: nat,
    seqs: seq<nat>,
    data: seq<T>,
    enq: nat,
    deq: nat,
    threads: seq<Pc<T>>,
    log: seq<T>,
    phase: seq<Phase>,
    taken: map<nat, T>)

  ghost predicate Init<T>(s: State<T>) {
    && s.size >= 2 && PowersOfTwo.IsPow2(s.size)
    && |s.seqs| == |s.data| == s.size
    && (forall i | 0 <= i < s.size :: s.seqs[i] == i)
    && s.enq == s.deq == 0
    && (forall t | 0 <= t < |s.threads| :: s.threads[t] == Idle)
    && s.log == [] && s.phase == [] && s.taken == map[]
  }

  ghost predicate Shape<T>(s: State<T>) {
    s.size >= 2 && |s.seqs| == |s.data| == s.size && |s.log| == |s.phase| == s.enq
  }

  ghost function Go<T>(s: State<T>, t: nat, pc: Pc<T>): State<T>
    requires t < |s.threads|
  {
    s.(threads := s.threads[t := pc])
  }

  /** One step of `enqueue`. A weak compare-and-exchange may fail without cause; either way of failing
      leaves the current position in `pos`. */
  ghost predicate EnqueueStep<T>(s: State<T>, s': State<T>, t: nat)
    requires Shape(s) && t < |s.threads|
  {
    match s.threads[t]
    case EnqLoad(v) => s' == Go(s, t, EnqSeq(v, s.enq))
    case EnqSeq(v, pos) =>
      var seqNo := s.seqs[pos % s.size];
      if seqNo == pos then s' == Go(s, t, EnqCas(v, pos))
      else if seqNo < pos then s' == Go(s, t, EnqDone(false, pos))
      else s' == Go(s, t, EnqLoad(v))
    case EnqCas(v, pos) =>
      || s' == Go(s, t, EnqSeq(v, s.enq))
      || (s.enq == pos &&
          s' == Go(s, t, EnqWrite(v, pos)).(enq := pos + 1, log := s.log + [v], phase := s.phase + [Writing(t)]))
    case EnqWrite(v, pos) =>
      s' == Go(s, t, EnqPublish(v, pos)).(data := s.data[pos % s.size := v])
    case EnqPublish(v, pos) =>
      && pos < s.enq
      && s' == Go(s, t, EnqDone(true, pos)).(seqs := s.seqs[pos % s.size := pos + 1], phase := s.phase[pos := Published])
    case _ => false
  }

  /** One step of `dequeue`. */
  ghost predicate DequeueStep<T>(s: State<T>, s': State<T>, t: nat)
    requires Shape(s) && t < |s.threads|
  {
    match s.threads[t]
    case DeqLoad => s' == Go(s, t, DeqSeq(s.deq))
    case DeqSeq(pos) =>
      var seqNo := s.seqs[pos % s.size];
      if seqNo == pos + 1 then s' == Go(s, t, DeqCas(pos))
      else if seqNo < pos + 1 then s' == Go(s, t, DeqDone(None, pos))
      else s' == Go(s, t, DeqLoad)
    case DeqCas(pos) =>
      || s' == Go(s, t, DeqSeq(s.deq))
      || (s.deq == pos < s.enq &&
          s' == Go(s, t, DeqRead(pos)).(deq := pos + 1, phase := s.phase[pos := Reading(t)]))
    case DeqRead(pos) => s' == Go(s, t, DeqRelease(s.data[pos % s.size], pos))
    case DeqRelease(v, pos) =>
      && pos < s.enq
      && s' == Go(s, t, DeqDone(Some(v), pos)).(
                 seqs := s.seqs[pos % s.size := pos + s.size],
                 phase := s.phase[pos := Released],
                 taken := s.taken[pos := v])
    case _ => false
  }

  /** A thread outside both functions calls one of them. */
  ghost predicate CallStep<T>(s: State<T>, s': State<T>, t: nat)
    requires t < |s.threads|
  {
    && s.threads[t].Resting()
    && t < |s'.threads|
    && (s'.threads[t].EnqLoad? || s'.threads[t].DeqLoad?)
    && s' == Go(s, t, s'.threads[t])
  }

  ghost predicate ThreadStep<T>(s: State<T>, s': State<T>, t: nat) {
    && Shape(s) && t < |s.threads|
    && (CallStep(s, s', t) || EnqueueStep(s, s', t) || DequeueStep(s, s', t))
  }

  /** The sequence number the cell of ticket `p` shows while `p` is the latest claimed ticket of its cell.
      Negative tickets stand for cells that no thread has claimed yet. */
  ghost function ShownSeq<T>(s: State<T>, p: int): int
    requires Shape(s) && p + s.size >= 0 && p < s.enq
  {
    if p < 0 then p + s.size
    else match s.phase[p]
         case Writing(_) => p
         case Released => p + s.size
         case _ => p + 1
  }

  ghost predicate ThreadOk<T>(s: State<T>, t: nat)
    requires Shape(s) && t < |s.threads|
  {
    match s.threads[t]
    case EnqSeq(_, pos) => pos <= s.enq
    case EnqCas(_, pos) => pos <= s.enq && (pos == s.enq >= s.size ==> s.phase[pos - s.size] == Released)
    case EnqWrite(v, pos) => pos < s.enq && s.phase[pos] == Writing(t) && s.log[pos] == v
    case EnqPublish(v, pos) =>
      pos < s.enq && s.phase[pos] == Writing(t) && s.log[pos] == v && s.data[pos % s.size] == v
    case DeqSeq(pos) => pos <= s.deq
    case DeqCas(pos) => pos <= s.deq && (pos == s.deq ==> pos < s.enq && s.phase[pos] == Published)
    case DeqRead(pos) => pos < s.enq && s.phase[pos] == Reading(t)
    case DeqRelease(v, pos) => pos < s.enq && s.phase[pos] == Reading(t) && s.log[pos] == v
    case _ => true
  }

  ghost predicate TicketOk<T>(s: State<T>, p: nat)
    requires Shape(s) && p < s.enq
  {
    && (p < s.deq <==> s.phase[p].Reading? || s.phase[p].Released?)
    && (p + s.size < s.enq ==> s.phase[p] == Released)
    && (s.phase[p].Published? || s.phase[p].Reading? ==> s.data[p % s.size] == s.log[p])
    && (s.phase[p].Released? <==> p in s.taken)
    && (p in s.taken ==> s.taken[p] == s.log[p])
    && (s.phase[p].Writing? ==>
          var t := s.phase[p].t; t < |s.threads| && s.threads[t].Writes() && s.threads[t].pos == p)
    && (s.phase[p].Reading? ==>
          var t := s.phase[p].t; t < |s.threads| && s.threads[t].Reads() && s.threads[t].pos == p)
  }

  ghost predicate TicketsOk<T>(s: State<T>)
    requires Shape(s)
  {
    && s.deq <= s.enq
    && (forall p | 0 <= p < s.enq :: TicketOk(s, p))
    && (forall p | p in s.taken :: p < s.enq)
  }

  ghost predicate CellsOk<T>(s: State<T>)
    requires Shape(s)
  {
    forall p: int {:trigger ShownSeq(s, p)} | s.enq - s.size <= p < s.enq :: s.seqs[p % s.size] == ShownSeq(s, p)
  }

  ghost predicate ThreadsOk<T>(s: State<T>)
    requires Shape(s)
  {
    forall t | 0 <= t < |s.threads| :: ThreadOk(s, t)
  }

  ghost predicate Inv<T>(s: State<T>) {
    Shape(s) && TicketsOk(s) && CellsOk(s) && ThreadsOk(s)
  }

  /** The cell of a claimed ticket shows at least the ticket, and less than one round more when a later
      ticket of the same cell is still unclaimed. */
  lemma CellOfClaimed<T>(s: State<T>, p: nat)
    requires Inv(s) && p < s.enq
    ensures s.seqs[p % s.size] >= p
    ensures s.phase[p].Reading? || s.phase[p].Released? ==> s.seqs[p % s.size] >= p + 1
    decreases s.enq - p
  {
    if p + s.size < s.enq {
      Modular.AddMultiple(p, s.size, 1);
      CellOfClaimed(s, p + s.size);
    } else {
      assert s.seqs[p % s.size] == ShownSeq(s, p);
    }
  }

  /** The cell the next enqueuer looks at is the one of ticket `enq - size`. */
  lemma NextCell<T>(s: State<T>)
    requires Inv(s)
    ensures s.seqs[s.enq % s.size] == ShownSeq(s, s.enq - s.size)
  {
    Modular.AddMultiple(s.enq - s.size, s.size, 1);
  }

  lemma InitInv<T>(s: State<T>)
    requires Init(s)
    ensures Inv(s)
  {
    forall p: int {:trigger ShownSeq(s, p)} | s.enq - s.size <= p < s.enq
      ensures s.seqs[p % s.size] == ShownSeq(s, p)
    {
      Modular.Unique(p, s.size, -1, p + s.size);
    }
  }

  /** Steps that move one thread and touch nothing shared. */
  lemma LocalKeepsInv<T>(s: State<T>, s': State<T>, t: nat)
    requires Inv(s) && t < |s.threads| && !s.threads[t].Writes() && !s.threads[t].Reads()
    requires t < |s'.threads| && s' == Go(s, t, s'.threads[t]) && ThreadOk(s', t)
    ensures Inv(s')
  {
    forall p | 0 <= p < s'.enq ensures TicketOk(s', p) {
      assert TicketOk(s, p);
    }
    forall p: int {:trigger ShownSeq(s', p)} | s'.enq - s'.size <= p < s'.enq
      ensures s'.seqs[p % s'.size] == ShownSeq(s', p)
    {
      assert ShownSeq(s', p) == ShownSeq(s, p);
    }
    forall u | 0 <= u < |s'.threads| ensures ThreadOk(s', u) {
      assert u != t ==> ThreadOk(s, u);
    }
  }

  lemma ClaimKeepsInv<T>(s: State<T>, s': State<T>, t: nat)
    requires Inv(s) && t < |s.threads| && s.threads[t].EnqCas? && s.threads[t].pos == s.enq
    requires var v := s.threads[t].v;
             s' == Go(s, t, EnqWrite(v, s.enq)).(enq := s.enq + 1, log := s.log + [v], phase := s.phase + [Writing(t)])
    ensures Inv(s')
  {
    NextCell(s);
    assert ThreadOk(s, t);
    forall p | 0 <= p < s'.enq ensures TicketOk(s', p) {
      assert p < s.enq ==> TicketOk(s, p);
    }
    forall p: int {:trigger ShownSeq(s', p)} | s'.enq - s'.size <= p < s'.enq
      ensures s'.seqs[p % s'.size] == ShownSeq(s', p)
    {
      assert p < s.enq ==> ShownSeq(s', p) == ShownSeq(s, p);
    }
    forall u | 0 <= u < |s'.threads| ensures ThreadOk(s', u) {
      assert ThreadOk(s, u);
    }
  }

  lemma WriteKeepsInv<T>(s: State<T>, s': State<T>, t: nat)
    requires Inv(s) && t < |s.threads| && s.threads[t].EnqWrite?
    requires EnqueueStep(s, s', t)
    ensures Inv(s')
  {
    var v, pos := s.threads[t].v, s.threads[t].pos;
    assert ThreadOk(s, t) && TicketOk(s, pos);
    forall p | 0 <= p < s'.enq ensures TicketOk(s', p) {
      assert TicketOk(s, p);
      if p != pos && (s.phase[p].Published? || s.phase[p].Reading?) { OtherCell(s, p, pos); }
    }
    forall p: int {:trigger ShownSeq(s', p)} | s'.enq - s'.size <= p < s'.enq
      ensures s'.seqs[p % s'.size] == ShownSeq(s', p)
    {
      assert ShownSeq(s', p) == ShownSeq(s, p);
    }
    forall u | 0 <= u < |s'.threads| ensures ThreadOk(s', u) {
      assert ThreadOk(s, u);
      if u != t && s.threads[u].EnqPublish? { OtherCell(s, s.threads[u].pos, pos); }
    }
  }

  /** Tickets that are claimed and not yet released have different cells. */
  lemma OtherCell<T>(s: State<T>, p: nat, q: nat)
    requires Inv(s) && p < s.enq && q < s.enq && p != q
    requires !s.phase[p].Released? && !s.phase[q].Released?
    ensures p % s.size != q % s.size
  {
    assert TicketOk(s, p) && TicketOk(s, q);
    if p % s.size == q % s.size { Modular.Distinct(p, q, s.size); }
  }

  /** Storing a sequence number in the cell of an owned ticket leaves the other shown cells alone. */
  lemma StoreSeq<T>(s: State<T>, s': State<T>, pos: nat)
    requires Inv(s) && pos < s.enq && !s.phase[pos].Released? && Shape(s')
    requires s'.enq == s.enq && s'.size == s.size
    requires forall p | 0 <= p < s.enq && p != pos :: s'.phase[p] == s.phase[p]
    requires s'.seqs == s.seqs[pos % s.size := ShownSeq(s', pos)]
    ensures CellsOk(s')
  {
    assert TicketOk(s, pos);
    forall p: int {:trigger ShownSeq(s', p)} | s'.enq - s'.size <= p < s'.enq
      ensures s'.seqs[p % s'.size] == ShownSeq(s', p)
    {
      if p != pos {
        if p % s.size == pos % s.size { Modular.Distinct(p, pos, s.size); }
        assert ShownSeq(s', p) == ShownSeq(s, p);
      }
    }
  }

  lemma PublishKeepsInv<T>(s: State<T>, s': State<T>, t: nat)
    requires Inv(s) && t < |s.threads| && s.threads[t].EnqPublish?
    requires EnqueueStep(s, s', t)
    ensures Inv(s')
  {
    var pos := s.threads[t].pos;
    assert ThreadOk(s, t) && TicketOk(s, pos);
    StoreSeq(s, s', pos);
    forall p | 0 <= p < s'.enq ensures TicketOk(s', p) {
      assert TicketOk(s, p);
    }
    forall u | 0 <= u < |s'.threads| ensures ThreadOk(s', u) {
      assert ThreadOk(s, u);
    }
  }

  lemma TakeKeepsInv<T>(s: State<T>, s': State<T>, t: nat)
    requires Inv(s) && t < |s.threads| && s.threads[t].DeqCas? && s.threads[t].pos == s.deq < s.enq
    requires s' == Go(s, t, DeqRead(s.deq)).(deq := s.deq + 1, phase := s.phase[s.deq := Reading(t)])
    ensures Inv(s')
  {
    assert ThreadOk(s, t) && TicketOk(s, s.deq);
    forall p | 0 <= p < s'.enq ensures TicketOk(s', p) {
      assert TicketOk(s, p);
    }
    forall p: int {:trigger ShownSeq(s', p)} | s'.enq - s'.size <= p < s'.enq
      ensures s'.seqs[p % s'.size] == ShownSeq(s', p)
    {
      assert ShownSeq(s', p) == ShownSeq(s, p);
    }
    forall u | 0 <= u < |s'.threads| ensures ThreadOk(s', u) {
      assert ThreadOk(s, u);
    }
  }

  lemma ReadKeepsInv<T>(s: State<T>, s': State<T>, t: nat)
    requires Inv(s) && t < |s.threads| && s.threads[t].DeqRead?
    requires DequeueStep(s, s', t)
    ensures Inv(s')
  {
    assert ThreadOk(s, t) && TicketOk(s, s.threads[t].pos);
    forall p | 0 <= p < s'.enq ensures TicketOk(s', p) {
      assert TicketOk(s, p);
    }
    forall p: int {:trigger ShownSeq(s', p)} | s'.enq - s'.size <= p < s'.enq
      ensures s'.seqs[p % s'.size] == ShownSeq(s', p)
    {
      assert ShownSeq(s', p) == ShownSeq(s, p);
    }
    forall u | 0 <= u < |s'.threads| ensures ThreadOk(s', u) {
      assert ThreadOk(s, u);
    }
  }

  lemma ReleaseKeepsInv<T>(s: State<T>, s': State<T>, t: nat)
    requires Inv(s) && t < |s.threads| && s.threads[t].DeqRelease?
    requires DequeueStep(s, s', t)
    ensures Inv(s')
  {
    var pos := s.threads[t].pos;
    assert ThreadOk(s, t) && TicketOk(s, pos);
    StoreSeq(s, s', pos);
    ReleaseKeepsTickets(s, s', t);
    forall u | 0 <= u < |s'.threads| ensures ThreadOk(s', u) {
      assert ThreadOk(s, u);
    }
  }

  lemma ReleaseKeepsTickets<T>(s: State<T>, s': State<T>, t: nat)
    requires Shape(s) && TicketsOk(s) && t < |s.threads| && s.threads[t].DeqRelease? && ThreadOk(s, t)
    requires Shape(s') && DequeueStep(s, s', t)
    ensures TicketsOk(s')
  {
    forall p | 0 <= p < s'.enq ensures TicketOk(s', p) {
      assert TicketOk(s, p);
    }
  }

  lemma EnqueueKeepsInv<T>(s: State<T>, s': State<T>, t: nat)
    requires Inv(s) && t < |s.threads| && EnqueueStep(s, s', t)
    ensures Inv(s')
  {
    assert ThreadOk(s, t);
    match s.threads[t]
    case EnqSeq(v, pos) =>
      NextCell(s);
      if pos < s.enq { CellOfClaimed(s, pos); }
      LocalKeepsInv(s, s', t);
    case EnqCas(v, pos) =>
      if s'.threads[t].EnqSeq? { LocalKeepsInv(s, s', t); } else { ClaimKeepsInv(s, s', t); }
    case EnqWrite(_, _) => WriteKeepsInv(s, s', t);
    case EnqPublish(_, _) => PublishKeepsInv(s, s', t);
    case EnqLoad(_) => LocalKeepsInv(s, s', t);
  }

  lemma DequeueKeepsInv<T>(s: State<T>, s': State<T>, t: nat)
    requires Inv(s) && t < |s.threads| && DequeueStep(s, s', t)
    ensures Inv(s')
  {
    assert ThreadOk(s, t);
    match s.threads[t]
    case DeqSeq(pos) =>
      UnreadCell(s, pos);
      LocalKeepsInv(s, s', t);
    case DeqCas(_) =>
      if s'.threads[t].DeqSeq? { LocalKeepsInv(s, s', t); } else { TakeKeepsInv(s, s', t); }
    case DeqRead(_) => ReadKeepsInv(s, s', t);
    case DeqRelease(_, _) => ReleaseKeepsInv(s, s', t);
    case DeqLoad => LocalKeepsInv(s, s', t);
  }

  lemma StepKeepsInv<T>(s: State<T>, s': State<T>, t: nat)
    requires Inv(s) && ThreadStep(s, s', t)
    ensures Inv(s')
  {
    if CallStep(s, s', t) { LocalKeepsInv(s, s', t); }
    else if EnqueueStep(s, s', t) { EnqueueKeepsInv(s, s', t); }
    else { DequeueKeepsInv(s, s', t); }
  }

  /** A cell shows `pos + 1` for the next ticket to take only when that ticket is published, and less
      only when it is not. */
  lemma UnreadCell<T>(s: State<T>, pos: nat)
    requires Inv(s) && pos <= s.deq
    ensures pos < s.deq ==> s.seqs[pos % s.size] >= pos + 1
    ensures pos == s.deq ==>
              (s.seqs[pos % s.size] == pos + 1 <==> pos < s.enq && s.phase[pos] == Published)
    ensures pos == s.deq ==> s.seqs[pos % s.size] <= pos + 1
  {
    if pos < s.enq {
      assert TicketOk(s, pos);
      CellOfClaimed(s, pos);
      if pos == s.deq { assert s.seqs[pos % s.size] == ShownSeq(s, pos); }
    } else {
      NextCell(s);
    }
  }

  ghost predicate Next<T>(s: State<T>, s': State<T>) {
    exists t :: ThreadStep(s, s', t)
  }

  /** Every interleaving of any number of threads. */
  ghost predicate Run<T(!new)>(run: seq<State<T>>) {
    |run| > 0 && forall i | 0 <= i < |run| :: Follows(run, i)
  }

  /** The first state is an initial one, every other is one step after the one before. */
  ghost predicate Follows<T(!new)>(run: seq<State<T>>, i: nat)
    requires i < |run|
  {
    if i == 0 then Init(run[0]) else Next(run[i - 1], run[i])
  }

  lemma {:induction false} RunInv<T(!new)>(run: seq<State<T>>, i: nat)
    requires Run(run) && i < |run|
    ensures Inv(run[i])
  {
    assert Follows(run, i);
    if i == 0 {
      InitInv(run[0]);
    } else {
      RunInv(run, i - 1);
      var t :| ThreadStep(run[i - 1], run[i], t);
      StepKeepsInv(run[i - 1], run[i], t);
    }
  }

  ghost predicate Reachable<T(!new)>(s: State<T>) {
    exists run: seq<State<T>> :: Run(run) && run[|run| - 1] == s
  }

  lemma ReachableInv<T(!new)>(s: State<T>)
    requires Reachable(s)
    ensures Inv(s)
  {
    var run: seq<State<T>> :| Run(run) && run[|run| - 1] == s;
    RunInv(run, |run| - 1);
  }

  /** The thread owns the cell: it won the exchange and has not stored the sequence number yet. */
  ghost predicate Owns<T>(s: State<T>, t: nat, cell: nat)
    requires s.size > 0 && t < |s.threads|
  {
    var pc := s.threads[t];
    (pc.Writes() || pc.Reads()) && pc.pos % s.size == cell
  }

  /** Between winning a ticket and publishing or releasing it a thread is alone in the cell. */
  lemma CellOwnedByOne<T(!new)>(s: State<T>, t: nat, u: nat, cell: nat)
    requires Reachable(s) && s.size > 0 && t < |s.threads| && u < |s.threads|
    requires Owns(s, t, cell) && Owns(s, u, cell)
    ensures t == u
  {
    ReachableInv(s);
    assert ThreadOk(s, t) && ThreadOk(s, u);
    if s.threads[t].pos != s.threads[u].pos { OtherCell(s, s.threads[t].pos, s.threads[u].pos); }
  }

  /** The ring never holds more tickets than cells, and dequeuers never overtake enqueuers. */
  lemma PositionsBounded<T(!new)>(s: State<T>)
    requires Reachable(s)
    ensures s.deq <= s.enq <= s.deq + s.size
  {
    ReachableInv(s);
    assert s.deq < s.enq ==> TicketOk(s, s.deq);
  }

  /** A dequeue that returns true returns the value its ticket was claimed for, and no ticket is returned
      twice: `taken` gains exactly this ticket and loses none. Claimed values never change. */
  lemma TicketDeliveredOnce<T(!new)>(s: State<T>, s': State<T>, t: nat)
    requires Reachable(s) && ThreadStep(s, s', t)
    ensures s.log <= s'.log && (forall p | p in s.taken :: p < |s.log| && s.taken[p] == s.log[p])
    ensures s.threads[t].DeqRelease? ==>
              var p := s.threads[t].pos;
              && p < |s.log| && p !in s.taken
              && s'.threads[t] == DeqDone(Some(s.log[p]), p)
              && s'.taken == s.taken[p := s.log[p]]
    ensures !s.threads[t].DeqRelease? ==>
              s'.taken == s.taken && !(s'.threads[t].DeqDone? && s'.threads[t].r.Some?)
  {
    ReachableInv(s);
    assert ThreadOk(s, t);
    assert s.threads[t].DeqRelease? ==> TicketOk(s, s.threads[t].pos);
    forall p | p in s.taken ensures p < |s.log| && s.taken[p] == s.log[p] {
      assert TicketOk(s, p);
    }
  }

  /** An enqueue ends by publishing its own value under its own ticket, and then returns true, or without having
      changed anything, and then returns false. */
  lemma EnqueuePublishesItsValue<T(!new)>(s: State<T>, s': State<T>, t: nat)
    requires Reachable(s) && ThreadStep(s, s', t) && s'.threads[t].EnqDone? && !s.threads[t].Resting()
    ensures s'.threads[t].ok <==> s.threads[t].EnqPublish?
    ensures s'.threads[t].ok ==>
              var p := s'.threads[t].pos;
              && p < |s.log| == |s.phase| && p < |s'.phase| && s'.log == s.log
              && s.threads[t] == EnqPublish(s.log[p], p) && s.phase[p] == Writing(t) && s'.phase[p] == Published
    ensures !s'.threads[t].ok ==> s' == Go(s, t, s'.threads[t])
  {
    ReachableInv(s);
    assert ThreadOk(s, t);
  }

  /** `enqueue` gives up exactly when it looks at the cell of the current enqueue position while the
      ticket one round earlier has not been released. */
  lemma EnqueueFailsIffFull<T(!new)>(s: State<T>, s': State<T>, t: nat)
    requires Reachable(s) && ThreadStep(s, s', t) && s.threads[t].EnqSeq?
    ensures s'.threads[t] == EnqDone(false, s.threads[t].pos) <==>
              s.threads[t].pos == s.enq && s.enq >= s.size && s.phase[s.enq - s.size] != Released
  {
    ReachableInv(s);
    assert ThreadOk(s, t);
    NextCell(s);
    if s.threads[t].pos < s.enq { CellOfClaimed(s, s.threads[t].pos); }
  }

  /** `dequeue` gives up exactly when it looks at the cell of the current dequeue position while that
      ticket is unclaimed, or claimed and not yet published. */
  lemma DequeueFailsIffUnpublished<T(!new)>(s: State<T>, s': State<T>, t: nat)
    requires Reachable(s) && ThreadStep(s, s', t) && s.threads[t].DeqSeq?
    ensures s'.threads[t] == DeqDone(None, s.threads[t].pos) <==>
              s.threads[t].pos == s.deq && (s.deq >= s.enq || s.phase[s.deq].Writing?)
  {
    ReachableInv(s);
    assert DequeueStep(s, s', t) && ThreadOk(s, t);
    UnreadCell(s, s.threads[t].pos);
    if s.deq < s.enq { assert TicketOk(s, s.deq); }
  }

  /** Every thread in a call can take its next step, and its exchange succeeds when the position is still the one it
      read: nothing the steps ask for beyond what the source tests ever fails. */
  lemma NeverStuck<T(!new)>(s: State<T>, t: nat) returns (s': State<T>)
    requires Reachable(s) && t < |s.threads| && !s.threads[t].Resting()
    ensures ThreadStep(s, s', t)
    ensures s.threads[t].EnqCas? && s.enq == s.threads[t].pos ==> s'.threads[t].EnqWrite?
    ensures s.threads[t].DeqCas? && s.deq == s.threads[t].pos ==> s'.threads[t].DeqRead?
  {
    ReachableInv(s);
    assert ThreadOk(s, t);
    match s.threads[t]
    case EnqLoad(_) => s' := EnqueuesOn(s, t);
    case EnqSeq(_, _) => s' := EnqueuesOn(s, t);
    case EnqCas(_, _) => s' := EnqueuesOn(s, t);
    case EnqWrite(_, _) => s' := EnqueuesOn(s, t);
    case EnqPublish(_, _) => s' := EnqueuesOn(s, t);
    case _ => s' := DequeuesOn(s, t);
  }

  lemma EnqueuesOn<T>(s: State<T>, t: nat) returns (s': State<T>)
    requires Shape(s) && t < |s.threads| && ThreadOk(s, t)
    requires s.threads[t].EnqLoad? || s.threads[t].EnqSeq? || s.threads[t].EnqCas? || s.threads[t].Writes()
    ensures EnqueueStep(s, s', t)
    ensures s.threads[t].EnqCas? && s.enq == s.threads[t].pos ==> s'.threads[t].EnqWrite?
  {
    match s.threads[t]
    case EnqLoad(v) => s' := Go(s, t, EnqSeq(v, s.enq));
    case EnqSeq(v, pos) =>
      var seqNo := s.seqs[pos % s.size];
      s' := Go(s, t, if seqNo == pos then EnqCas(v, pos) else if seqNo < pos then EnqDone(false, pos) else EnqLoad(v));
    case EnqCas(v, pos) =>
      s' := if s.enq == pos then
              Go(s, t, EnqWrite(v, pos)).(enq := pos + 1, log := s.log + [v], phase := s.phase + [Writing(t)])
            else Go(s, t, EnqSeq(v, s.enq));
    case EnqWrite(v, pos) => s' := Go(s, t, EnqPublish(v, pos)).(data := s.data[pos % s.size := v]);
    case EnqPublish(v, pos) =>
      s' := Go(s, t, EnqDone(true, pos)).(seqs := s.seqs[pos % s.size := pos + 1], phase := s.phase[pos := Published]);
  }

  lemma DequeuesOn<T>(s: State<T>, t: nat) returns (s': State<T>)
    requires Shape(s) && s.deq <= s.enq && t < |s.threads| && ThreadOk(s, t)
    requires s.threads[t].DeqLoad? || s.threads[t].DeqSeq? || s.threads[t].DeqCas? || s.threads[t].Reads()
    ensures DequeueStep(s, s', t)
    ensures s.threads[t].DeqCas? && s.deq == s.threads[t].pos ==> s'.threads[t].DeqRead?
  {
    match s.threads[t]
    case DeqLoad => s' := Go(s, t, DeqSeq(s.deq));
    case DeqSeq(pos) =>
      var seqNo := s.seqs[pos % s.size];
      s' := Go(s, t, if seqNo == pos + 1 then DeqCas(pos) else if seqNo < pos + 1 then DeqDone(None, pos) else DeqLoad);
    case DeqCas(pos) =>
      s' := if s.deq == pos then Go(s, t, DeqRead(pos)).(deq := pos + 1, phase := s.phase[pos := Reading(t)])
            else Go(s, t, DeqSeq(s.deq));
    case DeqRead(pos) => s' := Go(s, t, DeqRelease(s.data[pos % s.size], pos));
    case DeqRelease(v, pos) =>
      s' := Go(s, t, DeqDone(Some(v), pos)).(seqs := s.seqs[pos % s.size := pos + s.size],
                                             phase := s.phase[pos := Released], taken := s.taken[pos := v]);
  }

  // ---------- what a call returns, and what it has done ----------

  /** The queue with observations of each thread's current (or last) call: the ticket it has won, if any, and whether
      it has changed the cells or the history. */
  datatype Watch<T> = Watch(core: State<T>, mine: map<nat, nat>, touched: set<nat>)

  ghost predicate SameCells<T>(s: State<T>, s': State<T>) {
    s'.log == s.log && s'.phase == s.phase && s'.seqs == s.seqs && s'.data == s.data && s'.taken == s.taken
  }

  /** The ticket that a step wins. */
  ghost function Wins<T>(s: State<T>, s': State<T>): Option<nat> {
    if s'.enq != s.enq then Some(s.enq) else if s'.deq != s.deq then Some(s.deq) else None
  }

  /** One step of thread t; a thread that rests starts a call with it. */
  ghost predicate WatchStep<T(!new)>(w: Watch<T>, w': Watch<T>, t: nat) {
    && ThreadStep(w.core, w'.core, t)
    && var starts := w.core.threads[t].Resting();
    && var mine := if starts then w.mine - {t} else w.mine;
    && w'.mine == (if Wins(w.core, w'.core).Some? then mine[t := Wins(w.core, w'.core).value] else mine)
    && w'.touched == (if starts then w.touched - {t} else w.touched) + (if SameCells(w.core, w'.core) then {} else {t})
  }

  ghost predicate WatchNext<T(!new)>(w: Watch<T>, w': Watch<T>) {
    exists t :: WatchStep(w, w', t)
  }

  ghost predicate WatchFollows<T(!new)>(run: seq<Watch<T>>, i: nat)
    requires i < |run|
  {
    if i == 0 then Init(run[0].core) && run[0].mine == map[] && run[0].touched == {} else WatchNext(run[i - 1], run[i])
  }

  ghost predicate WatchRun<T(!new)>(run: seq<Watch<T>>) {
    |run| > 0 && forall i | 0 <= i < |run| :: WatchFollows(run, i)
  }

  ghost predicate WatchReachable<T(!new)>(w: Watch<T>) {
    exists run: seq<Watch<T>> :: WatchRun(run) && run[|run| - 1] == w
  }

  /** Thread t has won the ticket it works on, and before it wins one it has changed nothing. */
  ghost predicate CallOk<T>(w: Watch<T>, t: nat)
    requires t < |w.core.threads|
  {
    match w.core.threads[t]
    case Idle => true
    case EnqWrite(_, pos) => t in w.mine && w.mine[t] == pos
    case EnqPublish(_, pos) => t in w.mine && w.mine[t] == pos
    case DeqRead(pos) => t in w.mine && w.mine[t] == pos
    case DeqRelease(_, pos) => t in w.mine && w.mine[t] == pos
    case EnqDone(ok, pos) => (ok <==> t in w.mine) && (if ok then w.mine[t] == pos else t !in w.touched)
    case DeqDone(r, pos) => (r.Some? <==> t in w.mine) && (if r.Some? then w.mine[t] == pos else t !in w.touched)
    case _ => t !in w.mine && t !in w.touched
  }

  ghost predicate CallsOk<T>(w: Watch<T>) {
    forall t | 0 <= t < |w.core.threads| :: CallOk(w, t)
  }

  lemma StepCallOk<T(!new)>(w: Watch<T>, w': Watch<T>, t: nat)
    requires WatchStep(w, w', t) && t < |w.core.threads| && CallOk(w, t)
    ensures t < |w'.core.threads| && CallOk(w', t)
  {
  }

  lemma OthersStand<T(!new)>(s: State<T>, s': State<T>, t: nat)
    requires ThreadStep(s, s', t)
    ensures |s'.threads| == |s.threads| && forall u | 0 <= u < |s.threads| && u != t :: s'.threads[u] == s.threads[u]
  {
  }

  lemma WatchKeeps<T(!new)>(w: Watch<T>, w': Watch<T>)
    requires CallsOk(w) && WatchNext(w, w')
    ensures CallsOk(w')
  {
    var t :| WatchStep(w, w', t);
    OthersStand(w.core, w'.core, t);
    forall u | 0 <= u < |w'.core.threads| ensures CallOk(w', u) {
      assert CallOk(w, u);
      if u == t { StepCallOk(w, w', t); }
    }
  }

  lemma WatchRunOk<T(!new)>(run: seq<Watch<T>>, i: nat)
    requires WatchRun(run) && i < |run|
    ensures CallsOk(run[i])
  {
    assert WatchFollows(run, 0);
    var k := 0;
    while k < i
      invariant k <= i && CallsOk(run[k])
    {
      assert WatchFollows(run, k + 1);
      WatchKeeps(run[k], run[k + 1]);
      k := k + 1;
    }
  }

  lemma WatchReachableOk<T(!new)>(w: Watch<T>)
    requires WatchReachable(w)
    ensures CallsOk(w)
  {
    var run: seq<Watch<T>> :| WatchRun(run) && run[|run| - 1] == w;
    WatchRunOk(run, |run| - 1);
  }

  /** The observations are just that: without them it is a run of the queue. */
  lemma CoreReachable<T(!new)>(w: Watch<T>)
    requires WatchReachable(w)
    ensures Reachable(w.core)
  {
    var run: seq<Watch<T>> :| WatchRun(run) && run[|run| - 1] == w;
    var cores := seq(|run|, i requires 0 <= i < |run| => run[i].core);
    forall i | 0 <= i < |cores| ensures Follows(cores, i) {
      assert WatchFollows(run, i);
    }
    assert Run(cores) && cores[|cores| - 1] == w.core;
  }

  /** The step that ends an `enqueue`: it returns true if and only if the call has won a ticket, which this step has
      published with the value of the call; and a call that returns false has changed no cell and no history. */
  lemma EnqueueReturns<T(!new)>(w: Watch<T>, w': Watch<T>, t: nat)
    requires WatchReachable(w) && WatchStep(w, w', t)
    requires !w.core.threads[t].Resting() && w'.core.threads[t].EnqDone?
    ensures var pc := w'.core.threads[t];
            && (pc.ok <==> t in w'.mine)
            && (pc.ok ==> && w'.mine[t] == pc.pos < |w'.core.phase| == |w'.core.log| && w'.core.phase[pc.pos] == Published
                          && w.core.phase == w'.core.phase[pc.pos := Writing(t)]
                          && w.core.threads[t].EnqPublish? && w'.core.log[pc.pos] == w.core.threads[t].v)
            && (!pc.ok ==> t !in w'.touched)
  {
    WatchReachableOk(w);
    assert CallOk(w, t);
    StepCallOk(w, w', t);
    CoreReachable(w);
    ReachableInv(w.core);
    assert ThreadOk(w.core, t);
    if w'.core.threads[t].ok {
      assert w.core.phase == w.core.phase[w'.core.threads[t].pos := Published][w'.core.threads[t].pos := Writing(t)];
    }
  }

  /** The step that ends a `dequeue`: it returns a value if and only if the call has won a ticket, and a call that
      returns none has changed no cell and no history. */
  lemma DequeueReturns<T(!new)>(w: Watch<T>, w': Watch<T>, t: nat)
    requires WatchReachable(w) && WatchStep(w, w', t) && !w.core.threads[t].Resting() && w'.core.threads[t].DeqDone?
    ensures var pc := w'.core.threads[t];
            (pc.r.Some? <==> t in w'.mine) && (if pc.r.Some? then w'.mine[t] == pc.pos else t !in w'.touched)
  {
    WatchReachableOk(w);
    assert CallOk(w, t);
    StepCallOk(w, w', t);
  }

  // ---------- calls that nothing interrupts ----------

  ghost predicate StepsAt<T(!new)>(path: seq<State<T>>, i: nat, t: nat)
    requires i + 1 < |path|
  {
    ThreadStep(path[i], path[i + 1], t)
  }

  /** Only thread t steps. */
  ghost predicate Alone<T(!new)>(path: seq<State<T>>, t: nat) {
    |path| > 0 && forall i | 0 <= i < |path| - 1 :: StepsAt(path, i, t)
  }

  lemma StepReachable<T(!new)>(s: State<T>, s': State<T>, t: nat)
    requires Reachable(s) && ThreadStep(s, s', t)
    ensures Reachable(s')
  {
    var run: seq<State<T>> :| Run(run) && run[|run| - 1] == s;
    var run' := run + [s'];
    assert Next(s, s');
    forall i | 0 <= i < |run'| ensures Follows(run', i) {
      assert i < |run| ==> Follows(run, i);
    }
    assert Run(run') && run'[|run'| - 1] == s';
  }

  /** The cell of the next ticket is free for it. */
  ghost predicate HasRoom<T>(s: State<T>)
    requires Shape(s)
  {
    s.enq < s.size || s.phase[s.enq - s.size] == Released
  }

  lemma OneMore<T(!new)>(path: seq<State<T>>, t: nat) returns (path': seq<State<T>>)
    requires Alone(path, t) && Reachable(path[|path| - 1])
    requires var s := path[|path| - 1]; t < |s.threads| && !s.threads[t].Resting()
    ensures |path'| == |path| + 1 && path' == path + [path'[|path|]] && Alone(path', t) && Reachable(path'[|path|])
    ensures var s, s' := path[|path| - 1], path'[|path|];
            && ThreadStep(s, s', t)
            && (s.threads[t].EnqCas? && s.enq == s.threads[t].pos ==> s'.threads[t].EnqWrite?)
            && (s.threads[t].DeqCas? && s.deq == s.threads[t].pos ==> s'.threads[t].DeqRead?)
  {
    var next := NeverStuck(path[|path| - 1], t);
    StepReachable(path[|path| - 1], next, t);
    path' := path + [next];
    forall i | 0 <= i < |path'| - 1 ensures StepsAt(path', i, t) {
      assert i < |path| - 1 ==> StepsAt(path, i, t);
    }
  }

  /** How an `enqueue` of v that began in state a stands after k steps. */
  ghost predicate EnqueuedSoFar<T>(a: State<T>, s: State<T>, t: nat, v: T, k: nat)
    requires Shape(s) && t < |s.threads|
  {
    && s.size == a.size && s.deq == a.deq
    && (if k <= 3 then s.enq == a.enq && s.log == a.log && s.phase == a.phase && s.seqs == a.seqs
        else s.log == a.log + [v] && s.enq == a.enq + 1)
    && s.threads[t] == (match k
         case 1 => EnqLoad(v)
         case 2 => EnqSeq(v, a.enq)
         case 3 => EnqCas(v, a.enq)
         case 4 => EnqWrite(v, a.enq)
         case 5 => EnqPublish(v, a.enq)
         case _ => EnqDone(true, a.enq))
    && (k == 6 ==> s.phase[a.enq] == Published)
  }

  lemma EnqueuesOne<T(!new)>(a: State<T>, s: State<T>, s': State<T>, t: nat, v: T, k: nat)
    requires Inv(s) && t < |s.threads| && 1 <= k < 6 && EnqueuedSoFar(a, s, t, v, k) && ThreadStep(s, s', t)
    requires Shape(a) && HasRoom(a) && Shape(s') && t < |s'.threads|
    requires s.threads[t].EnqCas? && s.enq == s.threads[t].pos ==> s'.threads[t].EnqWrite?
    ensures EnqueuedSoFar(a, s', t, v, k + 1)
  {
    if k == 2 { NextCell(s); }
  }

  /** With room for one more ticket `enqueue` alone can succeed: it publishes its value under the next ticket and
      returns true, in six steps, whatever the other threads are in the middle of. */
  lemma LoneEnqueue<T(!new)>(s: State<T>, t: nat, v: T) returns (path: seq<State<T>>)
    requires Reachable(s) && t < |s.threads| && s.threads[t].Resting()
    requires Shape(s) && HasRoom(s)
    ensures |path| == 7 && path[0] == s && Alone(path, t) && Reachable(path[6])
    ensures Shape(path[6]) && t < |path[6].threads| && path[6].threads[t] == EnqDone(true, s.enq)
    ensures path[6].log == s.log + [v] && path[6].phase[s.enq] == Published
  {
    path := [s, Go(s, t, EnqLoad(v))];
    assert CallStep(s, path[1], t) && StepsAt(path, 0, t);
    StepReachable(s, path[1], t);
    while |path| < 7
      invariant 2 <= |path| <= 7 && path[0] == s && Alone(path, t) && Reachable(path[|path| - 1])
      invariant Shape(path[|path| - 1]) && t < |path[|path| - 1].threads|
      invariant EnqueuedSoFar(s, path[|path| - 1], t, v, |path| - 1)
      decreases 7 - |path|
    {
      var path' := OneMore(path, t);
      ReachableInv(path[|path| - 1]);
      ReachableInv(path'[|path|]);
      EnqueuesOne(s, path[|path| - 1], path'[|path|], t, v, |path| - 1);
      path := path';
    }
  }

  /** How a `dequeue` that began in state a stands after k steps. */
  ghost predicate DequeuedSoFar<T>(a: State<T>, s: State<T>, t: nat, k: nat)
    requires Shape(a) && Shape(s) && t < |s.threads| && a.deq < a.enq
  {
    && s.size == a.size && s.enq == a.enq && s.log == a.log
    && (if k <= 3 then s.deq == a.deq && s.phase == a.phase && s.seqs == a.seqs else s.deq == a.deq + 1)
    && match k
       case 1 => s.threads[t] == DeqLoad
       case 2 => s.threads[t] == DeqSeq(a.deq)
       case 3 => s.threads[t] == DeqCas(a.deq)
       case 4 => s.threads[t] == DeqRead(a.deq)
       case 5 => s.threads[t].DeqRelease? && s.threads[t].pos == a.deq
       case _ => s.threads[t] == DeqDone(Some(a.log[a.deq]), a.deq)
  }

  lemma DequeuesOne<T(!new)>(a: State<T>, s: State<T>, s': State<T>, t: nat, k: nat)
    requires Inv(s) && Shape(a) && a.deq < a.enq && a.phase[a.deq] == Published
    requires t < |s.threads| && 1 <= k < 6 && DequeuedSoFar(a, s, t, k) && ThreadStep(s, s', t)
    requires Shape(s') && t < |s'.threads|
    requires s.threads[t].DeqCas? && s.deq == s.threads[t].pos ==> s'.threads[t].DeqRead?
    ensures DequeuedSoFar(a, s', t, k + 1)
  {
    assert ThreadOk(s, t);
    if k == 2 { UnreadCell(s, s.deq); }
  }

  /** And with the next ticket published `dequeue` alone can succeed, with the value of that ticket. */
  lemma LoneDequeue<T(!new)>(s: State<T>, t: nat) returns (path: seq<State<T>>)
    requires Reachable(s) && t < |s.threads| && s.threads[t].Resting()
    requires Shape(s) && s.deq < s.enq && s.phase[s.deq] == Published
    ensures |path| == 7 && path[0] == s && Alone(path, t) && Reachable(path[6])
    ensures t < |path[6].threads| && path[6].threads[t] == DeqDone(Some(s.log[s.deq]), s.deq)
    ensures path[6].deq == s.deq + 1 && path[6].log == s.log
  {
    path := [s, Go(s, t, DeqLoad)];
    assert CallStep(s, path[1], t) && StepsAt(path, 0, t);
    StepReachable(s, path[1], t);
    while |path| < 7
      invariant 2 <= |path| <= 7 && path[0] == s && Alone(path, t) && Reachable(path[|path| - 1])
      invariant Shape(path[|path| - 1]) && t < |path[|path| - 1].threads|
      invariant DequeuedSoFar(s, path[|path| - 1], t, |path| - 1)
      decreases 7 - |path|
    {
      var path' := OneMore(path, t);
      ReachableInv(path[|path| - 1]);
      ReachableInv(path'[|path|]);
      DequeuesOne(s, path[|path| - 1], path'[|path|], t, |path| - 1);
      path := path';
    }
  }
}
