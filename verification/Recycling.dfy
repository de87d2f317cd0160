/** No block of an implicit producer leaks: the consumer that counts the last element of a block gives the block back
  (include/thirdparty/concurrentqueue.h:2287-2314), and so no fully dequeued block stays behind once the consumers
  are done.
 */
module Recycling {
  import I = ImplicitProducer
  import Sets

  /** Every element of block number m is counted as emptied. */
  ghost predicate Full<T>(s: I.State<T>, m: nat)
    requires I.Sized(s)
  {
    |I.EmptiedOf(s.emptied, m, s.ix.bs)| == s.ix.bs
  }

  ghost predicate Returns<T>(s: I.State<T>, t: nat, m: nat)
    requires I.Sized(s) && t < |s.c|
  {
    s.c[t].Freeing() && I.Num(s.c[t].start, s.ix.bs) == m
  }

  ghost predicate Returning<T>(s: I.State<T>, m: nat)
    requires I.Sized(s)
  {
    exists t :: 0 <= t < |s.c| && Returns(s, t, m)
  }

  /** Consumer t has read the element at k and will count it. */
  ghost predicate Counts<T>(s: I.State<T>, t: nat, k: nat)
    requires t < |s.c|
  {
    (s.c[t].CRead? || s.c[t].CEmpty?) && s.c[t].start <= k < s.c[t].i
  }

  ghost predicate Counting<T>(s: I.State<T>, k: nat) {
    exists t :: 0 <= t < |s.c| && Counts(s, t, k)
  }

  /** A full block was given back, or is just being given back. */
  ghost predicate FullReturned<T>(s: I.State<T>)
    requires I.Sized(s)
  {
    forall m: nat :: Full(s, m) ==> m in s.freed || Returning(s, m)
  }

  /** An element that was read was counted, or is about to be. */
  ghost predicate ReadCounted<T>(s: I.State<T>) {
    forall k | k in s.taken :: k in s.emptied || Counting(s, k)
  }

  ghost predicate Kept<T>(s: I.State<T>) {
    I.Sized(s) && FullReturned(s) && ReadCounted(s)
  }

  lemma InitKept<T>(s: I.State<T>)
    requires I.Init(s)
    ensures Kept(s)
  {
    forall m: nat ensures !Full(s, m) {
      assert I.EmptiedOf(s.emptied, m, s.ix.bs) == {};
    }
  }

  /** A step that leaves what was read, counted and given back alone, and takes no consumer out of the middle of it. */
  ghost predicate Leaves<T>(s: I.State<T>, s': I.State<T>) {
    && s'.taken == s.taken && s'.emptied == s.emptied && s'.freed == s.freed
    && |s'.c| == |s.c| && s'.ix.bs == s.ix.bs
    && forall t | 0 <= t < |s.c| && (s.c[t].CRead? || s.c[t].CEmpty? || s.c[t].Freeing()) ::
         s'.c[t] == s.c[t] || (s.c[t].CClear? && s'.c[t].CFree? && s'.c[t].start == s.c[t].start)
  }

  lemma LeavesKept<T>(s: I.State<T>, s': I.State<T>)
    requires Kept(s) && I.Sized(s') && Leaves(s, s')
    ensures Kept(s')
  {
    forall m: nat | Full(s', m) && m !in s'.freed ensures Returning(s', m) {
      assert Full(s, m);
      var t :| 0 <= t < |s.c| && Returns(s, t, m);
      assert Returns(s', t, m);
    }
    forall k | k in s'.taken && k !in s'.emptied ensures Counting(s', k) {
      var t :| 0 <= t < |s.c| && Counts(s, t, k);
      assert Counts(s', t, k);
    }
  }

  lemma ReadKept<T>(s: I.State<T>, s': I.State<T>, t: nat)
    requires Kept(s) && I.Sized(s') && I.ConsumerStep(s, s', t) && s.c[t].CRead? && s.c[t].start <= s.c[t].i
    ensures Kept(s')
  {
    forall m: nat | Full(s', m) && m !in s'.freed ensures Returning(s', m) {
      assert Full(s, m);
      var u :| 0 <= u < |s.c| && Returns(s, u, m);
      assert Returns(s', u, m);
    }
    forall k | k in s'.taken && k !in s'.emptied ensures Counting(s', k) {
      if k == s.c[t].i {
        assert Counts(s', t, k);
      } else {
        var u :| 0 <= u < |s.c| && Counts(s, u, k);
        assert Counts(s', u, k);
      }
    }
  }

  /** The count of a block tells exactly whether the block is full now. */
  lemma EmptyKept<T>(s: I.State<T>, s': I.State<T>, t: nat)
    requires Kept(s) && I.Sized(s') && I.ConsumerStep(s, s', t) && s.c[t].CEmpty?
    requires I.Segment(s, t, I.Num(s.c[t].start, s.ix.bs))
    ensures Kept(s')
  {
    var c, mine := s.c[t], I.Num(s.c[t].start, s.ix.bs);
    forall m: nat | Full(s', m) && m !in s'.freed ensures Returning(s', m) {
      if m == mine {
        assert Returns(s', t, m);
      } else {
        assert Full(s, m);
        var u :| 0 <= u < |s.c| && Returns(s, u, m);
        assert Returns(s', u, m);
      }
    }
    forall k | k in s'.taken && k !in s'.emptied ensures Counting(s', k) {
      var u :| 0 <= u < |s.c| && Counts(s, u, k);
      assert u != t;
      assert Counts(s', u, k);
    }
  }

  lemma FreeKept<T>(s: I.State<T>, s': I.State<T>, t: nat)
    requires Kept(s) && I.Sized(s') && I.ConsumerStep(s, s', t) && s.c[t].CFree?
    ensures Kept(s')
  {
    forall m: nat | Full(s', m) && m !in s'.freed ensures Returning(s', m) {
      assert Full(s, m);
      var u :| 0 <= u < |s.c| && Returns(s, u, m);
      assert u != t;
      assert Returns(s', u, m);
    }
    forall k | k in s'.taken && k !in s'.emptied ensures Counting(s', k) {
      var u :| 0 <= u < |s.c| && Counts(s, u, k);
      assert Counts(s', u, k);
    }
  }

  lemma ConsumerKept<T>(s: I.State<T>, s': I.State<T>, t: nat)
    requires I.Inv(s) && Kept(s) && I.Sized(s') && I.ConsumerStep(s, s', t)
    ensures Kept(s')
  {
    assert I.RangeOk(s, t);
    match s.c[t]
    case CRead(_, _, _, _, _) => ReadKept(s, s', t);
    case CEmpty(_, _, _, _, _) =>
      I.EmptiedSegment(s, t);
      EmptyKept(s, s', t);
    case CFree(_, _, _, _, _) => FreeKept(s, s', t);
    case _ =>
      PassingLeaves(s, s', t);
      LeavesKept(s, s');
  }

  lemma PassingLeaves<T>(s: I.State<T>, s': I.State<T>, t: nat)
    requires I.Sized(s) && I.ConsumerStep(s, s', t) && !s.c[t].CRead? && !s.c[t].CEmpty? && !s.c[t].CFree?
    ensures Leaves(s, s')
  {
  }

  lemma StepKept<T(!new)>(s: I.State<T>, s': I.State<T>)
    requires I.Inv(s) && Kept(s) && I.Sized(s') && I.Next(s, s')
    ensures Kept(s')
  {
    if t :| I.ConsumerStep(s, s', t) {
      ConsumerKept(s, s', t);
    } else {
      OtherStep(s, s');
      LeavesKept(s, s');
    }
  }

  lemma OtherStep<T(!new)>(s: I.State<T>, s': I.State<T>)
    requires I.Sized(s) && (forall t | 0 <= t < |s.c| :: I.RangeOk(s, t))
    requires (exists v :: I.EnqueueCall(s, s', v)) || I.ProducerStep(s, s') || exists t :: I.ClaimStep(s, s', t)
    ensures Leaves(s, s')
  {
    if t :| I.ClaimStep(s, s', t) {
      assert I.RangeOk(s, t);
    }
  }

  lemma {:induction false} RunKept<T(!new)>(run: seq<I.State<T>>, i: nat)
    requires I.Run(run) && i < |run| && !run[i].oc.zeros
    ensures Kept(run[i])
  {
    assert I.Follows(run, i);
    if i == 0 {
      InitKept(run[0]);
    } else {
      I.StepKeepsZeros(run[i - 1], run[i]);
      RunKept(run, i - 1);
      I.RunInv(run, i - 1);
      I.RunInv(run, i);
      StepKept(run[i - 1], run[i]);
    }
  }

  /** Whenever no consumer is at work, the blocks that have been given back are exactly those all of whose indices
      lie below the head. */
  lemma ReturnedExactly<T(!new)>(s: I.State<T>, m: nat)
    requires I.Reachable(s) && !s.oc.zeros && forall t | 0 <= t < |s.c| :: s.c[t].CNone?
    ensures I.Sized(s)
    ensures m in s.freed <==> forall k: nat :: I.Num(k, s.ix.bs) == m ==> k < s.oc.head
  {
    I.ReachableInv(s);
    I.NothingLost(s);
    var run: seq<I.State<T>> :| I.Run(run) && run[|run| - 1] == s;
    RunKept(run, |run| - 1);
    if m in s.freed {
      assert I.NumberOk(s, m);
      forall k: nat | I.Num(k, s.ix.bs) == m ensures k < s.oc.head {
        I.EmptiedAll(s.emptied, m, s.ix.bs, k);
      }
    }
    if forall k: nat :: I.Num(k, s.ix.bs) == m ==> k < s.oc.head {
      forall k: nat | I.Num(k, s.ix.bs) == m ensures k in s.emptied {
        assert k in s.taken;
      }
      AllOfBlock(s.emptied, m, s.ix.bs);
      assert Full(s, m);
    }
  }

  lemma AllOfBlock(emptied: set<nat>, m: nat, bs: nat)
    requires bs > 0 && forall k: nat :: I.Num(k, bs) == m ==> k in emptied
    ensures |I.EmptiedOf(emptied, m, bs)| == bs
  {
    I.EmptiedAll(emptied, m, bs, 0);
    assert (m + 1) * bs == m * bs + bs;
    var all := Sets.Range(m * bs, (m + 1) * bs);
    forall i | i in all ensures i in I.EmptiedOf(emptied, m, bs) {
      I.NumIs(i, m, bs);
    }
    Sets.SubsetSize(all, I.EmptiedOf(emptied, m, bs));
  }
}
