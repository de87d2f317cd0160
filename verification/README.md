# Verification of LightQ's queues, log and wire format

This project models the parts of LightQ whose correctness does not show in one function: the single-producer
single-consumer queue behind its queue topics, the lock-free pieces of its multi-producer queue, the bounded
queue of its asynchronous logger, the JSON reader and printer of its admin protocol, the segmented log of its
file topics, integer formatting and log rotation. Each is proved against what its comments, assertions and
interface promise. `dafny verify dfyconfig.toml` checks everything.

How the concurrent parts are modelled: a state is a value, and a run is any sequence of steps of any threads,
where one load, store, exchange or fetch-and-add of a shared variable is one step. A thread's position is named
by the access it performs next. Fields described as history are written and never read by the steps; the
properties are stated with them. Main results hold in every state of every run, for any number of threads.

How the sequential parts are modelled: a class or method in the form of the source, proved to do what a
function on values says, and lemmas about that function.

| file | what it is about |
|---|---|
| `SpscQueue.dfy` | the queue of ring buffers of `readerwriterqueue.h`, one producer and one consumer |
| `ReaderWriterQueue.dfy` | the same queue as a class over linked blocks, called by one thread |
| `BrokerQueue.dfy` | the broker's counters around it |
| `MpmcQueue.dfy`, `AsyncLog.dfy` | the bounded queue of the logger, and the worker that drains it |
| `BoundedQueue.dfy` | the same bounded queue as a class, called by one thread |
| `FreeList.dfy` | the reference-counted free list of `concurrentqueue.h` |
| `Overcommit.dfy` | its optimistic dequeue counters |
| `BlockIndex.dfy`, `ImplicitProducer.dfy` | its growing block index, and one producer with its consumers and recycled blocks |
| `LoneCalls.dfy` | what a call of that producer or consumer does alone |
| `Recycling.dfy` | which blocks are back in its pool |
| `ZeroMaximum.dfy` | what a bulk dequeue of no elements does to it |
| `ThreadHash.dfy` | its hash from thread ids to producers |
| `JsonText.dfy`, `JsonInput.dfy`, `JsonString.dfy`, `JsonParser.dfy`, `JsonSerializer.dfy`, `JsonRoundTrip.dfy` | picojson: strings, parser, printer, round trip |
| `JsonNumbers.dfy`, `JsonGrammar.dfy`, `JsonLayout.dfy` | which texts the parser accepts, and what the printer lays out |
| `SegmentedLog.dfy`, `FileLog.dfy` | the durable log, on values and as classes |
| `DigitCounting.dfy`, `IntFormat.dfy` | integer formatting |
| `RotatingSink.dfy` | log rotation |
| `PowersOfTwo.dfy`, `Modular.dfy`, `Digits.dfy`, `Sets.dfy` | bits, remainders, positional notation, sizes of sets |

## Model

| member | source | states |
|---|---|---|
| SpscQueue.FirstInFirstOut | include/thirdparty/readerwriterqueue.h:185-508 | over every interleaving of one producer (with or without allocation) and one consumer, what was enqueued is what was dequeued followed by what is in the blocks from front to tail: nothing lost, doubled or reordered, also across block reuse and insertion |
| SpscQueue.EnqueueAppendsOnce | include/thirdparty/readerwriterqueue.h:413-508 | the step with which an enqueue returns true appends its value, and no other step of the producer changes the sequence of enqueued values |
| SpscQueue.DequeueTakesOldest | include/thirdparty/readerwriterqueue.h:185-390 | `try_dequeue` and `pop` return and remove the oldest value not yet dequeued, `peek` returns it and removes nothing, no other step removes anything |
| SpscQueue.NothingOnlyWhenEmpty | include/thirdparty/readerwriterqueue.h:185-390 | `try_dequeue`, `pop` and `peek` find nothing only if the queue was empty at some moment of the call |
| SpscQueue.NoRoomOnlyWhenFull | include/thirdparty/readerwriterqueue.h:413-508 | `try_enqueue` returns false only if the queue held at least `maxSize` values at some moment of the call |
| SpscQueue.RingShape | include/thirdparty/readerwriterqueue.h:209-276 | blocks strictly between front and tail are full, those after the tail are empty, and the consumer's and producer's shadow indices lie between front and tail |
| SpscQueue.AssertionsHold | include/thirdparty/readerwriterqueue.h:240-270 | the assertions about the next block's front and tail (252, 317, 368, 459, 482) hold whenever they are reached |
| SpscQueue.ProducerNeverStuck | include/thirdparty/readerwriterqueue.h:413-508 | in every reachable state a producer in a call has a next step |
| SpscQueue.ConsumerNeverStuck | include/thirdparty/readerwriterqueue.h:185-390 | in every reachable state a consumer in a call has a next step |
| SpscQueue.CallsEnd | include/thirdparty/readerwriterqueue.h:185-508 | every call ends after a bounded number of steps of its own, whatever the other thread does: eight for the consumer, six for the producer |
| SpscQueue.SizesKept | include/thirdparty/readerwriterqueue.h:463-497 | blocks never shrink or go away, and an allocated block is twice as large as the largest so far, up to the limit |
| SpscQueue.ProducerKeepsInv | include/thirdparty/readerwriterqueue.h:427-508 | every access of `inner_enqueue` keeps the invariant of the ring |
| SpscQueue.ConsumerKeepsInv | include/thirdparty/readerwriterqueue.h:209-277 | every access of `try_dequeue`, `peek` and `pop` keeps the invariant of the ring |
| SpscQueue.BlockCount | include/thirdparty/readerwriterqueue.h:84-97 | `(maxSize + 2M - 3) / (M - 1)` is one more than `maxSize / (M - 1)` rounded up |
| ReaderWriterQueue.Queue.constructor | include/thirdparty/readerwriterqueue.h:68-111 | the constructor builds a circle of empty blocks, which is a first state of SpscQueue: one block, or one more than the least number of blocks that hold `maxSize` values |
| ReaderWriterQueue.FirstLayout | include/thirdparty/readerwriterqueue.h:80-97 | how many blocks of which size, by rounding up to a power of two and by the division of line 85 |
| ReaderWriterQueue.Queue.TryDequeue | include/thirdparty/readerwriterqueue.h:185-277 | called alone, the oldest value is removed and returned, or there is none; the assertion of line 252 holds; the blocks end in a state SpscQueue reaches |
| ReaderWriterQueue.Queue.Peek | include/thirdparty/readerwriterqueue.h:284-323 | called alone, the oldest value is seen and the contents stay |
| ReaderWriterQueue.Queue.Pop | include/thirdparty/readerwriterqueue.h:328-390 | called alone, the oldest value is removed |
| ReaderWriterQueue.Queue.TryEnqueue | include/thirdparty/readerwriterqueue.h:147-158 | called alone, the value is put behind the contents without allocation, or nothing changes and at least `maxSize` values are queued |
| ReaderWriterQueue.Queue.Enqueue | include/thirdparty/readerwriterqueue.h:161-174 | called alone, the value is put behind the contents; it fails only without memory |
| ReaderWriterQueue.Queue.AddBack | include/thirdparty/readerwriterqueue.h:427-505 | what `inner_enqueue` does to the blocks: here, in the free block ahead, in a new block, or nowhere |
| ReaderWriterQueue.Dequeues | include/thirdparty/readerwriterqueue.h:185-277 | what `try_dequeue` does to the blocks is a run of the consumer's steps of SpscQueue |
| ReaderWriterQueue.Enqueues | include/thirdparty/readerwriterqueue.h:413-508 | what `inner_enqueue` does to the blocks is a run of the producer's steps of SpscQueue |
| ReaderWriterQueue.Mask | include/thirdparty/readerwriterqueue.h:219 | `(i + 1) & sizeMask` goes around the block |
| SpscQueue.CapacityKept | include/thirdparty/readerwriterqueue.h:463-497 | no step, and no allocated block, makes the queue hold less than `maxSize` values |
| ReaderWriterQueue.Queue.SizeApprox | include/thirdparty/readerwriterqueue.h:394-407 | with no call in flight `size_approx` is the number of queued values |
| PowersOfTwo.CeilToPow2 | include/thirdparty/readerwriterqueue.h:519-531 | the result is the least power of two that is at least x, for 0 < x <= 2^63; otherwise it wraps to 0 |
| PowersOfTwo.SmearedAll | include/thirdparty/readerwriterqueue.h:521-528 | digits smeared downwards over the whole word make one less than the least power of two above the number |
| PowersOfTwo.MaskIsRemainder | include/thirdparty/readerwriterqueue.h:78-80 | masking with one less than a power of two takes the remainder, for every number |
| BrokerQueue.QueueSizeNeverWraps | include/broker_storage.h:203-228 | whatever the interleaving, the consumer never counts more messages than the producer, so the unsigned difference is the true one |
| BrokerQueue.DequeueAfterWaitSucceeds | include/broker_storage.h:190-201 | a dequeue after the wait loop never finds the queue empty |
| BrokerQueue.ReceivedIsPrefixOfWritten | include/broker_storage.h:292-302 | messages are received in the order they were written, none lost and none twice |
| BrokerQueue.LeavesTheWaitIff | include/consumer.h:208-211 | the waiting consumer's next step starts a dequeue if and only if a message is counted and not received |
| BrokerQueue.ConsumerReceives | include/consumer.h:208-215 | from every reachable state with such a message the consumer alone receives the oldest one in at most eleven steps |
| BrokerQueue.ProducerWrites | include/broker_storage.h:292-302 | from every reachable state with fewer than `maxSize` messages in the queue the producer alone writes and counts its message |
| MpmcQueue.CellOwnedByOne | include/thirdparty/spdlog/details/mpmc_bounded_q.h:98-149 | between winning a ticket and publishing or releasing it, a thread is alone in its cell, for any number of threads |
| MpmcQueue.PositionsBounded | include/thirdparty/spdlog/details/mpmc_bounded_q.h:98-149 | always dequeue position <= enqueue position <= dequeue position + size |
| MpmcQueue.TicketDeliveredOnce | include/thirdparty/spdlog/details/mpmc_bounded_q.h:126-149 | a dequeue that succeeds returns the value enqueued under its ticket, and no ticket is returned twice |
| MpmcQueue.EnqueuePublishesItsValue | include/thirdparty/spdlog/details/mpmc_bounded_q.h:98-124 | a step that ends an `enqueue` returns true if and only if it publishes, and then its own value under its own ticket; a step that returns false changes nothing |
| MpmcQueue.EnqueueReturns | include/thirdparty/spdlog/details/mpmc_bounded_q.h:98-124 | over the whole call: `enqueue` returns true if and only if the call has won a ticket, which it has published; a call that returns false has left cells and history as they were |
| MpmcQueue.DequeueReturns | include/thirdparty/spdlog/details/mpmc_bounded_q.h:126-149 | `dequeue` returns true if and only if the call has won a ticket; a call that returns false has left cells and history as they were |
| MpmcQueue.LoneEnqueue | include/thirdparty/spdlog/details/mpmc_bounded_q.h:98-124 | from every reachable state with a free cell for the next ticket, `enqueue` alone can publish its value and return true, in six steps |
| MpmcQueue.LoneDequeue | include/thirdparty/spdlog/details/mpmc_bounded_q.h:126-149 | from every reachable state whose next ticket is published, `dequeue` alone can return the value of that ticket |
| MpmcQueue.EnqueueFailsIffFull | include/thirdparty/spdlog/details/mpmc_bounded_q.h:101-119 | `enqueue` returns false exactly when it looks while the ticket one round before the current one is not released |
| MpmcQueue.DequeueFailsIffUnpublished | include/thirdparty/spdlog/details/mpmc_bounded_q.h:129-145 | `dequeue` returns false exactly when it looks while the current ticket is unclaimed or unpublished |
| MpmcQueue.NeverStuck | include/thirdparty/spdlog/details/mpmc_bounded_q.h:98-149 | in every reachable state every thread in a call has a next step, and its exchange can succeed when the position is the one it read |
| MpmcQueue.StepKeepsInv | include/thirdparty/spdlog/details/mpmc_bounded_q.h:98-149 | every access of every thread keeps the invariant over positions, sequence numbers and cells |
| AsyncLog.DrainedBeforeExit | include/thirdparty/spdlog/details/async_log_helper.h:178-251 | under block_retry, when the worker has exited every sink has each message logged before the off message once, in ticket order, all those whose `log` had returned before the destructor included |
| AsyncLog.SinksInTicketOrder | include/thirdparty/spdlog/details/async_log_helper.h:208-251 | at every moment each sink has been given a prefix of the ticket order |
| AsyncLog.ReturnsOwnTicket | include/thirdparty/spdlog/details/async_log_helper.h:192-206 | a `log` call that returns owns a ticket of its own, under which its message is logged |
| AsyncLog.LogsOnce | include/thirdparty/spdlog/details/async_log_helper.h:192-206 | a `log` call that returns has put its message under just one ticket, counted over all its tries; one that tries again has put it under none |
| AsyncLog.TicketsAreForCalls | include/thirdparty/spdlog/details/async_log_helper.h:192-206 | a ticket is won by a `log` call that has none yet, for the message of that call |
| AsyncLog.WorkerDrains | include/thirdparty/spdlog/details/async_log_helper.h:178-251 | from every reachable state with the off message in the queue and no ticket being written, the worker alone can go on until it exits; every sink has then each message logged before an off message |
| AsyncLog.LoneLog | include/thirdparty/spdlog/details/async_log_helper.h:192-206 | from every reachable state with room in the queue, a client alone can log its message and return |
| FreeList.NeverListedTwice | include/thirdparty/concurrentqueue.h:1184-1288 | the nodes reached from the head are all different, and each one's `next` is its successor |
| FreeList.HeadNeverStale | include/thirdparty/concurrentqueue.h:1213-1288 | the exchange of `try_get` installs the true successor of the head, that of `add` puts its node in front: no stale `next`, whatever other threads did in between |
| FreeList.HandedToOne | include/thirdparty/concurrentqueue.h:1213-1262 | a node that `try_get` returns is with no other client, not on the list and not being pushed |
| FreeList.NeverLost | include/thirdparty/concurrentqueue.h:1196-1288 | an added node is on the list, or being pushed or taken by exactly one thread, or flagged with a live reference whose holder will push it |
| FreeList.QuietList | include/thirdparty/concurrentqueue.h:1196-1288 | with no call in flight every node is on the list or with a client, and its reference word says which |
| FreeList.NothingOnlyWhenEmpty | include/thirdparty/concurrentqueue.h:1213-1262 | `try_get` returns null only if the list was empty at some moment of the call, the retries included |
| FreeList.LoneTryGet | include/thirdparty/concurrentqueue.h:1213-1262 | called on a list that is not empty, whatever the other threads are in the middle of, `try_get` alone hands out the first node in seven steps |
| FreeList.LoneTryGetEnds | include/thirdparty/concurrentqueue.h:1213-1262 | and it can take those steps from every reachable state |
| FreeList.LonePush | include/thirdparty/concurrentqueue.h:1264-1288 | a push that nothing interrupts, of `add` or of a dropped last reference, puts its node in front in four steps |
| FreeList.CountFits | include/thirdparty/concurrentqueue.h:1196-1288 | the reference count stays below the number of threads plus two, clear of the flag bit |
| FreeList.NeverStuck | include/thirdparty/concurrentqueue.h:1196-1288 | in every reachable state every thread in a call has a next step |
| FreeList.StepKeepsInv | include/thirdparty/concurrentqueue.h:1196-1288 | every access of `add` and `try_get` by any thread keeps the invariant |
| Overcommit.ClaimsNeverExceedTail | include/thirdparty/concurrentqueue.h:2265-2334 | with any mix of single and bulk consumers, maxima of 0 included, the indices claimed never exceed the elements enqueued |
| Overcommit.ClaimsDisjoint | include/thirdparty/concurrentqueue.h:2487-2587 | two consumers never hold the same index |
| Overcommit.QuietCounters | include/thirdparty/concurrentqueue.h:1688-1779 | with no dequeue in flight, optimistic count minus overcommit is the head index |
| Overcommit.OvercommitAtMostCount | include/thirdparty/concurrentqueue.h:1967-1978 | the assertion `overcommit <= myDequeueCount`, which rests on reading the overcommit first |
| Overcommit.NeverStuck | include/thirdparty/concurrentqueue.h:2487-2587 | in every reachable state every thread that works on a claim has a next step |
| Overcommit.GrantedBounded | include/thirdparty/concurrentqueue.h:2487-2510 | what all tickets up to any one were granted fits below the tail |
| Overcommit.NothingOnlyWhenAskedFor | include/thirdparty/concurrentqueue.h:2265-2334 | a claim ends with nothing if and only if its look shows that what was asked for, less the overcommit read, reaches the tail read; and it moves nothing then |
| Overcommit.LoneClaim | include/thirdparty/concurrentqueue.h:2487-2510 | from every reachable state with no claim under way and elements left, a call alone claims the smaller of its maximum and the number of elements, from the head on, in six steps |
| Overcommit.LoneClaimEnds | include/thirdparty/concurrentqueue.h:2487-2510 | and it can take those steps |
| LoneCalls.LoneDequeue | include/thirdparty/concurrentqueue.h:2265-2334 | when no caller asks for 0 elements and no consumer is at work: a call alone, once it is over, has taken the element at the head and those after it, as many as were asked for or are there |
| LoneCalls.LoneDequeueEnds | include/thirdparty/concurrentqueue.h:2487-2587 | and from every such state the call can run to its end, through lookup, reads, counting and return of blocks |
| LoneCalls.EnqueueReturns | include/thirdparty/concurrentqueue.h:2187-2263 | `enqueue` returns true exactly with the step that publishes its element; it returns false only when the index cannot grow or no block can be had |
| LoneCalls.LoneEnqueueEnds | include/thirdparty/concurrentqueue.h:2187-2263 | with memory, an `enqueue` called in any reachable state can run to its end, with its element as the last one |
| BlockIndex.LookupFinds | include/thirdparty/concurrentqueue.h:2643-2664 | through any header, old or new, and any tail read from it, the division and the mask arrive at the entry of the looked-up block |
| BlockIndex.GrowKeepsInv | include/thirdparty/concurrentqueue.h:2666-2708 | doubling the index keeps every number findable through every header |
| BlockIndex.GrownSlotFresh | include/thirdparty/concurrentqueue.h:2620-2634 | the slot after the tail of a new header was never used, as asserted at 2629 |
| BlockIndex.StoreKeyKeepsInv | include/thirdparty/concurrentqueue.h:2608-2620 | reusing or filling the slot after the tail keeps the index findable; only an entry whose value is null is lost |
| BlockIndex.RewindKeepsInv | include/thirdparty/concurrentqueue.h:2630-2634 | taking the tail back keeps the index findable |
| ImplicitProducer.ReadOnceByItsOwner | include/thirdparty/concurrentqueue.h:2265-2334 | when no caller asks for 0 elements: the element at an index is read once, by the thread that claimed the index, and is the one enqueued there; its block is not in the pool |
| ImplicitProducer.NoSlotReadTwice | include/thirdparty/concurrentqueue.h:2487-2560 | when no caller asks for 0 elements, no two consumers are ever at the same slot of the same block |
| ImplicitProducer.FreedOnceConsumed | include/thirdparty/concurrentqueue.h:2295-2325 | when no caller asks for 0 elements, a block returns to the pool once, after every one of its slots was read |
| ImplicitProducer.FreedBehindReaders | include/thirdparty/concurrentqueue.h:2295-2325 | when no caller asks for 0 elements: while a block is returned no consumer has a slot of it left to read or to count |
| ImplicitProducer.CounterNeverOverflows | include/thirdparty/concurrentqueue.h:1352-1372 | the assertion `prevVal + count <= BLOCK_SIZE`, when no caller asks for 0 elements |
| ImplicitProducer.LookupFindsLiveEntry | include/thirdparty/concurrentqueue.h:2643-2664 | the assertions of the lookup (2657, 2662), when no caller asks for 0 elements: for every claimed, unconsumed index the entry found has the base of the index as its key and a block as its value, across wrap, rewind and doubling and through an older header |
| ImplicitProducer.NothingLost | include/thirdparty/concurrentqueue.h:2200-2334 | when no caller asks for 0 elements and no consumer is at work, the elements taken are exactly those below the head |
| Recycling.ReturnedExactly | include/thirdparty/concurrentqueue.h:2287-2325 | when no caller asks for 0 elements and no consumer is at work, the blocks that were returned are exactly those whose indices all lie below the head: none leaks |
| ImplicitProducer.AccessesValid | include/thirdparty/concurrentqueue.h:2200-2587 | when no caller asks for 0 elements, every header, slot, key and block an access goes through exists when its thread gets there |
| ImplicitProducer.HeadCheckPasses | include/thirdparty/concurrentqueue.h:2206-2211 | the head is never a block ahead of the tail, so the check refuses only for a bounded queue |
| ImplicitProducer.StepKeepsInv | include/thirdparty/concurrentqueue.h:2200-2587 | every access of the producer and of every consumer keeps the invariant over counters, index, blocks and pool, of which it is part that no caller asks for 0 elements |
| ZeroMaximum.ReturnedOnceIff | include/thirdparty/concurrentqueue.h:1351-1372 | in all runs every block is returned to the pool once, if and only if no caller asks for 0 elements: counting 0 elements in a block whose last element was just counted returns it again |
| ZeroMaximum.LookupsSoundIff | include/thirdparty/concurrentqueue.h:2643-2664 | in all runs the assertions of the lookup hold, if and only if no caller asks for 0 elements: such a call looks up the head, whose block need not exist yet |
| ZeroMaximum.AccessesValidIff | include/thirdparty/concurrentqueue.h:2487-2560 | in all runs every entry a consumer goes through has a block, if and only if no caller asks for 0 elements |
| ZeroMaximum.ReturnsTwice | include/thirdparty/concurrentqueue.h:972-982 | a concrete run with two consumers, one of which asks for 0 elements, to the point where it returns a block that is already in the pool |
| ZeroMaximum.FindsNoBlock | include/thirdparty/concurrentqueue.h:2520-2521 | a concrete run to the point where such a consumer goes through an entry with no block |
| ThreadHash.OneProducerPerThread | include/thirdparty/concurrentqueue.h:3055-3194 | all calls of a thread return the same producer, and never that of another thread |
| ThreadHash.TablesNeverFull | include/thirdparty/concurrentqueue.h:3072-3085 | every table keeps a free slot through inserts, copies and resizes, as the comments claim |
| ThreadHash.ProbingTerminates | include/thirdparty/concurrentqueue.h:3072-3110 | no probing loop goes once round its table |
| ThreadHash.FoundHasValue | include/thirdparty/concurrentqueue.h:3076-3084 | a search that finds its id finds the value stored with it |
| ThreadHash.ResizeMakesRoom | include/thirdparty/concurrentqueue.h:3118-3156 | a thread that has just made a table always finds room in it |
| ThreadHash.NewCapacity | include/thirdparty/concurrentqueue.h:3124-3128 | the new capacity is the first doubling of the old one of which n is below the half |
| ThreadHash.ResizeOrWait | include/thirdparty/concurrentqueue.h:3119-3160 | below half of the capacity a thread goes on, from there on it resizes if nobody does, and otherwise goes on up to three quarters and waits beyond |
| ThreadHash.LoneCall | include/thirdparty/concurrentqueue.h:3055-3194 | from every reachable state in which nobody resizes, a call alone ends, with the thread's producer or, if it had none, a new one |
| ThreadHash.NeverStuck | include/thirdparty/concurrentqueue.h:3055-3194 | in every reachable state every thread has a next step |
| ThreadHash.StepKeepsInv | include/thirdparty/concurrentqueue.h:3055-3194 | every access of every thread keeps the invariant |
| JsonRoundTrip.RoundTrip | include/thirdparty/picojson.h:406-516 | parsing what `serialize` printed, plain or pretty, succeeds and yields the value, for every value without doubles |
| JsonRoundTrip.SelfDelimiting | include/thirdparty/picojson.h:406-516 | strings, arrays and objects end where they end, whatever follows |
| JsonRoundTrip.PrintedDiffer | include/thirdparty/picojson.h:406-516 | different values have different texts |
| JsonRoundTrip.Reprint | include/thirdparty/picojson.h:686-870 | a value parsed from any text without fractions survives printing and parsing again |
| JsonRoundTrip.ParsedShaped | include/thirdparty/picojson.h:686-870 | whatever is accepted, integers fit 64 bits and objects are in the order of their keys |
| JsonRoundTrip.PutAssigns | include/thirdparty/picojson.h:832-836 | `o[key]` assigns: this key and no other changes, and the order of keys is kept |
| JsonRoundTrip.StringReadsBack | include/thirdparty/picojson.h:406-431 | every byte string, escaped and quoted, reads back as itself |
| JsonRoundTrip.IntReadsBack | include/thirdparty/picojson.h:363-371 | every 64-bit integer, printed, reads back as itself when no number byte follows |
| JsonRoundTrip.PrintThenParse | include/thirdparty/picojson.h:820-870 | the printer followed by the parser returns what was printed |
| JsonGrammar.AcceptsExactly | include/thirdparty/picojson.h:686-849 | the parser accepts exactly the texts that start with white space and a form of RFC 8259, with white space around every token; it takes that and no more, and yields what the form means |
| JsonGrammar.Accepts | include/thirdparty/picojson.h:686-849 | every such text is accepted with its meaning, whatever follows it |
| JsonGrammar.CutForm | include/thirdparty/picojson.h:686-849 | every accepted text has a form |
| JsonGrammar.LastCounts | include/thirdparty/picojson.h:703-722 | of the members with one name the last counts, and members are in the order of their keys |
| JsonGrammar.ParseStream | include/thirdparty/picojson.h:939-944 | `parse` succeeds if and only if the text starts with a text of the grammar, and yields what that means |
| JsonNumbers.NumberAccepted | include/thirdparty/picojson.h:765-793 | every sign, digits, point and exponent in their places are accepted: as a 64-bit integer if they are digits only and fit, as a double otherwise |
| JsonNumbers.CutNumber | include/thirdparty/picojson.h:765-793 | every accepted number is of that form |
| JsonLayout.PrettyIsLines | include/thirdparty/picojson.h:446-510 | printed pretty, a value is its lines, two spaces for each level, brackets on lines of their own, a space behind every colon and a line break at the end |
| JsonLayout.PlainIsLines | include/thirdparty/picojson.h:446-510 | printed plain, it is the same lines with nothing between them |
| JsonSerializer.EscapeSpelled | include/thirdparty/picojson.h:406-431 | the escape of every byte, in literals |
| JsonText.IntTextSpelled | include/thirdparty/picojson.h:363-371 | an integer is printed as a minus for negative numbers and decimal digits without leading zeros |
| JsonString.CodepointIsEscape | include/thirdparty/picojson.h:608-648 | an escape is accepted exactly when it denotes a scalar value, and the bytes pushed decode to that value; lone and misordered surrogates are rejected |
| JsonString.Utf8Decodes | include/thirdparty/picojson.h:630-646 | the bytes pushed for a scalar value decode to it (section 3 of RFC 3629) |
| JsonString.Utf8Unique | include/thirdparty/picojson.h:630-646 | and no other byte sequence does |
| JsonString.AcceptsGrammar | include/thirdparty/picojson.h:650-684 | every text made of raw bytes, letter escapes and unicode escapes is accepted with the meanings of its items in order, and ends at its quote |
| JsonString.OnlyGrammar | include/thirdparty/picojson.h:650-684 | every accepted text is of that form |
| JsonString.LetterTable | include/thirdparty/picojson.h:660-672 | the escapes of one letter are those of section 7 of RFC 8259 |
| JsonString.DigitTable | include/thirdparty/picojson.h:586-606 | the digits of escapes are hexadecimal, in either case |
| JsonString.ParseString | include/thirdparty/picojson.h:650-684 | the loop accepts what `StringBody` accepts and stops behind the closing quote |
| JsonString.ParseCodepoint | include/thirdparty/picojson.h:608-648 | the code pushes what `Codepoint` says and stops behind the escape |
| JsonString.ParseQuadhex | include/thirdparty/picojson.h:586-606 | four hexadecimal digits are read as their number, anything else is refused |
| JsonString.Combine | include/thirdparty/picojson.h:624-627 | shift, mask and offset give the scalar value of a surrogate pair |
| JsonParser.Value | include/thirdparty/picojson.h:750-798 | every accepted value takes at least one byte, so parsing ends |
| JsonParser.ParseValue | include/thirdparty/picojson.h:750-798 | the parser accepts what `Value` accepts and stops behind it |
| JsonParser.ParseArray | include/thirdparty/picojson.h:686-703 | the loop over items reads what `ArrayBody` says |
| JsonParser.ParseObject | include/thirdparty/picojson.h:705-722 | the loop over members reads what `ObjectBody` says |
| JsonParser.ParseNumberText | include/thirdparty/picojson.h:724-748 | the longest run of number bytes is taken and the byte behind it given back |
| JsonParser.Parse | include/thirdparty/picojson.h:844-870 | parsing succeeds exactly when the text starts with a value, and yields it |
| JsonInput.Input.Getc | include/thirdparty/picojson.h:533-548 | the next byte or -1, with one byte of pushback and the line count kept |
| JsonInput.Input.Ungetc | include/thirdparty/picojson.h:549-554 | the byte read last is given back; the assertion against doing so twice holds at every call |
| JsonInput.Input.SkipSpaces | include/thirdparty/picojson.h:557-565 | white space and nothing else is skipped |
| JsonInput.Input.Expect | include/thirdparty/picojson.h:566-573 | succeeds exactly if the expected byte is the first that is not white space, and consumes it then |
| JsonInput.Input.Match | include/thirdparty/picojson.h:574-583 | succeeds exactly if the pattern comes next, and consumes it then |
| JsonSerializer.Serialize | include/thirdparty/picojson.h:446-510 | the printer writes the text of the value at its indentation |
| JsonSerializer.SerializeString | include/thirdparty/picojson.h:406-431 | the printer writes the escaped and quoted string |
| SegmentedLog.AppendKeeps | include/connection_file.h:169-187 | appending a message keeps one segment per index, the running totals and the frames, extends the log by exactly that message, and keeps the rollover at most one segment ahead |
| SegmentedLog.RolloverByOne | include/connection_file.h:349-352 | a frame no larger than a segment advances the segment index by at most one |
| SegmentedLog.ReadFinds | include/connection_file.h:134-162 | the sum of the first k frame sizes is translated to the segment and the place of message k |
| SegmentedLog.ReadEnds | include/connection_file.h:134-162 | at the total size nothing is found |
| SegmentedLog.AppendPlaces | include/connection_file.h:332-366 | an append puts its message into the segment with the number of its global offset divided by the segment size |
| SegmentedLog.ReadsFromItsSegment | include/connection_file.h:134-162 | every message is read from that segment |
| SegmentedLog.BeforeIsSize | include/file_details.h:336-338 | the running total of each segment is the size of all messages up to its end |
| SegmentedLog.AccountedIffNotEmpty | include/file_details.h:208-235 | the totals account for the bytes of a segment after an append if and only if the message is not empty |
| SegmentedLog.CurrentExistsIff | include/connection_file.h:349-362 | the current segment exists after `set_current_file` if and only if the total is at most one segment ahead |
| SegmentedLog.LongFrameSkips | include/connection_file.h:349-362 | a concrete frame longer than a segment, after which it does not exist |
| SegmentedLog.Le32ReadsBack | include/file_details.h:389-410 | the four length bytes read back as the length |
| FileLog.FileDetails.WriteAll | include/file_details.h:348-390 | the loops over short `pwrite`s append everything |
| FileLog.FileDetails.WriteMsg | include/file_details.h:208-240 | header and payload are appended; an empty message leaves its header and reports nothing written |
| FileLog.FileDetails.ReadMsg | include/file_details.h:60-88 | at any offset of any file: a length is read, and as many bytes as it says, repeating what is left at the end of the file; the result is the size of both, -1 behind the end, and the length alone when it is 0, too large for the buffer, or nothing follows it |
| FileLog.ReadsFrame | include/file_details.h:60-88 | at a frame the message is read and the size of its frame returned |
| FileLog.FrameSizeIffRead | include/file_details.h:72-86 | a positive result is the size of a frame if and only if a message was read |
| FileLog.MissingPayload | include/file_details.h:81-86 | a length at the end of a file is reported as a size read |
| FileLog.ConnectionFile.SetCurrentFile | include/connection_file.h:332-366 | the first file is created, or the next one when the total has passed the current segment |
| FileLog.ConnectionFile.WriteToFile | include/connection_file.h:169-206 | the log becomes the one `Append` describes, empty messages included |
| FileLog.ConnectionFile.Read | include/connection_file.h:134-162 | at any offset: what the first file whose running total is larger yields, or a later one when nothing can be read there; -1 if none does, 0 without files |
| FileLog.ReadsAt | include/connection_file.h:134-162 | at the offset of a message the message is read, past the end nothing is |
| FileLog.FileTopic.Produce | include/connection_file.h:169-187 | one message is appended and nothing delivered changes |
| FileLog.FileTopic.Fetch | include/broker_storage.h:170-175 | the frame at the cursor is read, and the byte behind it that the terminator is stored to exists if and only if the message is more than five bytes shorter than the buffer |
| FileLog.LargestOverruns | include/broker_storage.h:175 | a topic accepts a message of the largest size, and reading it leaves no place in the buffer for the terminator |
| FileLog.OnlyLargestOverrun | include/broker_storage.h:175 | of the messages that fit the log, just the two largest sizes leave it no place |
| FileLog.FileTopic.Consume | include/broker_storage.h:154-176 | when the terminator fits the next message: however appends and reads interleave, each read delivers the next message not delivered yet, from offset 0 on, in order and across segments |
| DigitCounting.CountDigits | include/thirdparty/spdlog/details/format.h:641-649 | the bit trick counts the decimal digits of every 64-bit number |
| DigitCounting.CountDigitsLoop | include/thirdparty/spdlog/details/format.h:660-679 | so does the loop |
| DigitCounting.BothForms | include/thirdparty/spdlog/details/format.h:641-679 | both forms agree on every 64-bit number |
| DigitCounting.TableIsPowers | include/thirdparty/spdlog/details/format.cc:408-433 | the table holds the powers of ten up to 10^19 |
| IntFormat.TableEntry | include/thirdparty/spdlog/details/format.cc:401-406 | entry v of the table is the two-digit text of v |
| IntFormat.FormatInt.FormatDecimal | include/thirdparty/spdlog/details/format.h:2629-2654 | the digits are written from the end, inside the buffer, and are those of the value |
| IntFormat.FormatInt.FormatSigned | include/thirdparty/spdlog/details/format.h:2656-2665 | the text is the value in plain decimal, for every 64-bit value |
| IntFormat.Writer.FormatDecimal | include/thirdparty/spdlog/details/format.h:682-706 | the places of the digits, and no others, get the digits of the value |
| IntFormat.Writer.PrepareIntBuffer | include/thirdparty/spdlog/details/format.h:2023-2094 | the buffer grows by the padding, the prefix and room for the digits, everything before is kept, and the result is the place of the last digit |
| IntFormat.Writer.WriteInt | include/thirdparty/spdlog/details/format.h:2096-2203 | for the types none, d, x, X, b, B and o, and for no others, the parts of WrittenSpelled are appended; an unknown type writes nothing |
| IntFormat.WrittenSpelled | include/thirdparty/spdlog/details/format.h:2023-2203 | in literals: base 16 in lower case for x and in upper case for X, base 2 for b and B, base 8 for o, base 10 for d and none; the sign by value and flags; the marks 0x, 0X, 0b, 0B and 0; zeros of a precision; the fill where the alignment says |
| IntFormat.WidthAndAlignment | include/thirdparty/spdlog/details/format.h:2023-2094 | the text is as wide as asked or as wide as it must be, padded where the alignment says |
| IntFormat.WrittenReadsBack | include/thirdparty/spdlog/details/format.h:2096-2203 | between padding and prefix stand digits that read back in base 16, 2, 8 or 10 as the magnitude, also behind the zeros of a precision or zero fill, and without leading zero of their own |
| IntFormat.NumeralReadsBack | include/thirdparty/spdlog/details/format.h:2113-2190 | digits read back as their number, also behind zeros, and start with 0 only for 0 |
| IntFormat.PlainIsDecimal | include/thirdparty/spdlog/details/format.h:2096-2118 | without a specification the text is plain decimal |
| IntFormat.DecimalSpelled | include/thirdparty/spdlog/details/format.h:2619-2712 | plain decimal is a minus for negative numbers and the decimal digits without leading zeros |
| IntFormat.BothFormatters | include/thirdparty/spdlog/details/format.h:2619-2712 | `FormatInt` and `write_int` yield the same text |
| RotatingSink.Sink.SinkIt | include/thirdparty/spdlog/sinks/file_sinks.h:87-96 | the message is the last of the newest generation, in a new one if the limit would be passed; every other generation keeps its messages or moves on by one, and only the oldest is dropped |
| RotatingSink.Sink.SinkAll | include/thirdparty/spdlog/sinks/file_sinks.h:87-139 | after any run the generations, oldest first, are a suffix of the messages logged, cut between messages, and each is within the limit or holds one message |
| RotatingSink.Sink.Rotate | include/thirdparty/spdlog/sinks/file_sinks.h:118-139 | every file moves on by one, the oldest is deleted, the newest is empty, other files are untouched |
| RotatingSink.NamesDiffer | include/thirdparty/spdlog/sinks/file_sinks.h:100-108 | different generations have different file names |
| RotatingSink.NameSpelled | include/thirdparty/spdlog/sinks/file_sinks.h:100-108 | the newest file is base.extension, generation i is base.i.extension |
| RotatingSink.LoggedIs | include/thirdparty/spdlog/sinks/file_sinks.h:87-96 | a message that would pass the limit is alone in a new generation and the oldest goes; any other joins the newest |
| RotatingSink.LoggedOldest | include/thirdparty/spdlog/sinks/file_sinks.h:87-96 | a message logged extends the sequence at its end and drops at most the oldest generation |
| BoundedQueue.Make | include/thirdparty/spdlog/details/mpmc_bounded_q.h:78-90 | a queue is made exactly for the powers of two from 2 on, and it is empty |
| BoundedQueue.Queue.Enqueue | include/thirdparty/spdlog/details/mpmc_bounded_q.h:98-124 | called alone, the value is put behind the contents, or nothing changes and the result is false exactly when the queue is full |
| BoundedQueue.Queue.Dequeue | include/thirdparty/spdlog/details/mpmc_bounded_q.h:126-149 | called alone, the oldest value is removed and returned, or there is none |
| PowersOfTwo.PowerTest | include/thirdparty/spdlog/details/mpmc_bounded_q.h:83 | `x & (x - 1)` is zero exactly for powers of two |

## Findings

Where the code does not do what it promises on every input, the input and the exact condition are proved.

| what fails | input | condition | members |
|---|---|---|---|
| a block is returned to the free list twice, or an entry with no block is gone through | `try_dequeue_bulk` with a maximum of 0 beside another consumer (`concurrentqueue.h:972-982`, `2487-2587`); `set_many_empty` assumes a count above 0 (`1351`) | every bulk dequeue asks for at least one element | `ZeroMaximum.ReturnedOnceIff`, `ZeroMaximum.LookupsSoundIff`, `ZeroMaximum.AccessesValidIff` |
| the terminator of `broker_storage.h:175` is stored behind the end of the buffer | a message of `max_msg_size` - 5 or `max_msg_size` - 4 bytes, which the log accepts | the message has at most `max_msg_size` - 6 bytes | `FileLog.FileTopic.Fetch`, `FileLog.OnlyLargestOverrun`, `FileLog.LargestOverruns` |
| the totals do not count the header of a message (`connection_file.h:182-186`) | an empty message | the message is not empty | `SegmentedLog.AccountedIffNotEmpty` |
| the current segment does not exist after a rollover (`connection_file.h:349-362`) | a frame longer than a segment | the total is at most one segment ahead | `SegmentedLog.CurrentExistsIff`, `SegmentedLog.LongFrameSkips` |
| the next power of two is 0 (`readerwriterqueue.h:519-531`) | 0, and numbers above 2^63 | 0 < x <= 2^63 | `PowersOfTwo.CeilToPow2` |
| a read that fails returns a positive size (`file_details.h:76-86`) | a file that ends behind a length | a message follows the length and fits the buffer | `FileLog.FrameSizeIffRead`, `FileLog.MissingPayload` |

## Left out

- Weak memory orders and fences: every access is sequentially consistent, as the acquire and release pairs of the source intend.
- Update in place with several threads: the states of the concurrent structures are values and a step makes the next one. ReaderWriterQueue and BoundedQueue have the update in place, for one thread. Alignment, padding, placement construction and destructors are not captured.
- Indices and counters of `concurrentqueue.h` and `mpmc_bounded_q.h` are unbounded; `circular_less_than` is `<`, which it is while fewer than 2^63 indices are alive.
- `ExplicitProducer` block handling, the implicit `enqueue_bulk`, token rotation, moves, swaps, exceptions of element constructors, thread-exit listeners, the initial block pool and bounded sub-queues of `concurrentqueue.h`: no new ideas for the invariants proved.
- ThreadHash.OneProducerPerThread: threads do not exit and no allocation fails, because ids are given back only by exit listeners.
- AsyncLog.DrainedBeforeExit: the overflow policy is block_retry, the worker meets no exception and no user logs at level off; with the discard policy messages are lost by design.
- AsyncLog: formatting and the work of the sinks are steps without content; sleeping and yielding are not modelled.
- JsonRoundTrip.RoundTrip: covers no doubles; a double is kept as the text `strtod` reads, since printing and reading it depends on the C library. A number too large for a double makes the source throw; that is not modelled.
- JsonParser: the contents of a value and the place of the cursor after a failed parse, and the text of error messages, are not stated.
- JsonParser.ParseNumberText: the locale's decimal point is ".".
- FileLog: writes may be short but neither writes nor reads fail, and `pread` is short only at the end of a file. The length header is in the byte order of the host, and the variants with a byte-order flag, without a header or with a trailing offset are not modelled.
- FileLog.FileDetails.ReadMsg: needs that the bytes of a length it reads have a place behind the header in the buffer (HasPlace), because the source stores them without a check.
- FileLog.ConnectionFile.Read: needs the same of every message it tries. An offset that wraps below 0 is negative here, and nothing is read there.
- FileLog.ConnectionFile.WriteToFile: needs the segment to write to, because the source indexes `file_fds_` with it; SegmentedLog.CurrentExistsIff says when it exists. `fd_to_use` and `bytes_written` are natural numbers, not of 32 bits.
- FileLog.FileTopic.Consume: needs a message the terminator fits, because the source stores it without a check; FileTopic.Fetch says when it does.
- ImplicitProducer: its main results need that no caller asks for 0 elements; ZeroMaximum shows that they need it.
- SegmentedLog.AppendKeeps: needs a message of 1 to max_msg_size - 4 bytes and a frame no larger than a segment; AccountedIffNotEmpty, CurrentExistsIff and LongFrameSkips say what happens otherwise.
- Delivery by sendfile and the stripping of bytes for ZMQ in `broker_storage.h`: foreign calls, and the bytes stripped there are not the four that are written.
- IntFormat: `prepare_int_buffer` on 32-bit sizes that overflow, and pointers into the buffer staying valid when it grows; an index stands for a pointer. Shifts and masks of digits are quotients and remainders.
- `write_double` and `parse_nonnegative_int` of the formatting library.
- RotatingSink: no file operation fails, and none of the files exists at the start, since the source does not count what a file already holds.
- Sockets, the ZMQ monitor, the C interface, the admin commands and the broker manager: input and output, and copying of fields.
