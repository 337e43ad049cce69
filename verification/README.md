# D-StreaMon engine: a verified model

The D-StreaMon engine is a C++ stream processor: blocks exchange packets through gates, keep approximate
sets of what they have seen, and are woken by timers.  This project models its hard parts in Dafny and
proves what they are meant to guarantee.

- **Queue** (`DBQueueProtocol.dfy`, `DBQueueOrder.dfy`, `DBQueuePop.dfy`, `DBQueue.dfy`, `BlockTurn.dfy`,
  `Block.dfy`).  The double-buffered queue behind every active input gate, twice: as a transition system of any
  number of producers and one consumer, split at every shared access, with the exact condition under which it
  keeps its order, and as a class over slot arrays that refines a bounded FIFO.  Gates and the run loop of a
  block are its clients; a turn of that loop is specified by when each message was delivered.
- **Bloom stack** (`Bits.dfy`, `Khash.dfy`, `Bloom.dfy`, `BloomPair.dfy`).  Indices cut out of a chain of
  192-bit digests, a packed filter with an exact zero counter and a serialised form, and pairs of filters
  that age by swapping, down a chain of slaves.
- **Timers** (`TimerThread.dfy`).  A binary heap of one-shot and periodic timers, filled from a staging
  queue and emptied round by round.
- **Packets** (`Packet.dfy`, `PacketOctets.dfy`).  Four mutually triggering lazy parsers with a cache, against
  one eager parse, and that against the octets of the frame.
- **Digests** (`Sha1.dfy`, `Sha1Example.dfy`, `Murmur.dfy`, `MurmurExample.dfy`).  Streaming SHA-1 against
  FIPS PUB 180-1, and the invertibility of MurmurHash3; one known value of each.
- **Batches** (`MemoryBatch.dfy`).  Messages built in place in shared, rolled-over buffers.

`dafny verify dfyconfig.toml` checks everything.  State that the engine updates in place is a class with
fields and arrays, each method tied to a specification function; ghost fields record what the class stands
for.  The main laws are lemmas about those functions and invariants of the classes.

Where code and comments disagree the model follows the code:

- `next_time` of a periodic timer is documented as the last scheduled time plus the period
  (`d-streamon/core/scheduler/Timer.hpp:175`); the code adds the period to the present time.
- The queue drops a slot whose producer is slow (`d-streamon/core/block/DBQueue.hpp:80`).  The ordering laws
  hold as long as that does not happen and each epoch has fewer than 2^30 tickets, and from the first such step
  on they can be broken, and runs of the program reach both kinds of step (`DBQueueOrder.dfy`).  The law of one
  place holds for all runs.
- The constructor's assert against an endless extraction (`d-streamon/lib/bloom/khash.cpp:40-42`) does not
  exclude one for an arbitrary pair hash.  Whether `compute` returns is decided when its chain first comes back
  to a place, and at the latest after as many chunks as there are places.
- `alloc_msg_from_buffer` does not look at its second `reserve`; a message larger than a batch is constructed
  at the null address.
- `next_time` takes any period; one of zero can make a round drop its timer or fire it twice.

## Model

| member | source | states |
|---|---|---|
| `DBQueueProtocol.ExactlyOnceInOrder` | `d-streamon/core/block/DBQueue.hpp:51-157` | for every interleaving of any number of producers and one consumer (no slot skipped, fewer than 2^30 tickets an epoch) the popped messages are exactly the first accepted pushes, ordered by swap epoch and slot, and FIFO per producer |
| `DBQueueOrder.CleanIsExact` | `d-streamon/core/block/DBQueue.hpp:51-157` | that condition on runs is exact: a schedule skips no slot and overflows no ticket word if and only if, from every state it passes, whatever the program can do without skips and overflows delivers in order |
| `DBQueueOrder.OrderNeedsGoodSteps` | `d-streamon/core/block/DBQueue.hpp:66-157` | the same for one step from any sound state: it is neither a skip nor the 2^30th ticket of an epoch if and only if everything the program can cleanly do afterwards delivers a prefix of what was accepted, in order |
| `DBQueueOrder.KeptExactly` | `d-streamon/core/block/DBQueue.hpp:66-157` | a step keeps the protocol invariant if and only if it is neither of the two |
| `DBQueueOrder.SkipBreaksOrder` | `d-streamon/core/block/DBQueue.hpp:70-80` | from every sound state in which the consumer gives up on a slot, the program goes on, by clean steps of its own, to deliver the message accepted next in the place of the skipped one |
| `DBQueueOrder.OverflowBreaksOrder` | `d-streamon/core/block/DBQueue.hpp:141-145` | from every sound state in which a ticket count runs into the queue bits, it goes on to deliver the first message accepted afterwards in the place of one accepted before |
| `DBQueueOrder.SkippingDisorders` | `d-streamon/core/block/DBQueue.hpp:66-83` | every queue of every size with a producer has such a run: a clean run leads to a skip, and from there to the delivery of the next message in the place of the skipped one |
| `DBQueueOrder.OverflowDisorders` | `d-streamon/core/block/DBQueue.hpp:57-63` | and a run of the other kind: since m_full is cleared after the exchange, one producer that fills the buffer in between finds it open for good, and counts the word of tickets out, by clean steps up to the 2^30th; from there a later message takes the place of an accepted one |
| `DBQueueOrder.NextDelivery` | `d-streamon/core/block/DBQueue.hpp:51-157` | from any sound state with an idle producer the program, by clean steps of its own, delivers one more message: no run ever gets stuck with nothing left to deliver |
| `DBQueueOrder.LeadsMeans` | `d-streamon/core/block/DBQueue.hpp:51-157` | what these laws call leading from one state to another is a clean schedule of the program's own steps, none of them a stale view of m_full |
| `DBQueueProtocol.SlotsAreExclusive` | `d-streamon/core/block/DBQueue.hpp:51-157` | in the same runs, with m_full holding any value at any moment, no two producers own one slot, the consumer moves no payload and clears no flag of a slot a producer may still write, the queue bit of m_pointer is always the opposite of m_consumer_q, and the assert of push holds |
| `DBQueueProtocol.StaleKeepsInv` | `d-streamon/core/block/DBQueue.hpp:139-140` | replacing m_full by any value keeps the whole invariant, so a late set or a lost clear only causes rejections |
| `DBQueueProtocol.AnswersTellTheTruth` | `d-streamon/core/block/DBQueue.hpp:137-157` | a completed push returned true if and only if it got a ticket that the queue recorded: nothing accepted is refused, nothing refused is delivered |
| `DBQueueProtocol.StepsRefineFifo` | `d-streamon/core/block/DBQueue.hpp:66-83` | each atomic step leaves the abstract FIFO as it is, appends the pusher's message (at fetch_add) or delivers its head; an exchange that takes over no ticket happens on an empty queue |
| `DBQueueProtocol.EmptyAnswerIsRight` | `d-streamon/core/block/DBQueue.hpp:127-133` | when pop returns false, everything accepted before its own exchange has been delivered |
| `DBQueuePop.PopDelivers` | `d-streamon/core/block/DBQueue.hpp:127-133` | a pop that begins with the oldest message published delivers it, on every clean schedule and whoever is inside push, after exactly 3 of the consumer's steps if its batch is not read up, else 6 more than the batch has slots; before that it is neither back nor has it delivered anything |
| `DBQueuePop.PopEnds` | `d-streamon/core/block/DBQueue.hpp:127-133` | on any step from any state of a pop: it ends with one delivery more, or else behind one exchange of its own with the batch taken over read up; so it never comes back empty-handed from its first look |
| `DBQueuePop.PopEnters` | `d-streamon/core/block/DBQueue.hpp:127-129` | every pop begins inside, whatever the state |
| `DBQueuePop.HundredLooks` | `d-streamon/core/block/DBQueue.hpp:70-80` | a slot that stays unpublished is looked at a hundred times, and only then passed over |
| `DBQueueProtocol.ConsumerDrains` | `d-streamon/core/block/DBQueue.hpp:66-83` | once no producer is inside push, the consumer alone delivers every accepted message in finitely many steps |
| `DBQueueProtocol.EveryMessageInOnePlace` | `d-streamon/core/block/DBQueue.hpp:66-84` | on every schedule, skipped slots included, a started push is in exactly one place (producer's hand, given back, one slot, delivered, destroyed in its slot) and no other message is anywhere: at most once, nothing invented |
| `DBQueueProtocol.RunKeepsInv` | `d-streamon/core/block/DBQueue.hpp:51-157` | the full protocol invariant (words, tickets, owners, books, slots, deliveries) holds after every clean schedule |
| `DBQueueProtocol.FetchKeepsInv` | `d-streamon/core/block/DBQueue.hpp:141-152` | the fetch_add gives out the next slot of the producers' buffer, records it in order, and keeps the invariant |
| `DBQueueProtocol.SwapKeepsInv` | `d-streamon/core/block/DBQueue.hpp:57-63` | the exchange turns the producers' batch into the consumer's while producers may still be writing into it, and keeps the invariant |
| `DBQueueProtocol.DeliverKeepsInv` | `d-streamon/core/block/DBQueue.hpp:74-76` | moving a payload out delivers the oldest accepted message and keeps the invariant |
| `DBQueue.Queue.Push` | `d-streamon/core/block/DBQueue.hpp:137-157` | called by one thread at a time: fails if and only if the producers' batch already has Qlen entries, else appends to the FIFO content |
| `DBQueue.Queue.Pop` | `d-streamon/core/block/DBQueue.hpp:127-133` | fails if and only if the queue is empty, else removes and returns the head of the unread batch followed by the producers' batch |
| `DBQueue.Queue.Consume` | `d-streamon/core/block/DBQueue.hpp:66-83` | yields the head of the consumer's batch, or leaves everything as it was when that is read up |
| `DBQueue.Queue.SwapQueues` | `d-streamon/core/block/DBQueue.hpp:51-64` | frees the read batch and takes the producers' batch over whole |
| `DBQueue.Queue.Reset` | `d-streamon/core/block/DBQueue.hpp:160-176` | drops everything and restores the state of a new queue |
| `DBQueue.Queue.Assign` | `d-streamon/core/block/DBQueue.hpp:106-125` | move assignment gives the content of the source; the target is a sound queue if and only if it had no flag set on a slot that is free in the source |
| `Block.InGate.Dequeue` | `d-streamon/core/block/InGate.hpp:55-60` | hands out the head of the gate's queue, or null when it is empty |
| `Block.Block.RegisterInputGate` | `d-streamon/core/block/Block.cpp:29-35` | adds an empty gate, with a queue of 1024, under the next id and leaves the others alone |
| `Block.Block.Deliver` | `d-streamon/core/block/InGate.cpp:6-13` | appends the message to what one gate of an active block was given, or loses it exactly if the producers' batch of that gate is full; other gates are left alone |
| `Block.Block.DrainGate` | `d-streamon/core/block/Block.cpp:19-24` | takes of one gate, in order, exactly the messages that had been delivered by the time the loop asked for them, ten at most; handlers may deliver to any gate meanwhile |
| `Block.Block.Run` | `d-streamon/core/block/Block.cpp:6-27` | one turn is Turn: all queued timers, then of each gate, in order and gate by gate, exactly the messages delivered by the time its loop asked for them, ten at most, then the block's own work; the gates keep exactly the rest of what they were given, whatever handlers deliver meanwhile |
| `Block.Block.RunTurns` | `d-streamon/core/block/Block.cpp:6-27` | so many turns are made, each as Turn says, with nothing but deliveries in between; over all of them the block sees of each gate exactly the messages given to it first, in their order, each once, and the others are still in its queue |
| `BlockTurn.TurnServesWaiting` | `d-streamon/core/block/Block.cpp:17-25` | a turn serves of each gate at least what was waiting before it, ten messages at most, and exactly that if the gate is given nothing meanwhile |
| `BlockTurn.TurnIsFaithful` | `d-streamon/core/block/Block.cpp:17-25` | a turn keeps this: what was seen of each gate is the front of what it was given |
| `BlockTurn.ShareIs` | `d-streamon/core/block/Block.cpp:19-24` | how much one loop takes: the messages taken were each delivered in time, and they were ten, or all, or the next one was not |
| `BlockTurn.HandedStays` | `d-streamon/core/block/Block.cpp:17-25` | what is delivered to a gate once its loop is over makes no difference to the turn |
| `BlockTurn.GatesInOrder` | `d-streamon/core/block/Block.cpp:17-25` | a turn goes through the gates in the order of their numbers |
| `Khashing.SlicesAreExact` | `d-streamon/lib/bloom/khash.cpp:181-246` | with repeats allowed, index k is bits [k*shash, (k+1)*shash) of the unbounded digest stream, bit by bit, for any shash (indices counted from 0) |
| `Khashing.DigestPairs` | `d-streamon/lib/bloom/khash.cpp:155-157` | each pair of words of a digest is the pair hash of the input seeded with the same pair of the digest before, and in the first digest with 1 and 2, 3 and 4, 5 and 6 |
| `Khashing.CutOfChain` | `d-streamon/lib/bloom/khash.cpp:181-246` | bit j of chunk i is bit i*shash+j of the digests, 192 bits each, 32 to a word, low ones first |
| `Khashing.CutOfGiven` | `d-streamon/lib/bloom/khash.cpp:60-107` | the same for one given digest |
| `Khashing.SelectedAreDistinct` | `d-streamon/lib/bloom/khash.cpp:249-251` | without repeats the indices are pairwise distinct |
| `Khashing.SelectedMissNothing` | `d-streamon/lib/bloom/khash.cpp:249-251` | every chunk cut from the stream is among the values kept |
| `Khashing.SelectedAreFirsts` | `d-streamon/lib/bloom/khash.cpp:249-251` | each value kept is the first appearance of its chunk, and the values kept before it are those of the stream before it |
| `Khashing.OutcomeIsUnique` | `d-streamon/lib/bloom/khash.cpp:183-252` | an extraction has one outcome at most, however it is reached |
| `Khashing.CutAcross` | `d-streamon/lib/bloom/khash.cpp:236-239` | the two-part expression for a chunk that straddles words is the number made of the stream's bits |
| `Khashing.CutInside` | `d-streamon/lib/bloom/khash.cpp:186` | the shift and mask of a chunk inside one word is the number made of the stream's bits |
| `Khashing.ChainShows` | `d-streamon/lib/bloom/khash.cpp:155-157` | behind any word of any digest of the chain come the bits of the next word, or of the next digest's first one |
| `Khashing.BitmaskIsMask` | `d-streamon/lib/bloom/khash.h:74-79` | bitmask(n) is 2^n - 1, also for 0 and 32 |
| `Khashing.Khash.constructor` | `d-streamon/lib/bloom/khash.cpp:22-46` | under the asserted parameter ranges the result array has room for nhash indices counted from 1 |
| `Khashing.Khash.SkipRepeat` | `d-streamon/lib/bloom/khash.cpp:250` | the duplicate scan, though it lowers its own bound, steps back exactly once if the new value is a repeat and not at all otherwise |
| `Khashing.Khash.Refill` | `d-streamon/lib/bloom/khash.cpp:222-224` | three in-place pair hashes, each over its own two words and into them, make the next digest of the chain |
| `Khashing.Khash.CutChain` | `d-streamon/lib/bloom/khash.cpp:184-243` | one pass of the loop cuts exactly the next chunk of the chain, refilling on the way, and its pointer assert holds |
| `Khashing.Khash.Split` | `d-streamon/lib/bloom/khash.cpp:60-107` | succeeds if and only if the wanted indices all lie in the 192 bits given, and then yields exactly the chunks (without repeats: the first nhash distinct ones) |
| `Khashing.Khash.Compute` | `d-streamon/lib/bloom/khash.cpp:122-252` | whenever the chain offers enough indices it returns, with exactly the first nhash chunks or distinct chunks of D0, D1, ... |
| `Khashing.RepeatsAlwaysComplete` | `d-streamon/lib/bloom/khash.cpp:183` | with repeats allowed the extraction always completes |
| `Khashing.ReturnDecides` | `d-streamon/lib/bloom/khash.cpp:183-252` | without repeats, once the chain comes back to a place (digest and bit) it has been at before a chunk, the extraction completes if and only if it has completed by then |
| `Khashing.CompletesWithinPlaces` | `d-streamon/lib/bloom/khash.cpp:183-252` | without repeats it completes if and only if it does so within 192 * 2^192 chunks, as many as there are places, whatever the pair hash |
| `Khashing.ConstantHashNeverCompletes` | `d-streamon/lib/bloom/khash.cpp:40-42` | for an arbitrary pair hash the constructor's assert does not exclude an endless extraction: one that always yields zero offers a single index |
| `Bloom.SetsIndex` | `d-streamon/lib/bloom/bloom.cpp:55-63` | the test and the set of one packed bit: the test sees membership, the set adds that index and disturbs no other |
| `Bloom.BloomFilter.constructor` | `d-streamon/lib/bloom/bloom.cpp:14-26` | a new filter is empty and its zero counter exact |
| `Bloom.BloomFilter.Clear` | `d-streamon/lib/bloom/bloom.cpp:40-43` | clearing empties the set of stored indices and makes the zero counter exact |
| `Bloom.BloomFilter.Insert` | `d-streamon/lib/bloom/bloom.cpp:51-68` | adds exactly the outcome of the input's extraction, keeps the zero counter exact even for repeated indices, and returns true if and only if some index was new |
| `Bloom.BloomFilter.Check` | `d-streamon/lib/bloom/bloom.cpp:71-82` | true if and only if all indices of the input are stored |
| `Bloom.BloomFilter.SetBits` | `d-streamon/lib/bloom/bloom.cpp:85-108` | the same as Insert for a digest given by the caller |
| `Bloom.BloomFilter.CheckBits` | `d-streamon/lib/bloom/bloom.cpp:111-126` | the same as Check for a digest given by the caller |
| `Bloom.BloomFilter.SetIndex` | `d-streamon/lib/bloom/bloom.cpp:54-64` | one round of the insertion loop sets bit d % 8 of byte d / 8, always inside the array, and tells whether it was clear |
| `Bloom.Replay` | `d-streamon/lib/bloom/bloom.cpp:40-108` | after any run of insert, set_bits and clear the array holds exactly the union of the inserted elements' indices since the last clear, and the zero counter is exact |
| `Bloom.FoundUntilCleared` | `d-streamon/lib/bloom/bloom.cpp:71-82` | an inserted element's indices stay stored until a clear |
| `Bloom.ImageRoundTrip` | `d-streamon/lib/bloom/bloom.cpp:140-190` | parsing a serialised filter restores parameters and array if and only if shash is 3 to 30 (or the small array is clear) and nhash is at most 2^shash; a 31-bit filter comes back as NULL |
| `Bloom.ImageOctets` | `d-streamon/lib/bloom/bloom.cpp:152-160` | the image is nhash and shash, four octets each with the low one first, then the array |
| `Bloom.ImageIsEnough` | `d-streamon/lib/bloom/bloom.cpp:167-190` | a buffer longer than the image is read as the image |
| `Bloom.ImageIsNeeded` | `d-streamon/lib/bloom/bloom.cpp:171-183` | a buffer cut short of the image, of a filter with 3 bits of index or more, is read as NULL |
| `Bloom.ParsedIsImage` | `d-streamon/lib/bloom/bloom.cpp:175-187` | a filter is read only from buffers that begin with the image of its parameters and array |
| `Bloom.BloomFilter.Serialize` | `d-streamon/lib/bloom/bloom.cpp:140-164` | writes nothing and returns -1 for a short buffer, else writes exactly header and array and touches nothing behind them |
| `Bloom.BloomFilter.Deserialize` | `d-streamon/lib/bloom/bloom.cpp:167-190` | gives NULL, a failed assert or a filter exactly as the buffer's header and length say; the zero counter says all zeros |
| `Bloom.BloomFilter.Copy` | `d-streamon/lib/bloom/bloom.cpp:140-190` | a filter without repeats and with 3 to 30 bits of index, sent through its serialised form, stores the same indices with the same parameters; its zero counter is right if and only if no bit is set |
| `BloomPair.TwoGenerations` | `d-streamon/lib/bloom/bloompair.h:28-48` | after any history of one pair the learning filter holds exactly the indices put in since the last swap or clear, the detecting filter exactly those since the last but one |
| `BloomPair.LearningInDetecting` | `d-streamon/lib/bloom/bloompair.cpp:47` | learning is always contained in detecting, which is why the assert in add never fires |
| `BloomPair.DetectedUntilSecondSwap` | `d-streamon/lib/bloom/bloompair.cpp:73-76` | an element is detected until the second swap after it went in, or a clear |
| `BloomPair.ForgottenAtSecondSwap` | `d-streamon/lib/bloom/bloompair.h:35-37` | an index that no element of the last two generations has is no longer detected |
| `BloomPair.ChainAgesLocally` | `d-streamon/lib/bloom/bloompair.h:40-47` | in a chain of slaves of any depth, whatever has happened to each of them before, every pair ages by its own history: its own calls and the swaps of all its masters |
| `BloomPair.DetectedAfter` | `d-streamon/lib/bloom/bloompair.h:28-48` | in any run on any chain, an element added to the pair at j stays detected there as long as that pair has swapped at most once since, the swap of its own adding included, and was not cleared |
| `BloomPair.Pair.constructor` | `d-streamon/lib/bloom/bloompair.cpp:9-23` | two empty filters of one make and the initial threshold over any sound chain of slaves, used or not |
| `BloomPair.Pair.Exchange` | `d-streamon/lib/bloom/bloompair.h:28-38` | the filters change roles, the new learner is emptied, the threshold is rescaled from the zeros of the old detector |
| `BloomPair.Pair.Swap` | `d-streamon/lib/bloom/bloompair.h:28-48` | the pair and all its slaves swap: each filter and each threshold is what its history with one more swap makes it |
| `BloomPair.Pair.Add` | `d-streamon/lib/bloom/bloompair.cpp:43-71` | puts the element into both filters, swaps the chain if and only if the learner then has fewer zeros than the threshold, and returns true if and only if check was false before; filters and thresholds of the whole chain are what the call makes of their histories |
| `BloomPair.Pair.SetBits` | `d-streamon/lib/bloom/bloompair.cpp:80-100` | the same for a digest given by the caller |
| `BloomPair.Pair.Check` | `d-streamon/lib/bloom/bloompair.cpp:73-76` | true if and only if the detecting filter, given by the pair's history, has all indices of the element; the pair stays in order and nothing stored changes |
| `BloomPair.Pair.CheckBits` | `d-streamon/lib/bloom/bloompair.cpp:103-112` | the same for a digest given by the caller |
| `BloomPair.Pair.Clear` | `d-streamon/lib/bloom/bloompair.cpp:31-40` | empties this pair, not its slaves, and resets the threshold |
| `BloomPair.Pair.PerformAt` | `d-streamon/lib/bloom/bloompair.h:40-47` | a call on any pair of the chain is one step of the chain as its head sees it |
| `BloomPair.Pair.PerformAll` | `d-streamon/lib/bloom/bloompair.h:40-47` | any run of adds, set_bits and clears on any pairs of the chain, in any order, is the run of the chain that the laws above speak of |
| `BloomPair.Pair.CheckAt` | `d-streamon/lib/bloom/bloompair.cpp:73-76` | a check on any pair of the chain sees that pair's history |
| `BloomPair.Pair.AddedIsFound` | `d-streamon/lib/bloom/bloompair.cpp:43-76` | end to end: an element added to any pair of any chain is found by check on that pair after any run, until the second swap since, or a clear |
| `TimerThread.PushHeap` | `d-streamon/core/scheduler/TimerThread.hpp:70-74` | appending and sifting up gives a heap of the same timers |
| `TimerThread.PopHeap` | `d-streamon/core/scheduler/TimerThread.hpp:80-86` | the earliest timer goes to the end, the rest is a heap of the same timers |
| `TimerThread.RootIsFirst` | `d-streamon/core/scheduler/TimerThread.hpp:163` | the root of the heap is due no later than any other timer |
| `TimerThread.TimerThread.ScheduleTimer` | `d-streamon/core/scheduler/TimerThread.hpp:120-124` | a new timer is staged and pending, all else stays |
| `TimerThread.TimerThread.Drain` | `d-streamon/core/scheduler/TimerThread.hpp:154-161` | all staged timers move into the heap, none is lost or doubled |
| `TimerThread.TimerThread.ServeRoot` | `d-streamon/core/scheduler/TimerThread.hpp:165-172` | the root is handled and rescheduled: a periodic timer at its period behind a moment not before it was handled; it leaves if that is the time it had, like a one-shot |
| `TimerThread.TimerThread.FireNext` | `d-streamon/core/scheduler/TimerThread.hpp:163-173` | one firing: recorded with its deadline, and the served timer waits, is due again in this round or is dropped as FateOf says of its period and the clock |
| `TimerThread.OneMoreFired` | `d-streamon/core/scheduler/TimerThread.hpp:163-173` | firing the earliest timer extends a round: each due timer once (with a period of zero at most twice), earlier deadlines first, all others as they were |
| `TimerThread.TimerThread.FireAllDue` | `d-streamon/core/scheduler/TimerThread.hpp:163-173` | the inner loop ends, by the number of firings still possible, when exactly the due timers have fired |
| `TimerThread.TimerThread.Round` | `d-streamon/core/scheduler/TimerThread.hpp:152-173` | one wake-up fires exactly the timers, staged ones included, due at or before the sampled time, in order of deadline and each once, whatever the handlers schedule meanwhile; one with a period of zero may fire once more, at the sampled time itself; none due is left in the heap; no timer is lost |
| `TimerThread.TimerThread.Run` | `d-streamon/core/scheduler/TimerThread.hpp:141-182` | so many wake-ups are made, each firing exactly what was due, nothing fires outside of them, each finds in the heap what the one before left there, and what was due before the first fires in it; every firing is a call of a handler; each scheduled timer is staged, in the heap or finished, and only a one-shot or a timer with a period of zero is ever finished; no firing is early; a one-shot fires once; firings of a periodic timer are a period or more apart |
| `TimerThread.Timer.NextTime` | `d-streamon/core/scheduler/Timer.hpp:134-181` | a one-shot keeps its time; a periodic timer gets the present time plus its period |
| `TimerThread.PeriodMustBePositive` | `d-streamon/core/scheduler/Timer.hpp:177-181` | a served periodic timer is alive and past the present round for all clock readings if and only if its period is positive; any other period can have it dropped, and can have it fired again in the same round |
| `Packet.AccessAgrees` | `d-streamon/messages/Packet.hpp:315-386` | from any reachable cache an accessor returns what one eager parse says |
| `Packet.Confluent` | `d-streamon/messages/Packet.hpp:315-456` | after any sequence of accessor calls, on any bytes and any MAC type, every accessor but l3_protocol returns what the eager parse says |
| `Packet.OneFinalState` | `d-streamon/messages/Packet.cpp:28-187` | once all four parsers have run, the whole set of cached fields is the same whatever their order |
| `Packet.L3ProtocolStable` | `d-streamon/messages/Packet.hpp:344-348` | l3_protocol gives the same answer after all histories if and only if the packet is not cut off inside its IP, port or TCP header |
| `Packet.RuntHasTwoTypes` | `d-streamon/messages/Packet.cpp:88-112` | on an empty raw frame l3_protocol answers IPv4 at first and a runt once the IP parser has run |
| `PacketOctets.TypeIsShown` | `d-streamon/messages/Packet.cpp:45-77` | l3_protocol shows the number behind the 802.1Q tags (0x81, 0x00) of an Ethernet frame, 0x0806 for ARP, say, and goes on to show it unless it is 0x0800 |
| `PacketOctets.FrameIsRunt` | `d-streamon/messages/Packet.cpp:34-61` | a frame cut off in front of that number has type 0xFFF2 |
| `PacketOctets.IpHeaderIsRead` | `d-streamon/messages/Packet.cpp:88-107` | behind octets 0x08, 0x00 and any number of tags, or at once in a raw frame, addresses, protocol, TOS and TTL are read from octets 12, 16, 9, 1 and 8 of the header, after any history |
| `PacketOctets.PortsAreRead` | `d-streamon/messages/Packet.cpp:128-133` | for protocols 6 and 17 the ports are the first two numbers behind the header, whose words the low half of its first octet counts |
| `PacketOctets.UdpPayloadIsRead` | `d-streamon/messages/Packet.cpp:136-138` | the payload of protocol 17 is eight octets on, if that is captured |
| `PacketOctets.TcpIsRead` | `d-streamon/messages/Packet.cpp:158-181` | for protocol 6 flags, numbers, window and urgent pointer are read from their octets, and the payload is behind as many words as the high half of octet 12 says |
| `PacketOctets.NothingIsRead` | `d-streamon/messages/Packet.cpp:128-146` | other protocols, and headers that do not fit, have neither ports nor payload |
| `PacketOctets.NameServerAnswer` | `d-streamon/messages/Packet.cpp:120-146` | an answer of a name server, tagged once or not: port 53 and the payload behind 28 octets |
| `PacketOctets.WebRequest` | `d-streamon/messages/Packet.cpp:150-187` | a request to a web server: port 80 and the payload behind 40 octets |
| `Packet.HeadersInBounds` | `d-streamon/messages/Packet.cpp:88-183` | on any bytes each header offset lies inside the captured length and behind the previous one, so no remaining size is negative |
| `Packet.ParseMacSound` | `d-streamon/messages/Packet.cpp:28-77` | the MAC parser keeps the cache canonical for its flags |
| `Packet.ParseIpSound` | `d-streamon/messages/Packet.cpp:80-116` | so does the IP parser |
| `Packet.ParsePortsSound` | `d-streamon/messages/Packet.cpp:120-146` | so does the port parser |
| `Packet.ParseTcpSound` | `d-streamon/messages/Packet.cpp:150-187` | so does the TCP parser |
| `Packet.Tags` | `d-streamon/messages/Packet.cpp:50-63` | the tag loop ends, inside the captured bytes, on a type that is no 802.1Q tag |
| `Packet.LengthsDecode` | `d-streamon/messages/Packet.cpp:17-25` | header lengths in words are read back from the low half of the first IPv4 octet and from the high half of the TCP offset octet |
| `Packet.TagsAreSkipped` | `d-streamon/messages/Packet.cpp:50-63` | any number of well-formed 802.1Q tags is skipped |
| `Packet.EthernetRoundTrip` | `d-streamon/messages/Packet.cpp:45-187` | an encoded Ethernet frame with any number of 802.1Q tags, an IPv4 header with options and a UDP header or a TCP header with options is decoded to its fields and payload |
| `Packet.RawIpRoundTrip` | `d-streamon/messages/Packet.cpp:64-66` | the same for a bare datagram |
| `Packet.ReadsBack` | `d-streamon/messages/Packet.hpp:315-456` | on such a frame every accessor, after any history, returns the encoded field or offset |
| `Packet.Packet.constructor` | `d-streamon/messages/Packet.hpp:111-134` | a new packet has nothing parsed |
| `Packet.Packet.Access` | `d-streamon/messages/Packet.hpp:315-456` | an accessor keeps the cache sound and returns the eager parse's value |
| `Sha1.ZerosAreLeast` | `d-streamon/lib/bloom/sha1.cpp:527-550` | the padding of section 4 of FIPS PUB 180-1 fills up a block with the fewest zero octets |
| `Sha1.HashPrefix` | `d-streamon/lib/bloom/sha1.cpp:204-207` | the chaining value after n blocks depends on those blocks only |
| `Sha1.PadTail` | `d-streamon/lib/bloom/sha1.cpp:527-562` | the padded message behind the last whole block is the rest, the marker, zeros and the bit length, in one block or two |
| `Sha1.SHA1.Reset` | `d-streamon/lib/bloom/sha1.cpp:99-113` | the state of an empty message |
| `Sha1.SHA1.Schedule` | `d-streamon/lib/bloom/sha1.cpp:421-437` | the 16 words of the block, then 64 more, each bit the parity of the bits one place lower of the words 3, 8, 14 and 16 before |
| `Sha1.SHA1.ProcessMessageBlock` | `d-streamon/lib/bloom/sha1.cpp:410-497` | the schedule and the four loops of twenty steps compute the 80 uniform steps of section 7 of FIPS PUB 180-1 |
| `Sha1.SHA1.InputOctet` | `d-streamon/lib/bloom/sha1.cpp:190-207` | takes one octet in, processes a full block, keeps the index below 64, and marks overflow exactly at 2^61 octets |
| `Sha1.SHA1.Input` | `d-streamon/lib/bloom/sha1.cpp:174-211` | appends to the message; spoils the object if and only if it was spoilt, a result was taken, or the message reaches 2^61 octets |
| `Sha1.SHA1.PadMessage` | `d-streamon/lib/bloom/sha1.cpp:520-565` | padding, in one block or two, completes the digest of the message |
| `Sha1.SHA1.Result` | `d-streamon/lib/bloom/sha1.cpp:133-154` | fails if and only if the object is spoilt, else gives the digest of all input, also when asked again |
| `Sha1.HashPieces` | `d-streamon/lib/bloom/sha1.cpp:174-211` | for any split of a message into pieces the result is the digest FIPS PUB 180-1 defines, and there is one if and only if the message has fewer than 2^61 octets |
| `Sha1Example.DigestOfExample` | `d-streamon/lib/bloom/sha1.cpp:410-497` | the digest of "abc" is the one of appendix A of FIPS PUB 180-1, by its 80 steps |
| `Murmur.UndoRotl` | `d-streamon/lib/bloom/MurmurHash3.cpp:34-37` | a rotation is undone by the rest of the turn |
| `Murmur.FmixIsBijective` | `d-streamon/lib/bloom/MurmurHash3.cpp:68-77` | fmix is a bijection, its inverse given |
| `Murmur.MixIsBijective` | `d-streamon/lib/bloom/MurmurHash3.cpp:114-120` | a block step can be undone in the state and in the word |
| `Murmur.SeedIsRecovered` | `d-streamon/lib/bloom/MurmurHash3.cpp:94-146` | for each key the hash is a bijection between seeds and values |
| `Murmur.SeedsDiffer` | `d-streamon/lib/bloom/MurmurHash3.cpp:94-146` | different seeds give one key different hashes |
| `Murmur.WordIsRecovered` | `d-streamon/lib/bloom/MurmurHash3.cpp:110-121` | for each seed and rest of the key the hash is a bijection between the values of one aligned word and the hash values |
| `Murmur.WordsDiffer` | `d-streamon/lib/bloom/MurmurHash3.cpp:110-121` | keys of one length that differ in at most one aligned word hash alike if and only if that word is the same |
| `Murmur.WordsAgree` | `d-streamon/lib/bloom/MurmurHash3.cpp:55-58` | two words are the same if and only if their four octets are |
| `Murmur.TailsDiffer` | `d-streamon/lib/bloom/MurmurHash3.cpp:126-136` | keys of one length with the same blocks hash alike if and only if they are the same |
| `Murmur.TailWordIs` | `d-streamon/lib/bloom/MurmurHash3.cpp:130-135` | the fall-through switch assembles the tail's octets into one number |
| `Murmur.MurmurHash3_x86_32` | `d-streamon/lib/bloom/MurmurHash3.cpp:94-146` | the two loops and the switch compute the specified hash |
| `Murmur.FinalMix` | `d-streamon/lib/bloom/MurmurHash3.cpp:68-77` | the in-place final mix computes the specified one |
| `MurmurExample.HashOfExample` | `d-streamon/lib/bloom/MurmurHash3.cpp:94-146` | the hash of the five octets "hello" with seed 0 is 0x248bfa47, by its steps |
| `MemoryBatch.Batch.Reserve` | `d-streamon/core/message/MemoryBatch.hpp:83-92` | reserves the next bytes unless the sum, computed modulo 2^64, exceeds the size |
| `MemoryBatch.ReserveWraps` | `d-streamon/core/message/MemoryBatch.hpp:86-89` | that test is right if and only if the sum does not wrap around |
| `MemoryBatch.Source.AllocMessage` | `d-streamon/core/message/MemoryBatch.hpp:109-120` | builds the message in the present batch if it fits, else in a new one; a message over 4096*256 bytes, and no other, is constructed at the null address that the second reserve returned; all live messages stay in bounds, disjoint and intact, and owners stay counted |
| `MemoryBatch.Source.Write` | `d-streamon/core/message/MemoryBatch.hpp:118` | what is written behind the live messages leaves them intact |
| `MemoryBatch.Source.Drop` | `d-streamon/core/message/MemoryBatch.hpp:119` | dropping any message, in any order, keeps all that and gives up its share of the batch |
| `MemoryBatch.Source.LetGo` | `d-streamon/core/message/MemoryBatch.hpp:114` | the source's own share is given up, the messages keep theirs |
| `MemoryBatch.Source.FreedWhenUnowned` | `d-streamon/core/message/MemoryBatch.hpp:55-58` | a batch is freed if and only if the source does not hold it and its last message is gone |

## Left out

- The web application, daemon, GUI, configuration, code generators, capture blocks and IPFIX export.
- Weak memory orderings: the steps of the queue protocol are sequentially consistent, and the move of a
  payload is one step.  `reset`, move construction and move assignment are modelled without concurrent callers.
- DBQueue.Queue.Consume: called by one thread at a time every slot of the batch is published, so the loop of
  a hundred looks is a single look there; DBQueueProtocol has the looks and the skip.
- DBQueueProtocol.ExactlyOnceInOrder: excludes 2^30 or more tickets in one swap epoch, where the ticket count
  runs into the queue bits, and schedules that skip a slot; DBQueueOrder.CleanIsExact shows that these are
  exactly the schedules after which the order can be lost.
- Block.Block.Run: no timer is queued during a turn, the block's timer queue is taken to be a FIFO, and other
  threads deliver at no finer points than handlers do; gate connection, passive delivery and gate moves are not
  part of this model.
- `hashlittle2` is a parameter: any function of the input and two seeds.  `compute`'s copy buffer and the debug
  output are not part of this model.
- BloomPair.Pair.AddedIsFound: checks on other pairs in between are not part of the run; each leaves everything
  stored as it was (BloomPair.Pair.CheckAt).
- BloomPair.Pair.Add: the threshold and its rescaling are parameters over the reals; floating-point values
  are not modelled, and a slave is fixed when its master is built.
- The locks of a pair and the printing functions of the filters.
- Bloom.BloomFilter.Serialize: ints are written low byte first, as on the machines the engine runs on.
- TimerThread.TimerThread.Run: block removal (`remove_references`), the start and stop flags and the sleep
  between rounds are not part of this model; `std::push_heap` and `std::pop_heap` are modelled as sifting.
- TimerThread.TimerThread.ScheduleTimer: periods are not negative; with a negative one the inner loop need not
  end, as PeriodMustBePositive tells.
- TimerThread.TimerThread.Round: the clock never goes back, and handlers do not move deadlines
  (`set_time_point` is public, and would move them inside the heap).
- A packet type that was never assigned (MAC types other than Ethernet and raw IP) is an arbitrary value.
- The flag tests of `Packet` derived from the TCP flags, its timestamps, cloning and export.
- SHA-1's character and stream overloads of `Input`; they all come down to the one modelled.
- Murmur.MurmurHash3_x86_32: words are read low octet first; the 128-bit variants are left out.
- MemoryBatch.Source.AllocMessage: a message is its octets; constructors of message types are not modelled (at
  the null address neither), and sizes stay below 2^64 less a batch.
