# The concurrent queue, in Dafny

The repository's server is built on a lock-free multi-producer, multi-consumer queue
(`src/concurrentqueue/`). This project models that queue and proves what its comments
promise: the free list of blocks, the ticket protocol of `dequeue`, the block storage and the
block indices of both kinds of sub-queue, the semaphore, the blocking queue made of the two,
the hash from threads to producers, the walks over the list of producers, and the arithmetic
of indices that wrap around. A second, smaller part models the token printer and parser of
`src/jwt-cpp/jwt.h`.

## How it is modelled

Concurrent protocols are step machines. There are any number of threads, each with a program
counter; one step is one atomic load, store, compare-and-swap or fetch-and-add, in a
sequentially consistent order. Main results are about every state of every run. History that
no step reads (which tickets won, who was given which block, what was read) is part of the
state where a property is about it.

Code of a single writer is a class with the program's fields, loops and rollbacks
(`ImplicitProducer`, `ExplicitProducer`, `ProducerHash`, `ProducerList`, `Emptiness`,
`FreeListMemory`). Between any two atomic accesses of a producer, `Interfere` lets its
consumers take any number of steps.

Whether the heap gives memory is data: a field `memory` of the producers and of the registry
says how many of the next requests are granted. A producer that is `undisturbed` has nobody
taking steps while it runs. Together they make the outcome of an operation a function of what
it finds.

The modules build on each other:

- `Sums`, `Remainders`, `BlockNumbers`, `Circular`: sums over threads, remainders, the block
  of an index, words that wrap.
- `FreeList`, `FreeListMemory`, `BlockPool`: the lock-free list of free blocks, the same list
  in memory, and `requisition_block` on top of it.
- `BlockSupply`: how many new blocks an enqueue can have, from the pool, the index and the heap.
- `Tickets`, `WrappedTickets`: how dequeues claim indices, unbounded and in words.
- `SimpleQueue`: a sub-queue without blocks, tickets over a sequence of elements.
- `BlockIndex`, `ImplicitState`, `ImplicitConsumer`, `ImplicitUpdates`, `ImplicitStages`,
  `ImplicitSupply`, `ImplicitProducer`: an implicit sub-queue; `ImplicitSteps`: its producer's
  atomic steps as one type; `ImplicitQueue`: the tickets, the consumers and those steps together,
  a refinement of `SimpleQueue`.
- `ExplicitState`, `ExplicitUpdates`, `ExplicitStages`, `ExplicitProducer`: an explicit
  sub-queue; `ExplicitSteps`, `ExplicitQueue`: as for implicit ones; `ExplicitBulk`: when a
  failed bulk enqueue is undone, and what comes of one that is not;
  `Emptiness`: how a block knows that it is empty.
- `Semaphore`, `Blocking`: the semaphore, and the blocking queue as the composition of the
  semaphore with the sub-queues.
- `ProducerHash`, `ProducerList`: the chain of hash tables, and dequeuing from all producers,
  each of them a sub-queue of `Tickets`.
- `Base64Url`, `Jwt`: tokens.

`dafny verify dfyconfig.toml` checks everything.

## Where the code does less than one might expect

- A bulk enqueue on an explicit producer that fails says that it undoes its changes
  (`src/concurrentqueue/concurrentqueue.h:2094-2122`). Say it takes `ahead` empty blocks from
  ahead and needs `rest` more. If nobody else interferes, it succeeds exactly if that many are
  obtainable: the room test passes for each, and the pool and the index have them, or memory for
  the difference is granted. If it fails, it is not undone exactly if one block was obtainable,
  or `ahead > 0`, the index was full, one allocation was granted and the pool was empty
  (`ExplicitBulk.Diverges`, `ExplicitProducer.Producer.EnqueueBulk`). With allocation forbidden
  that is: it got one block before it was refused another. In the first case the ring is longer
  than the recorded number of slots, and if blocks are then begun until the index is found full,
  a block in use has lost its entry (`ExplicitBulk.FailureLosesEntry`); the smallest such failure
  is `ExplicitProducer.LeaveBlockBehind`. In the second case the next entry goes to a wrong slot,
  and lookups of the blocks still in use lead to other blocks (`ExplicitBulk.LookupIsMisled`);
  if the whole ring was empty there are none.
- `try_dequeue` fails when all producers appear to be empty
  (`src/concurrentqueue/concurrentqueue.h:1120-1123`). A producer can appear so although it has an
  element that no dequeue is going to take, while another thread has still to return its ticket
  (`ProducerList.FailsWithElementLeft`). What is true of every failure is
  `ProducerList.LeftBehind`, and with no other operation in progress it fails exactly when all
  are empty.
- `circular_less_than` agrees with the order of two indices less than a full range apart exactly
  if the second is less than half the range ahead, and the first at most half the range ahead or
  not at all (`Circular.CircularLessThanIsOrderIff`).
- `jwt::decode` takes everything after the second dot as the signature, also when there are
  more dots (`Jwt.MoreDotsAreAccepted`); section 7.1 of RFC 7515 has exactly three segments.
  Created tokens have exactly two dots.

## Model

| member | source | states |
|---|---|---|
| FreeList.NextKeepsInv | src/concurrentqueue/concurrentqueue.h:1459-1538 | Every step of every thread keeps the whole invariant of the free list: reference words, one tender per node, an acyclic list, disciplined ownership |
| FreeList.RunsKeepInv | src/concurrentqueue/concurrentqueue.h:1450-1550 | The invariant holds in every state of every run of `add` and `try_get`, from the empty list |
| FreeList.WordsCountReferences | src/concurrentqueue/concurrentqueue.h:1473-1538 | A node's low 31 bits are its list reference plus the references threads hold, and its top bit is set exactly while an add is pending |
| FreeList.NextIsFrozen | src/concurrentqueue/concurrentqueue.h:1487-1490 | No step stores to a node's next pointer while any thread holds a reference to it, which is why the CAS of the head has no ABA problem |
| FreeList.TakenNodeIsNotFlagged | src/concurrentqueue/concurrentqueue.h:1491-1493 | A node just taken off the list has no pending add: the assertion in `try_get` |
| FreeList.ReturnedAgainOnlyAfterAdd | src/concurrentqueue/concurrentqueue.h:1459-1510 | Between two returns of a node there is an add of it |
| FreeList.NoDoubleOwnership | src/concurrentqueue/concurrentqueue.h:1459-1510 | In every run a node is returned only after an add of it, with no other return in between |
| FreeList.ListIsAcyclic | src/concurrentqueue/concurrentqueue.h:1516-1538 | Following `freeListNext` from the head visits distinct nodes and ends in null |
| FreeList.NothingIsLost | src/concurrentqueue/concurrentqueue.h:1466-1470 | With no call in progress, a node can be reached from the head exactly when it was added and not returned since |
| FreeList.PendingAddHasAThread | src/concurrentqueue/concurrentqueue.h:1516-1538 | A node whose add is pending has exactly one pusher if its count is zero, and otherwise a holder of a reference and no pusher |
| FreeList.LastHolderPushes | src/concurrentqueue/concurrentqueue.h:1500-1506 | A holder of a pending node cannot pop it, and it becomes the pusher exactly if it drops the last reference |
| FreeList.SoloRankDecreases | src/concurrentqueue/concurrentqueue.h:1473-1538 | From any reachable state, each step of a thread running alone brings its call nearer to the end |
| FreeList.SoloCallEnds | src/concurrentqueue/concurrentqueue.h:1473-1538 | So a call run alone ends within 18 steps, whatever the others are in the middle of |
| FreeList.SoloGet | src/concurrentqueue/concurrentqueue.h:1473-1510 | From any reachable state, a try_get that runs alone takes the first node of the list, and nothing else changes; it comes back with nothing exactly if the list is empty |
| FreeListMemory.Memory.CallAdd | src/concurrentqueue/concurrentqueue.h:1459-1466 | Calling `add` in memory is the machine's call, and keeps the invariant |
| FreeListMemory.Memory.AddStep | src/concurrentqueue/concurrentqueue.h:1466-1471 | The fetch_add of the bit, in memory, is the machine's step |
| FreeListMemory.Memory.PushStep | src/concurrentqueue/concurrentqueue.h:1516-1538 | Each access of add_knowing_refcount_is_zero, in memory, is the machine's step |
| FreeListMemory.Memory.GetStep | src/concurrentqueue/concurrentqueue.h:1478-1489 | Each access of try_get up to the load of next, in memory, is the machine's step |
| FreeListMemory.Memory.GetCasStep | src/concurrentqueue/concurrentqueue.h:1490-1510 | Each access of try_get from the CAS of the head on, in memory, is the machine's step |
| FreeListMemory.Memory.Finish | src/concurrentqueue/concurrentqueue.h:1459-1538 | Running one thread's call to its end in memory terminates, and is that many steps of the machine |
| BlockPool.NextKeepsInv | src/concurrentqueue/concurrentqueue.h:3056-3114 | Every step of block requisition, over the free list's own steps, keeps the account of who owns which block |
| BlockPool.RunsKeepInv | src/concurrentqueue/concurrentqueue.h:3056-3114 | The account holds in every state of every run |
| BlockPool.OneOwner | src/concurrentqueue/concurrentqueue.h:3095-3114 | In every run a block has at most one owner, whether it came from the initial pool, the free list or the heap |
| BlockPool.GrantIsExclusive | src/concurrentqueue/concurrentqueue.h:3095-3114 | A block is granted only when nobody owns it, and it is then not on the free list or on its way there |
| BlockPool.IndexIsBounded | src/concurrentqueue/concurrentqueue.h:3056-3065 | The index of the initial pool passes its size by at most the number of threads, although it is incremented after a separate test |
| BlockPool.EveryBlockIsSomewhere | src/concurrentqueue/concurrentqueue.h:3067-3092 | With no call in progress, a block that was ever given out is with its one owner or reachable from the free list's head, not both and not neither |
| BlockPool.OnlyAllocCreates | src/concurrentqueue/concurrentqueue.h:3095-3114 | In every run a block comes from the heap only once the initial pool is used up, one at a time, and by a requisition that may allocate and has found the free list empty |
| BlockPool.SoloRequisition | src/concurrentqueue/concurrentqueue.h:3095-3114 | From any reachable state, a requisition that runs alone is over within 7 steps: with the next block of the initial pool, else the first of the free list, else one of the heap if it may allocate and memory is granted; with none of the three, nothing has changed |
| Tickets.NextKeepsInv | src/concurrentqueue/concurrentqueue.h:1955-2052 | Every step of single and bulk dequeues with stale reads keeps the account of all ticket units |
| Tickets.RunsKeepInv | src/concurrentqueue/concurrentqueue.h:2248-2338 | The account holds in every state of every run |
| Tickets.NewWinsAreCovered | src/concurrentqueue/concurrentqueue.h:1978-1992 | A thread with ticket `my` that read overcommit `ov` has `ov` lost units below `my`, so each unit it wins leaves an element for itself |
| Tickets.WinsAreBounded | src/concurrentqueue/concurrentqueue.h:1978-1992 | Looking at the last win: no more units are won than elements were published |
| Tickets.HeadNeverPassesTail | src/concurrentqueue/concurrentqueue.h:1992-2003 | The head, with all indices still to be taken from it, stays at or below the tail |
| Tickets.OptimisticCountAccount | src/concurrentqueue/concurrentqueue.h:2250-2269 | The optimistic count is the head plus the overcommit plus the units of dequeues under way |
| Tickets.TicketSafety | src/concurrentqueue/concurrentqueue.h:2551-2619 | Both hold in every state of every run, for any mix of single and bulk dequeues |
| Tickets.HandedOutOnce | src/concurrentqueue/concurrentqueue.h:2003-2003 | The claims are consecutive disjoint ranges: an index is below the head exactly when one claim has it |
| Tickets.ConcurrentReadsAreDisjoint | src/concurrentqueue/concurrentqueue.h:2270-2274 | Two dequeues that are reading have disjoint ranges of published elements |
| Tickets.SoloDequeue | src/concurrentqueue/concurrentqueue.h:2248-2338 | From any reachable state, a dequeue run alone takes min(available, max) elements from the head on, or changes nothing |
| Tickets.SoloCall | src/concurrentqueue/concurrentqueue.h:2248-2338 | The same from the call on: within 7 steps it is over, with all counters as they were but for the head and the optimistic count |
| Tickets.QuiescentDequeue | src/concurrentqueue/concurrentqueue.h:2780-2879 | With no dequeue in progress, optimistic count minus overcommit is the head, and a dequeue comes back empty exactly when the sub-queue is empty |
| WrappedTickets.DistanceRefines | src/concurrentqueue/concurrentqueue.h:2250-2261 | The wrapped distance of a bulk dequeue is compared with zero, and used, as the unbounded one is, below half the range |
| WrappedTickets.SingleTestAgrees | src/concurrentqueue/concurrentqueue.h:1957-1992 | The single dequeue's comparison of the difference with the tail is the same test |
| WrappedTickets.WrappedStepRefines | src/concurrentqueue/concurrentqueue.h:2551-2619 | A step in the program's words, applied to the image of a state, gives the image of the unbounded step |
| WrappedTickets.WrappedRunRefines | src/concurrentqueue/concurrentqueue.h:2551-2619 | A whole run on words, with the same actions, is the image of the unbounded run state by state, as long as the distances compared stay below half the range |
| WrappedTickets.WordsAreSafe | src/concurrentqueue/concurrentqueue.h:1737-1742 | So in a run on words the head never passes the tail, and their wrapped difference is the number of elements left |
| WrappedTickets.SizeApproxRefines | src/concurrentqueue/concurrentqueue.h:1737-1742 | `size_approx` of the words is the unbounded number of elements |
| Circular.CircularLessThanExact | src/concurrentqueue/concurrentqueue.h:477-483 | What `circular_less_than` says of the words of any two indices at most a full range apart |
| Circular.CircularLessThanIsOrderIff | src/concurrentqueue/concurrentqueue.h:477-483 | Of indices less than a full range apart it gives the order exactly if the second is less than half the range ahead of the first, and the first not more than half the range ahead of the second |
| Circular.CircularLessThanFailsAtHalf | src/concurrentqueue/concurrentqueue.h:477-483 | Exactly half the range ahead it gives the wrong answer, for every index |
| Circular.MaskDownOfWrap | src/concurrentqueue/concurrentqueue.h:2958-2961 | Rounding a word down to its block is the word of the rounded index |
| Circular.OffsetRefines | src/concurrentqueue/concurrentqueue.h:2011-2016 | The signed division of the wrapped difference of two bases is the number of blocks between them, with either sign |
| Circular.SlotForRefines | src/concurrentqueue/concurrentqueue.h:2011-2017 | Added to a front slot modulo the power-of-two size, it gives the slot of the unbounded computation |
| Circular.BlockBaseDiffCountsBlocks | src/concurrentqueue/concurrentqueue.h:2067-2069 | The masked difference of a bulk enqueue is the block size times the number of blocks that begin in its range |
| Semaphore.NextKeepsInv | src/concurrentqueue/lightweightsemaphore.h:278-418 | Every step, time-outs included, keeps: waiters = kernel count + releases not posted + max(0, -count), and count = initial + signalled - granted - waiters |
| Semaphore.RunsKeepInv | src/concurrentqueue/lightweightsemaphore.h:278-418 | It holds in every state of every run |
| Semaphore.GrantsAreBacked | src/concurrentqueue/lightweightsemaphore.h:357-391 | What was ever put in is what was granted plus the positive count plus what is in the kernel or on its way there |
| Semaphore.NoOvergrant | src/concurrentqueue/lightweightsemaphore.h:278-418 | In every run the units granted never exceed those there were and were signalled |
| Semaphore.TimedOutWaiterFindsPermit | src/concurrentqueue/lightweightsemaphore.h:299-311 | A timed-out waiter that finds the count not negative has a permit to take, posted or about to be |
| Semaphore.NoLostWakeup | src/concurrentqueue/lightweightsemaphore.h:409-418 | If a thread sleeps and no permit is posted or on its way, every unit has been granted |
| Semaphore.UndoEnds | src/concurrentqueue/lightweightsemaphore.h:333-344 | The undo loop of a timed-out wait ends in two steps when run alone with no signal half done, giving the unit back or taking the permit |
| Semaphore.QuiescentCountIsExact | src/concurrentqueue/lightweightsemaphore.h:420-424 | With no call in progress, `availableApprox` is exact |
| Semaphore.ResultsAreGrants | src/concurrentqueue/lightweightsemaphore.h:379-407 | Calls return exactly what was granted to them, and never more than was asked for; how much a call gets is said by the rows that follow |
| Semaphore.SoloTryWait | src/concurrentqueue/lightweightsemaphore.h:357-390 | From any state, a tryWait(Many) run alone ends in two steps with exactly min(max, positive count) units, and the count is less by them |
| Semaphore.SoloWait | src/concurrentqueue/lightweightsemaphore.h:392-407 | A wait(Many) run alone gets min(max, count) units if the count is positive; otherwise it spins, takes the count one down, and sleeps, or with a zero time-out gives the unit back and returns nothing |
| Semaphore.SoloSpinGets | src/concurrentqueue/lightweightsemaphore.h:314-348 | While it spins, a call run alone that finds a positive count gets min(max, count) units, also when it has no spins left |
| Semaphore.SoloWakes | src/concurrentqueue/lightweightsemaphore.h:330-348 | A sleeper with a permit posted that runs alone takes it, and then as many more as it wants and the count has |
| Semaphore.SoloSignal | src/concurrentqueue/lightweightsemaphore.h:409-418 | A signal run alone adds its units to the count and posts exactly min(units the count is below zero, units signalled) permits |
| Semaphore.FailedCallFoundNone | src/concurrentqueue/lightweightsemaphore.h:278-390 | In every run, a call that has fewer units than it asked for leaves no positive count in its last step, and one that has none finds none in that step |
| Blocking.NextKeepsInv | src/concurrentqueue/blockingconcurrentqueue.h:123-371 | Every step of enqueues, waits and retried dequeues keeps the invariant of the composition |
| Blocking.RunsKeepInv | src/concurrentqueue/blockingconcurrentqueue.h:123-371 | It holds in every state of every run |
| Blocking.ElementsArePermits | src/concurrentqueue/blockingconcurrentqueue.h:123-130 | Elements not taken are as many as the permits: held, on their way, in the count, in the kernel, or still to be signalled |
| Blocking.PermitGuaranteesElement | src/concurrentqueue/blockingconcurrentqueue.h:294-303 | For a consumer between two attempts, the sub-queues together offer at least its permits, however the others' dequeues are parked |
| Blocking.PassTakesTheSurplus | src/concurrentqueue/blockingconcurrentqueue.h:327-335 | Counted over all sub-queues: trying each once gets everything asked for, or everything they offer |
| Blocking.RetryLoopEndsAlone | src/concurrentqueue/blockingconcurrentqueue.h:359-367 | From every reachable state, a permit holder running alone reaches, by steps of the machine, a state where it holds no permits and is done: one visit to each sub-queue, at most 8 steps each, one element for every permit |
| Blocking.TryDequeueAlone | src/concurrentqueue/blockingconcurrentqueue.h:294-335 | From every reachable state, a try_dequeue or try_dequeue_bulk that runs alone is over within 4 steps and 8 for each sub-queue, with min(max, positive count) elements |
| Blocking.QuiescentSizeIsExact | src/concurrentqueue/blockingconcurrentqueue.h:538-541 | With no operation in progress, `size_approx` is the exact number of elements |
| Blocking.OneProducerStep | src/concurrentqueue/concurrentqueue.h:1979-1992 | With one inner producer no step makes a ticket unit fail |
| Blocking.OneProducerNeverOvercommits | src/concurrentqueue/concurrentqueue.h:2257-2266 | With one inner producer the overcommit stays 0 over every run, for single and bulk dequeues |
| Blocking.PermitsAndElementsAgree | src/concurrentqueue/blockingconcurrentqueue.h:123-371 | In every run elements are exactly as many as permits, and every permit holder between two attempts has such a way to the end |
| BlockIndex.LookupFindsBlock | src/concurrentqueue/concurrentqueue.h:2948-2964 | Every live block visible through a header, old or new, is found at the slot the lookup computes, with its own number and block |
| BlockIndex.OffsetFromTail | src/concurrentqueue/concurrentqueue.h:2955-2961 | Whatever base the entry at a header's tail holds by now, the offset from it leads to the slot of the block looked for |
| BlockIndex.StoreKeyKeepsOk | src/concurrentqueue/concurrentqueue.h:2907-2915 | Claiming the entry after the tail, unused or of a released block, keeps every lookup right in every header |
| BlockIndex.StoreValueKeepsOk | src/concurrentqueue/concurrentqueue.h:2532-2533 | Putting the block into the claimed entry makes it found |
| BlockIndex.StoreNullKeepsOk | src/concurrentqueue/concurrentqueue.h:2599-2606 | Nulling an entry takes exactly its block out |
| BlockIndex.RewindKeepsOk | src/concurrentqueue/concurrentqueue.h:2935-2939 | Rewinding the tail keeps every lookup right, although rewound bases stay in their entries |
| BlockIndex.NoRoomMeansNoStaleKeys | src/concurrentqueue/concurrentqueue.h:2907-2921 | The index is enlarged only when no rewound base is left in it |
| BlockIndex.GrowKeepsOk | src/concurrentqueue/concurrentqueue.h:2966-3008 | The rotated and doubled header finds every live block, and consumers with older headers still find theirs |
| BlockIndex.GrownHasRoom | src/concurrentqueue/concurrentqueue.h:2924-2932 | After growing, the entry after the tail is unused |
| ImplicitState.UnfinishedIsLive | src/concurrentqueue/concurrentqueue.h:2565-2608 | A block with a claimed and unfinished element is in the index, owned and not given back |
| ImplicitState.ClearingIsLive | src/concurrentqueue/concurrentqueue.h:2599-2606 | A consumer that emptied a block is the only one, and its entry still has the block |
| ImplicitState.FreeingIsOwned | src/concurrentqueue/concurrentqueue.h:2857-2867 | A consumer about to give a block back is the only one, and the sub-queue still owns the block |
| ImplicitState.ReaderFindsBlock | src/concurrentqueue/concurrentqueue.h:2806-2813 | The entry a reading consumer looks at has the number and the block of its next element |
| ImplicitState.ReaderGetsItem | src/concurrentqueue/concurrentqueue.h:2562-2597 | In the block a consumer has looked up, the cell of index i holds the i-th element enqueued |
| ImplicitConsumer.NeverStuck | src/concurrentqueue/concurrentqueue.h:2551-2619 | A consumer with a claim always finds what its next access needs: no null header, no null block, no wrong entry |
| ImplicitConsumer.StepKeepsInv | src/concurrentqueue/concurrentqueue.h:2780-2879 | Every access of a consumer keeps the invariant of the sub-queue |
| ImplicitConsumer.StepIsByConsumers | src/concurrentqueue/concurrentqueue.h:2780-2879 | Consumers change nothing of what a running enqueue works with |
| ImplicitConsumer.OthersKeepInv | src/concurrentqueue/concurrentqueue.h:2607-2607 | Once given back, a block may be used by others in any way without harm to this sub-queue |
| ImplicitConsumer.QuietBlocks | src/concurrentqueue/concurrentqueue.h:2599-2608 | With no consumer active, exactly the blocks all of whose elements were dequeued have been given back |
| ImplicitUpdates.EnlargeKeepsInv | src/concurrentqueue/concurrentqueue.h:2966-3008 | Growing the index keeps the invariant, also for consumers in flight |
| ImplicitUpdates.PublishKeepsInv | src/concurrentqueue/concurrentqueue.h:2766-2773 | Once elements and blocks are in place, the store of the tail keeps the invariant with the elements appended |
| ImplicitUpdates.TakeBackKeepsInv | src/concurrentqueue/concurrentqueue.h:2669-2674 | Taking an unpublished block out of the index keeps the invariant and what is owned |
| ImplicitStages.SettledIsDetermined | src/concurrentqueue/concurrentqueue.h:2637-2700 | Between enqueues, the live index map and the owned blocks are exactly the published blocks less those the consumers are done with |
| ImplicitStages.SameElementsSameSubQueue | src/concurrentqueue/concurrentqueue.h:2625-2773 | Sub-queues with the same elements, however enqueued, have as many blocks and index entries and the same element in every cell |
| ImplicitStages.FullExact | src/concurrentqueue/concurrentqueue.h:2493-2497 | The room test on words says exactly whether one more block would break the limit or reach half the range |
| ImplicitStages.CopyRotated | src/concurrentqueue/concurrentqueue.h:2982-2991 | The copying loop visits every old slot once, from the one after the tail, and ends |
| ImplicitSteps.UpdateKeepsInv | src/concurrentqueue/concurrentqueue.h:2486-2773 | Every atomic step of the producer, where it may be made, keeps the invariant; the primitives of the class are such steps |
| ImplicitProducer.Producer.Interfere | src/concurrentqueue/concurrentqueue.h:2551-2619 | Any steps of consumers and of other sub-queues between two accesses keep the sub-queue valid and the pool conserved |
| ImplicitProducer.Producer.InsertEntry | src/concurrentqueue/concurrentqueue.h:2900-2933 | insert_block_index_entry claims an entry for the block, growing the index if it may, or leaves the index as it was |
| ImplicitProducer.Producer.NewBlockIndex | src/concurrentqueue/concurrentqueue.h:2966-3008 | new_block_index is the specified growth, or changes nothing when memory is refused |
| ImplicitProducer.Producer.AddBlock | src/concurrentqueue/concurrentqueue.h:2653-2698 | One more block is in the index, or the index, the pool and the blocks are as before |
| BlockSupply.OneExact | src/concurrentqueue/concurrentqueue.h:2660-2698 | When the next block can be had: the room test, a free index entry or memory for a larger index, and a free block or memory for one |
| BlockSupply.LessObtains | src/concurrentqueue/concurrentqueue.h:2653-2698 | After one block has been had, one fewer can be had from what is left: the closed form of what is obtainable agrees with the loop |
| BlockSupply.FewerObtainable | src/concurrentqueue/concurrentqueue.h:2653-2698 | If so many blocks can be had, so can fewer |
| ImplicitSupply.OpenAfterPut | src/concurrentqueue/concurrentqueue.h:2907-2915 | Putting a block into the index uses up exactly one of the entries that can be claimed without growing it |
| ImplicitSupply.OpenAfterGrow | src/concurrentqueue/concurrentqueue.h:2966-3008 | Growing a full index makes exactly as many entries free as it had |
| ImplicitProducer.Producer.Enqueue | src/concurrentqueue/concurrentqueue.h:2486-2548 | The element is appended, or nothing has changed but what consumers did; it can fail only at the start of a block. Undisturbed, it succeeds there exactly if the room test passes, an index entry is free or can be allocated, and a block is in the pool or can be allocated. A call that may not allocate leaves the heap, the blocks created and the size of the index as they were |
| ImplicitProducer.Producer.EnqueueBulk | src/concurrentqueue/concurrentqueue.h:2625-2773 | All or nothing: all elements are appended in order, or elements, blocks, tail block and number of index entries are as before, even if the index grew. Undisturbed, it succeeds exactly if all the blocks it needs are obtainable. A call that may not allocate leaves the heap, the blocks created and the size of the index as they were |
| ImplicitProducer.Producer.TakeAllBack | src/concurrentqueue/concurrentqueue.h:2668-2674 | The rollback loop finds each entry at a positive offset while the tail is rewound under it, and takes exactly the new blocks out |
| ImplicitProducer.Producer.RollBack | src/concurrentqueue/concurrentqueue.h:2661-2679 | After it, the sub-queue is settled with the blocks, tail block and index entries it had |
| ImplicitProducer.Producer.Destroy | src/concurrentqueue/concurrentqueue.h:2431-2469 | The destructor destroys the remaining elements in order and gives every remaining block back exactly once |
| ImplicitProducer.Producer.constructor | src/concurrentqueue/concurrentqueue.h:2423-2429 | A new producer is valid and settled, also when its first index cannot be allocated |
| SimpleQueue.RunsKeepInv | src/concurrentqueue/concurrentqueue.h:1955-2052 | Without blocks: in every run each index below the head has been read rightly or is in the hands of exactly its claimant |
| SimpleQueue.LeftIsDisjoint | src/concurrentqueue/concurrentqueue.h:2003-2003 | No index is in the hands of two consumers |
| SimpleQueue.ReadOnce | src/concurrentqueue/concurrentqueue.h:2003-2043 | What a consumer reads nobody has read before |
| SimpleQueue.NothingIsReread | src/concurrentqueue/concurrentqueue.h:2248-2338 | No step changes what was read or what was enqueued |
| SimpleQueue.ExactlyOnceInOrder | src/concurrentqueue/concurrentqueue.h:1955-2052 | In every run, when no dequeue is in progress, exactly the elements below the head have been read, each as it was enqueued |
| ImplicitQueue.NextKeepsInv | src/concurrentqueue/concurrentqueue.h:2551-2619 | Consumers' accesses, ticket steps and the producer's atomic steps, in any order, keep the invariant of the sub-queue, of the tickets and of what is left to read |
| ImplicitQueue.RunsKeepInv | src/concurrentqueue/concurrentqueue.h:2780-2879 | It holds in every state of every run from a new producer; runs only ask that steps are enabled and well formed |
| ImplicitQueue.StepRefines | src/concurrentqueue/concurrentqueue.h:2551-2619 | Every step is one of a sub-queue without blocks, between the states that these stand for |
| ImplicitQueue.RunsRefine | src/concurrentqueue/concurrentqueue.h:2551-2619 | Every run is, without its blocks, a run of SimpleQueue |
| ImplicitQueue.TakeIsAllowed | src/concurrentqueue/concurrentqueue.h:2556-2562 | When the ticket protocol lets a thread take indices, the elements are there |
| ImplicitQueue.ReadOnce | src/concurrentqueue/concurrentqueue.h:2562-2597 | A consumer reads for index i the i-th element enqueued, and nobody has read it before |
| ImplicitQueue.ExactlyOnceInOrder | src/concurrentqueue/concurrentqueue.h:2551-2619 | In every run, when no dequeue is in progress, exactly the elements below the head have been read, each as it was enqueued |
| ImplicitQueue.EmptyWhenAllRead | src/concurrentqueue/concurrentqueue.h:1595-1610 | In every run a published block still owned looks empty exactly when each of its elements has been read |
| ImplicitQueue.DequeueIsWaitFree | src/concurrentqueue/concurrentqueue.h:2780-2879 | A dequeue is wait-free: in every run, whatever the producer and the other consumers do, a call for at most max elements takes at most 11 + 3 * max steps of its own, and until it is over it can always take the next one |
| ExplicitState.UnfinishedIsInRing | src/concurrentqueue/concurrentqueue.h:1857-1860 | A block with a claimed and unfinished element is in the ring and does not look empty, so it is never reset or overwritten |
| ExplicitState.ReaderFindsBlock | src/concurrentqueue/concurrentqueue.h:2006-2017 | The slot a consumer computes from any header's front, however old, has the entry of its element's block |
| ExplicitState.ReaderGetsItem | src/concurrentqueue/concurrentqueue.h:2003-2043 | In the block a consumer has looked up, the cell of index i holds the i-th element enqueued |
| ExplicitState.NeverStuck | src/concurrentqueue/concurrentqueue.h:2003-2043 | A consumer with a claim always finds what its next access needs |
| ExplicitState.StepKeepsInv | src/concurrentqueue/concurrentqueue.h:2270-2338 | Every access of a consumer keeps the invariant of the sub-queue |
| ExplicitUpdates.TakeKeepsInv | src/concurrentqueue/concurrentqueue.h:1857-1868 | Using the block ahead again, once all its elements are dequeued, keeps every lookup right |
| ExplicitUpdates.AddKeepsInv | src/concurrentqueue/concurrentqueue.h:1896-1912 | Putting a new block in the ring keeps every lookup right |
| ExplicitUpdates.EnlargeKeepsInv | src/concurrentqueue/concurrentqueue.h:2356-2393 | The doubled index keeps every lookup right, in the new header and in older ones |
| ExplicitUpdates.PublishKeepsInv | src/concurrentqueue/concurrentqueue.h:1947-1950 | Once elements are in place, the store of the tail keeps the invariant with the elements appended |
| ExplicitStages.RestoredKeepsInv | src/concurrentqueue/concurrentqueue.h:2094-2107 | A failure before any new block is put in the ring leaves a settled sub-queue with the blocks and slots it had, although entries stay overwritten |
| ExplicitStages.UndoAstray | src/concurrentqueue/concurrentqueue.h:2102-2122 | A failure after a new block, or after both blocks taken and a larger index, leaves fewer slots than ring blocks or a misplaced front |
| ExplicitStages.CopyUsed | src/concurrentqueue/concurrentqueue.h:2370-2378 | The copying loop visits the used slots once, oldest first, and ends |
| ExplicitSteps.UpdateKeepsInv | src/concurrentqueue/concurrentqueue.h:1848-2245 | Every atomic step of the producer, where it may be made, keeps the invariant; the primitives of the class are such steps |
| ExplicitBulk.EmptyFrom | src/concurrentqueue/concurrentqueue.h:2071-2083 | How many blocks ahead are empty: all of those counted are, and the next one is not |
| ExplicitBulk.RingFromFollows | src/concurrentqueue/concurrentqueue.h:2127-2135 | The ring in the order of `next`, from the block after the tail block on |
| ExplicitBulk.BlockLosesEntry | src/concurrentqueue/concurrentqueue.h:1882-1912 | The ring outgrows the index before the index is found full exactly if fewer slots are recorded than the ring has blocks; then a block in use has no entry |
| ExplicitBulk.FailureLosesEntry | src/concurrentqueue/concurrentqueue.h:2115-2122 | That is what becomes of every bulk enqueue that fails after it has put a new block in the ring |
| ExplicitBulk.LookupIsMisled | src/concurrentqueue/concurrentqueue.h:2109-2122 | After a failure with blocks taken and a larger index, and one more entry, the lookup of every block k still in use gives the block taken for k + m |
| ExplicitProducer.Producer.Interfere | src/concurrentqueue/concurrentqueue.h:1955-2052 | Any steps of consumers between two accesses of the producer keep the sub-queue valid |
| ExplicitProducer.Producer.NewBlockIndex | src/concurrentqueue/concurrentqueue.h:2356-2393 | new_block_index is the specified growth, or changes nothing when memory is refused |
| ExplicitProducer.Producer.Enqueue | src/concurrentqueue/concurrentqueue.h:1848-1953 | The element is appended, or nothing has changed; it can fail only at the start of a block. Undisturbed, an empty block ahead is used again without any request, and otherwise it succeeds exactly if the room test passes and an index slot and a block are there or can be allocated. A call that may not allocate leaves the heap, the blocks created and the size of the index as they were |
| ExplicitProducer.Producer.EnqueueBulk | src/concurrentqueue/concurrentqueue.h:2054-2245 | All elements are appended in order exactly if the blocks ahead and the new ones make up what is needed; a failure sets everything back unless a new block was put in the ring, or blocks were taken and the index grew. Undisturbed, the blocks ahead, success and whether a failure is undone are determined, both ways, by what the call finds: the empty blocks ahead, the room, the slots used and those of the index, the pool, the memory and whether it may allocate |
| ExplicitProducer.LeaveBlockBehind | src/concurrentqueue/concurrentqueue.h:2115-2122 | A failure that is not undone: a new producer, one block in the pool, no allocation, elements for two blocks. It ends with one block in the ring and no slot used, and later a block in use has no entry |
| ExplicitProducer.Producer.constructor | src/concurrentqueue/concurrentqueue.h:1771-1786 | A new producer is valid and settled, also when its first index cannot be allocated |
| ExplicitQueue.NextKeepsInv | src/concurrentqueue/concurrentqueue.h:1955-2052 | Consumers' accesses, ticket steps and the producer's atomic steps, in any order, keep the invariant of the ring, of the tickets and of what is left to read |
| ExplicitQueue.RunsKeepInv | src/concurrentqueue/concurrentqueue.h:2248-2338 | It holds in every state of every run from a new producer; runs only ask that steps are enabled and well formed |
| ExplicitQueue.StepRefines | src/concurrentqueue/concurrentqueue.h:1955-2052 | Every step is one of a sub-queue without blocks, between the states that these stand for |
| ExplicitQueue.RunsRefine | src/concurrentqueue/concurrentqueue.h:1955-2052 | Every run is, without its blocks, a run of SimpleQueue |
| ExplicitQueue.TakeIsAllowed | src/concurrentqueue/concurrentqueue.h:1992-2003 | When the ticket protocol lets a thread take indices, the elements are there |
| ExplicitQueue.ReadOnce | src/concurrentqueue/concurrentqueue.h:2003-2043 | A consumer reads for index i the i-th element enqueued, and nobody has read it before |
| ExplicitQueue.ExactlyOnceInOrder | src/concurrentqueue/concurrentqueue.h:1955-2052 | In every run, when no dequeue is in progress, exactly the elements below the head have been read, each as it was enqueued |
| ExplicitQueue.EmptyWhenAllRead | src/concurrentqueue/concurrentqueue.h:1595-1610 | In every run a published block of the ring looks empty exactly when each of its elements has been read |
| ExplicitQueue.DequeueIsWaitFree | src/concurrentqueue/concurrentqueue.h:2248-2338 | A dequeue is wait-free: in every run, whatever the producer and the other consumers do, a call for at most max elements takes at most 11 + 3 * max steps of its own, and until it is over it can always take the next one |
| Emptiness.AllByCount | src/concurrentqueue/concurrentqueue.h:1570-1592 | So many different offsets as a block has elements are all of them: the counter and the flags say the same |
| Emptiness.Block.IsEmpty | src/concurrentqueue/concurrentqueue.h:1569-1592 | While consumers go on, it says yes if all elements were dequeued at the call, and only if they are at the return |
| Emptiness.Block.SetEmpty | src/concurrentqueue/concurrentqueue.h:1595-1610 | One more element is marked, and a counting block says whether it was the last |
| Emptiness.Block.SetManyEmpty | src/concurrentqueue/concurrentqueue.h:1614-1634 | Exactly the elements of the range are marked, by the reversed flags or by the counter |
| Emptiness.Block.SetAllEmpty | src/concurrentqueue/concurrentqueue.h:1636-1649 | All elements are marked |
| Emptiness.Block.ResetEmpty | src/concurrentqueue/concurrentqueue.h:1651-1664 | No element is marked |
| ProducerHash.Find | src/concurrentqueue/concurrentqueue.h:3409-3449 | The probe loop ends and says where an id's entry is, or that the table has none, past tombstones |
| ProducerHash.FreeSlot | src/concurrentqueue/concurrentqueue.h:3507-3524 | The insertion loop ends at the first slot that is empty or a tombstone |
| ProducerHash.ClaimKeepsOk | src/concurrentqueue/concurrentqueue.h:3507-3524 | Filling that slot keeps every entry reachable by probing and ids unique |
| ProducerHash.BuryKeepsOk | src/concurrentqueue/concurrentqueue.h:3550-3560 | A tombstone keeps the entries behind it reachable, and stays a used slot |
| ProducerHash.RoomMeansEmpty | src/concurrentqueue/concurrentqueue.h:3412-3420 | Fewer used slots than capacity leave an empty one, which ends every probe |
| ProducerHash.PutKeepsChain | src/concurrentqueue/concurrentqueue.h:3416-3443 | Inserting, or copying an entry forward, keeps the chain of tables standing for the map |
| ProducerHash.GrowKeepsChain | src/concurrentqueue/concurrentqueue.h:3455-3489 | A new, empty, larger table in front does not change the map |
| ProducerHash.Registry.GetOrAdd | src/concurrentqueue/concurrentqueue.h:3388-3533 | A live thread gets the producer it has, across tables; a new thread gets one that no live thread has: an inactive one if there is one, else a new one. It gets none exactly if an allocation was needed and refused: one for a larger table if one more thread makes the newest half full, one for a producer if no inactive one is there |
| ProducerHash.Registry.Exit | src/concurrentqueue/concurrentqueue.h:3536-3564 | The thread's id is in no table any more, all other threads keep their producers, and its producer is inactive |
| ProducerHash.Registry.RecycleOrCreate | src/concurrentqueue/concurrentqueue.h:3227-3244 | It reuses the newest inactive producer of the kind if there is one, without memory, else creates one, and fails exactly if that is refused; it touches no other |
| ProducerHash.Registry.Resize | src/concurrentqueue/concurrentqueue.h:3455-3489 | The new table is so large that the new count stays below half of it, and the smallest such doubling; it fails exactly if memory is refused, and then nothing has changed |
| ProducerList.WholeWalk | src/concurrentqueue/concurrentqueue.h:1209-1221 | A circular walk of n - 1 steps visits every other producer exactly once |
| ProducerList.Queue.DequeueFrom | src/concurrentqueue/concurrentqueue.h:1955-2052 | The dequeue of one sub-queue, step by step with steps of others between: what it gives is a range claimed for it; with no other operation it gives min(left, max) elements from the front |
| ProducerList.MissedMeans | src/concurrentqueue/concurrentqueue.h:1957-1992 | A sub-queue that has nothing to give still has at most as many of the elements of before as there are ticket units under way, or returned since |
| ProducerList.FailsWithElementLeft | src/concurrentqueue/concurrentqueue.h:1957-1992 | A run in which a dequeue that starts with two elements enqueued, one taken and no other dequeue able to take the second, fails |
| ProducerList.Queue.Best | src/concurrentqueue/concurrentqueue.h:1127-1142 | Looking at most at three sub-queues that seem not to be empty; with no other operation it finds the first largest of the first three that are not empty. It finds none only if each has been missed: what was there when the call began has since been claimed by, or counted for, others |
| ProducerList.Queue.TryDequeue | src/concurrentqueue/concurrentqueue.h:1125-1156 | It gives an element not handed out before, or fails; then in each sub-queue at most as many of the elements that were there at the call are left as dequeues have units under way or have returned since. With no other operation it fails exactly when all are empty, and takes the first of the largest of the first three that are not |
| ProducerList.Queue.TryDequeueBulk | src/concurrentqueue/concurrentqueue.h:1230-1241 | With no other operation in progress it takes the first min(total, max) elements in list order and leaves the rest in order |
| ProducerList.Queue.Rotate | src/concurrentqueue/concurrentqueue.h:1392-1430 | A token moves to the producer given by its initial offset, then back as many as the global offset has moved, modulo their number and across the offset's wrap-around |
| ProducerList.Queue.Refresh | src/concurrentqueue/concurrentqueue.h:1187-1195 | Before it dequeues, a token is where it should be: a new one, or one whose known offset is not the global offset, is rotated, any other stays |
| ProducerList.Queue.TryDequeueToken | src/concurrentqueue/concurrentqueue.h:1182-1223 | The token is rotated if it is new or stale, and the element is one of the producer that is so many steps back from there; the token is then at that producer with its count, and the global offset is one further exactly if this was the last of the quota at the first producer. When it fails it has been to every other producer exactly once. With no other operation it gives the first element of the first producer of the walk that has one |
| ProducerList.Queue.WalkBulk | src/concurrentqueue/concurrentqueue.h:1266-1289 | With no other operation in progress the walk, which starts again whenever a producer gives something, gives min(total, max0) elements: those of the producers in the order of the walk, each from its front, and ends at the last one that gave any |
| ProducerList.Queue.TryDequeueBulkToken | src/concurrentqueue/concurrentqueue.h:1248-1290 | The token is rotated if it is new or stale; with no other operation in progress it gives min(total, max) elements, in the order of the walk from there, each sub-queue from its front. Where the token is then, its count and the global offset are determined |
| Base64Url.BytesOfSextets | src/jwt-cpp/jwt.h:14-28 | Regrouping bytes into sextets loses nothing |
| Base64Url.SextetsOfBytes | src/jwt-cpp/jwt.h:30-42 | Sextets are what their bytes are written as exactly when the bits left over are zero |
| Base64Url.ReadBase64 | src/jwt-cpp/jwt.h:34-42 | The padded text of RFC 4648 section 4 is read back |
| Base64Url.Encode | src/jwt-cpp/jwt.h:14-28 | Replacing two symbols and erasing the padding gives the text of RFC 4648 section 5 |
| Base64Url.Decode | src/jwt-cpp/jwt.h:30-42 | It undoes the encoding of every non-empty string of bytes |
| Base64Url.RoundTrip | src/jwt-cpp/jwt.h:14-42 | decode(encode(d)) is d for every non-empty d |
| Base64Url.EncodedIsInjective | src/jwt-cpp/jwt.h:14-28 | Different bytes have different texts |
| Base64Url.ReencodedIsSame | src/jwt-cpp/jwt.h:30-42 | encode(decode(t)) is t exactly for the canonical texts t |
| Jwt.Create | src/jwt-cpp/jwt.h:68-75 | The token has exactly two dots; its one split into segments carries the header, the payload and the signature of the text of the two: decoding a segment gives what was encoded |
| Jwt.Decode | src/jwt-cpp/jwt.h:77-98 | The format is invalid exactly with fewer than two dots. Otherwise the token has a split into segments, and for any: the text is invalid exactly if a segment cannot be decoded; else, if verifying, the signature is invalid exactly if the third segment does not decode to the signature of the first two; else the result is the parse of the decoded payload, or the failure of that |
| Jwt.MoreDotsAreAccepted | src/jwt-cpp/jwt.h:77-98 | A token with more than two dots is opened if the library accepts the text after the second as base64 |
| Jwt.TokenHasThreeSegments | src/jwt-cpp/jwt.h:68-75 | No segment of a created token has a dot, and the token has exactly two |
| Jwt.TokenRoundTrip | src/jwt-cpp/jwt.h:68-98 | Opening the segments of a created token gives the payload back, verified or not |
| Jwt.CreateThenDecode | src/jwt-cpp/jwt.h:68-98 | decode(create(p)) is p for every payload, header, signature function and setting of the verification |
| Jwt.CreateThenDecodeUnder | src/jwt-cpp/jwt.h:68-98 | Under another key a created token is accepted exactly if the two keys sign its text alike; otherwise its signature is refused |
| Jwt.ReplacedPayload | src/jwt-cpp/jwt.h:90-95 | Other bytes under an old signature are refused for it exactly when the two texts are signed differently |

## Left out

- C++ memory orders, fences and compiler effects: atomics are sequentially consistent.
- FreeList.NextKeepsInv: for at most 0x7FFFFFFE threads, since with more the count of references would run into the top bit.
- Tickets.NextKeepsInv: bulk dequeues ask for at least one element.
- Element constructors and assignments that throw, and the guards that handle them.
- ImplicitProducer.Producer.InsertEntry: the stores of the entry's key and of the index's tail are one step of the model.
- ImplicitProducer.Producer.AddBlock: the null `next` of a new block is stored after its index entry, not before.
- ImplicitProducer.Producer.Enqueue: the pool of free blocks is a set here; how blocks get into and out of it is module BlockPool's.
- ImplicitProducer.Producer.EnqueueBulk: what a disturbed call finds in the pool, the index and the heap is up to the others, so its success is determined for an undisturbed producer only; the same holds of a single Enqueue.
- ImplicitConsumer.StepKeepsInv: the load of the block, the reads of the elements of one block and `set_many_empty` are one step.
- ExplicitState.StepKeepsInv: likewise.
- ImplicitQueue.NextKeepsInv: the producer's steps are in any order that their guards allow; that an enqueue makes them in the program's order is what the Producer class says.
- ExplicitProducer.Producer.EnqueueBulk: what comes after a failure that is not undone is followed on the fields of the index and the ring only, with no dequeue in between; what a disturbed call finds in the pool and the heap is up to the others, so success is then tied to the blocks it gets.
- ExplicitProducer.Producer.Enqueue: a block used again gets its index entry before its counter is reset; the program resets first, and no consumer looks at either.
- ExplicitProducer.Producer.NewBlockIndex: the room test is made, but that it bounds the sub-queue is proved for implicit producers only.
- ExplicitProducer.Producer.constructor: the explicit destructor is not modelled; it is the same walk over blocks as the implicit one, without a pool to return to.
- FreeList.RunsKeepInv, Tickets.RunsKeepInv, Semaphore.RunsKeepInv: the machines are on values, one function per kind of atomic step, and only the free list is also in memory.
- ProducerHash.Registry.GetOrAdd: operations on the hash are atomic with respect to each other; a thread that probes an old table while others exit is not modelled. After a producer is created, the memory left is arbitrary, since the new producer makes requests of its own.
- ProducerList.Queue.TryDequeue: the list of producers does not grow during a call; a token's count of elements is not wrapped at 32 bits.
- ProducerList.Queue.TryDequeueToken: no other token moves the global offset during a call.
- ProducerList.Queue.TryDequeueBulk, ProducerList.Queue.TryDequeueBulkToken: with no other operation in progress.
- BlockPool.SoloRequisition: all blocks there can ever be are numbered in advance, any number of them; the heap gives none beyond these.
- Semaphore.NextKeepsInv: kernel semaphores are a counter on which waiting may fail at any time; clocks and spin counts do not matter.
- Progress under a fair scheduler and lock-freedom: besides wait-free dequeues, only calls that run alone are shown to end.
- RECYCLE_ALLOCATED_BLOCKS set to false, `MemStats`, moving and swapping queues and tokens, the list of thread-exit listeners, debugging macros, alignment.
- Base64Url.Decode: what the base64 library makes of malformed or empty text is a parameter, some bytes or a failure; lengths are not cut to 32 bits.
- Jwt.TokenRoundTrip: JSON printing and parsing are assumed to be inverse and HMAC to be a function with non-empty results; claim checks are not modelled.
- Everything else in the repository: controllers, database, network, user interface and deployment.
