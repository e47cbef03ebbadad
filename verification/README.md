# Verified model of the message queues

The library offers one interface, `Send` / `TrySend` / `Read` / `TryRead` / `Close`, over five bounded queues.
This project models four of its parts and proves what each of them is for.

- **Michael–Scott queue** (`MichaelScott*.dfy`): a linked list driven by compare-and-swap. The model is an
  interleaved step system over a real map from addresses to nodes; one step is one atomic access of one thread.
  The theorems hold in every run: the list is a FIFO queue, nodes are owned by one thread at a time and never
  reused while they can be reached, the size counter obeys an exact law and never wraps under a single reader,
  failed attempts are paid for by the success of somebody, and a whole call answers what it has done.
- **Deque queue** (`Monitor*.dfy`): a monitor with two condition variables, spurious wake-ups, barging threads,
  close, and messages that throw. Main theorems: exact reservations, FIFO order, no lost wake-up, no deadlock of
  both sides, close and drain, and soundness of the deadlock alarm.
- **Circular queues** (`Ring*.dfy`, `Circular*.dfy`, `Slots.dfy`): four synchronisation variants and two overflow
  policies over one ring. `Ring` is the step system for all eight combinations; `RingFifo` proves that the bounded
  SPSC, MPSC and SPMC rings are FIFO queues under concurrency, `RingTickets` when the ticketed MPMC ring is one,
  `RingPermits` proves conservation of permits, exact counters and progress, `RingOverwrite` the bound on the
  counter of the ring that drops, for any number of producers. `CircularQueue` is the object with its guards and its
  array, one call at a time, proved against a bounded FIFO and a FIFO that drops its first message; `CircularRuns`
  proves that this FIFO answers what the same call answers in `Ring` when it runs alone.
- **Priority queue** (`Priority*.dfy`): a binary heap with sequence ids, proved to serve the first of the least
  waiting messages, so that draining it is stable sorting.

`Roles.dfy` is the role automaton of the common base class, `Tallies.dfy` counts threads by control state,
`Counters.dfy` is the `size_t` view of a counter. In each step system a run is a sequence of states and labels,
and a theorem about runs quantifies over all of them, with any number of threads. The classes in
`MichaelScottObject` and `MonitorObject` carry out whole calls on mutable fields, with the loops of the code. A call
runs alone, while every other thread stands wherever a run of the system has left it: `Valid()` says that the
object's past is such a run, so a contract covers every state that any interleaving can reach, and the methods keep
it by extending the run step by step (`MichaelScottSolo`, `MonitorSolo`).

The systems assume sequentially consistent memory. Weak compare-and-swaps, `try_acquire` and `try_lock` may fail
without cause (sections 31.8, 32.6 and 32.7 of ISO C++20). A category such as "single producer" is a promise of the
callers: at most one send is in progress at a time. What a message of a ring becomes when it is moved out of its
slot is a parameter, `moved`: the identity for a type that is copied.

## Where the code and its documentation part

The lemmas named here give a concrete run, or the exact condition.

- `SizeCanWrap`: `current_size_` of the Michael–Scott queue can drop below zero, and `Size()` then shows the largest
  `size_t`. It takes two readers: with one reader at a time and any number of senders it never happens
  (`OneReaderNeverWraps`). `SizeWrapsExactly` reads off the state when it does.
- `TrySendRefusedOnEmptyRing`, `TrySendCancelsExactly`: ADR.md:45 says that `TrySend` returns `false` only when the
  buffer is full. In the bounded MPSC and MPMC rings a `TrySend` with a permit is refused exactly when `count_` has
  run below zero, which can happen on an empty ring. A single producer never sees this.
- `BurntTicketReadsJunk`, `OverlappingSendsReadJunk`: a read of the bounded MPMC ring can return what a slot held
  before any message was written there, either because a `TryRead` that cancelled gave its permit back but not its
  ticket, or, with no try form at all, because two sends overlap and publish out of ticket order. With one send and
  one read at a time, a read takes the slot of its own message if and only if the tickets burnt so far are a
  multiple of the capacity (`ReadTakesItsOwn`); every read did so if and only if that held at each of them
  (`StraightExactly`), and then the ring is a FIFO queue (`TicketsAreFifo`). Only `TryRead` burns read tickets
  (`BlockingReadsBurnNothing`).
- `SpuriousFailureLosesMessage`, `DeliversExactly`: `ReadHead` moves the message out of its slot before the
  compare-and-swap of the head and moves out of the same slot again after a failure, so a weak failure without cause
  loses a message of a type that is really moved. Deliveries are the written messages if and only if every one of
  them survives as many extra moves as its delivery had failures; a type that is copied, or a run without failures,
  always satisfies this.
- `ExhaustedLoopOverflows`, `TwoProducersOverflow`: the ring that drops can exceed its capacity, after a drop loop
  has used up its 64 attempts, or with several producers because a send unlocks before it counts. Without an
  exhausted loop, and with at most p sends between their look at the counter and their count, it exceeds it by at
  most p - 1 (`CountIsBounded`), hence never with a single producer (`CountStaysWithinCapacity`).
- A ring that drops never makes a send wait, and yet `Send` of a thread in both roles throws "Deadlock detected" on
  a full one (`CircularQueue.CircularQueue.Send`).
- `PriorityQueue.PriorityQueue.Read`: ADR.md:273 promises that the message stays in the queue when `PopMessage`
  throws. It stays in the vector, but as its last element behind a heap of the others; the vector is a heap again if
  and only if there is no other message.
- `SilentThrowLosesWakeUp`: a monitor whose throwing store does not notify, as in lib/min-heap_queue.hpp:88-97, can
  leave a sender asleep beside a free slot for ever. The run is one of the deque monitor with its notification
  cleared; by `SizeDecides` its tests under the mutex are those of the priority queue's size. The deque queue
  notifies, and has no such run.
- `Spins`, an outcome of `Read` and `TryRead` of `MichaelScottObject.MichaelScottQueue`: PopMessage does not look at the
  counter again (lib/michael_scott_queue.hpp:218-226), so a read that the counter lets in does not return while the
  list is empty, whatever the other threads do (`EmptyListHoldsReader`), and left alone it comes back to the very same
  state every four steps (`SpinsForEver`). `ReaderSpins` is a run in which the wrapped counter makes this happen to a
  `TryRead`. With one reader at a time no read gets there (`OneReaderNeverWraps`).

## Model

| member | source | states |
|---|---|---|
| Roles.BothMeansBothDirections | lib/message_queue_interface.hpp:71-84 | for every history of attempts: the role is kBoth exactly when both directions were attempted and the policy allows role changes; before that it is the first direction |
| Roles.ThrowsOnFirstChange | lib/message_queue_interface.hpp:78-81 | an attempt throws exactly under kOnThreadRoleChange when it differs from the first one |
| Roles.AccountThreads | lib/message_queue_interface.hpp:71-84 | the map update sets this thread's role as the automaton says and leaves every other thread's alone |
| MichaelScottInvariant.StepKeepsInv | lib/michael_scott_queue.hpp:98-165 | shape, ownership, counter and locals invariant is kept by every step of every thread |
| MichaelScottInvariant.RunInv | lib/michael_scott_queue.hpp:98-165 | every run has a history of the linked order in which every state satisfies the invariant |
| MichaelScottFifo.RunIsFifo | lib/michael_scott_queue.hpp:98-165 | the values after head_ change only by an append at a successful next CAS and a remove-first at a successful head_ CAS, which takes the first value; every other step leaves them as they are |
| MichaelScottFifo.SentIsReceivedPlusContents | lib/michael_scott_queue.hpp:98-165 | values linked so far = values removed so far followed by the values in the list |
| MichaelScottSends.SendLinksItsMessage | lib/michael_scott_queue.hpp:65-125 | every whole call, at any interleaving: it links its own argument exactly once if it returns that it was sent, and nothing otherwise. Send ends only so or by throwing on a closed queue, TrySend only so or refused, closed or without room; only TryEnqueue can also give up, after exactly 64 failed passes counted from its own start, and it links only after fewer |
| MichaelScottSends.ClosedSend | lib/michael_scott_queue.hpp:168-182 | every whole call begun on a closed queue: Send throws, TrySend and TryEnqueue are refused |
| MichaelScottSends.GivingUpNeedsOthers | lib/michael_scott_queue.hpp:65-96 | a TryEnqueue gives up only if, over its whole call, twice the number of messages linked by other threads, one for a tail that lagged at its start, and its own spurious failures come to 64 |
| MichaelScottReads.ReadReturnsWhatItRemoved | lib/michael_scott_queue.hpp:127-234 | every whole call of Read, TryRead or TryDequeue, at any interleaving: it returns a message exactly if it has removed one, once, and then that one. Read ends otherwise only by throwing, closed with the counter at zero; TryRead finds nothing only with the counter at zero, TryDequeue also when its one pass met an empty list or failed |
| MichaelScottFifo.ReadReturnsItsRemoval | lib/michael_scott_queue.hpp:151-160 | a read returns the front value that its own removal took, within the same call |
| MichaelScottFifo.EmptyExitSawEmpty | lib/michael_scott_queue.hpp:137-140 | the empty exit is taken only if the queue was empty when next was loaded |
| MichaelScottSafety.TailNearEnd | lib/michael_scott_queue.hpp:102-124 | tail_ is reachable from head_ and is the last or the second-to-last node |
| MichaelScottSafety.PointersFollowLinks | lib/michael_scott_queue.hpp:110-119 | head_ and tail_ move only forward, over one link at a time |
| MichaelScottSafety.SecondNullExitIsDead | lib/michael_scott_queue.hpp:147-149 | the second next == nullptr exit is unreachable in every run |
| MichaelScottSafety.NoDanglingAccess | lib/michael_scott_queue.hpp:102-165 | no step touches a node that is not allocated |
| MichaelScottSafety.OneOwner | lib/michael_scott_queue.hpp:93-160 | every allocated node is in exactly one of: unpublished, in the list, popped and not retired, retired |
| MichaelScottSafety.OwnersDistinct | lib/michael_scott_queue.hpp:93-160 | no two threads own one node, no node is retired twice |
| MichaelScottSafety.PublishedStays | lib/michael_scott_queue.hpp:151-160 | a node once in the list stays allocated with its value, and its link never changes once set: no ABA |
| MichaelScottSafety.QuiescentNodes | lib/michael_scott_queue.hpp:264-278 | in every state of every run with no call in flight, the allocated nodes are those met by following next from head_ and the retired ones, each once |
| MichaelScottProgress.SizeLaw | lib/michael_scott_queue.hpp:194-234 | current_size_ = list length - linked-but-uncounted sends + popped-but-unsubtracted reads |
| MichaelScottProgress.QuiescentSize | lib/michael_scott_queue.hpp:280-282 | with no call in flight Size() is the length of the list |
| MichaelScottProgress.SoftCapacity | lib/michael_scott_queue.hpp:168-182 | with at most p sends in flight and at most q reads between removing and subtracting, the list never holds more than capacity + p - 1 messages, as long as capacity + p + q fits into a size_t, whose wrapped view of the counter the test reads |
| MichaelScottCounter.OneReaderNeverWraps | lib/michael_scott_queue.hpp:194-234 | with one reader at a time and any number of senders the counter is never negative, Size() shows it as it is, and a read that was let in finds a message |
| MichaelScottProgress.SizeWrapsExactly | lib/michael_scott_queue.hpp:280-282 | the law read for several readers: Size() differs from the counter in exactly the states where linked-but-uncounted sends outnumber list and unsubtracted reads |
| MichaelScottProgress.StoresAreLockFree | lib/michael_scott_queue.hpp:102-124 | failed passes of a store loop are at most all successful next and tail_ CAS steps plus its own spurious failures |
| MichaelScottProgress.ReadsAreLockFree | lib/michael_scott_queue.hpp:127-164 | the same for failed non-empty passes of a pop with head_ and tail_ CAS steps |
| MichaelScottProgress.GivingUpNeedsContention | lib/michael_scott_queue.hpp:65-96 | the bounded store gives up only if, during the call, the successes of next and tail_ CAS by all threads, own helping swings included, and its own spurious failures come to 64 |
| MichaelScottWitness.SoftCapacityIsSharp | lib/michael_scott_queue.hpp:168-200 | a run of two senders reaches capacity + 1 messages |
| MichaelScottWitness.SizeCanWrap | lib/michael_scott_queue.hpp:194-234 | a run in which the counter is -1 and shows the largest size_t, on an empty list |
| MichaelScottWitness.ReaderSpins | lib/michael_scott_queue.hpp:214-226 | that run goes on with a TryRead which the wrapped counter lets in on the empty list, and any number of its passes leave it where it was |
| MichaelScottSpin.EmptyListHoldsReader | lib/michael_scott_queue.hpp:218-226 | in every run, a thread inside PopMessage stays there, before its removal, as long as the list is empty, whatever the others do |
| MichaelScottSpin.SpinsForEver | lib/michael_scott_queue.hpp:127-145 | in every run, a read let in on an empty list and left alone changes no field, and after every four steps is in the very state it started from |
| MichaelScottObject.MichaelScottQueue.StoreInternal | lib/michael_scott_queue.hpp:98-125 | alone, from any reachable state: appends the value after exactly one pass, one more if the tail lags and one for each spurious failure |
| MichaelScottObject.MichaelScottQueue.TryStoreInternal | lib/michael_scott_queue.hpp:65-96 | appends exactly when these passes fit into 64, and otherwise leaves list and allocated nodes as they were |
| MichaelScottObject.MichaelScottQueue.TryPopOnce | lib/michael_scott_queue.hpp:127-165 | removes the first value and retires the old dummy exactly when there is one, the tail is past the dummy and the CAS does not fail; otherwise the list is as before and a lagging tail has been moved |
| MichaelScottObject.MichaelScottQueue.PopMessage | lib/michael_scott_queue.hpp:218-226 | on a list with a message returns the first after exactly one pass, one more if the tail is on the dummy and one for each spurious failure |
| MichaelScottObject.MichaelScottQueue.PopInVain | lib/michael_scott_queue.hpp:218-226 | the same loop on an empty list, watched for any number of passes: each takes four steps and ends in the state it began in |
| MichaelScottObject.MichaelScottQueue.Send | lib/michael_scott_queue.hpp:168-200 | throws when closed, waits exactly when the counter shows no room, and otherwise appends and counts, whatever the other threads are in the middle of |
| MichaelScottObject.MichaelScottQueue.TrySend | lib/michael_scott_queue.hpp:180-200 | the try form: refused exactly when closed or without room |
| MichaelScottObject.MichaelScottQueue.TryEnqueue | lib/michael_scott_queue.hpp:296-308 | refused exactly when closed, without room or out of attempts |
| MichaelScottObject.MichaelScottQueue.Read | lib/michael_scott_queue.hpp:202-234 | removes and returns the first message; waits or throws exactly when the counter shows zero; when it does not but the list is empty, any number of passes of PopMessage leave everything as it was |
| MichaelScottObject.MichaelScottQueue.TryRead | lib/michael_scott_queue.hpp:214-234 | the try form: nothing exactly when the counter shows zero, and the same endless loop when it does not but the list is empty |
| MichaelScottObject.MichaelScottQueue.TryDequeue | lib/michael_scott_queue.hpp:316-330 | one pass: removes the first message exactly when the counter is not zero, there is one, the tail is past the dummy and the CAS does not fail |
| MichaelScottObject.MichaelScottQueue.Close | lib/michael_scott_queue.hpp:288-294 | sets the flag and keeps messages, counter and threads |
| MichaelScottObject.MichaelScottQueue.Destroy | lib/michael_scott_queue.hpp:264-278 | the quiescent destructor frees every remaining node exactly once and leaves none |
| MonitorInvariant.StepInv | lib/deque_bounded_message_queue.hpp:80-168 | mutex, books and wake-up debts are kept by every step, whatever throws, wakes up or barges in |
| MonitorTheorems.ReservationsBalance | lib/deque_bounded_message_queue.hpp:80-168 | whenever the mutex is free, free_ + used_ = capacity and used_ = buffer_.size(); the buffer never exceeds the capacity |
| MonitorTheorems.MonitorIsExclusive | lib/deque_bounded_message_queue.hpp:80-168 | at most one thread is inside, and it can always go on |
| MonitorTheorems.RunIsFifo | lib/deque_bounded_message_queue.hpp:103-162 | the buffer changes only by a successful store (append) and a successful pop (remove first); refused, closed and throwing calls leave it as it was |
| MonitorTheorems.NothingLost | lib/deque_bounded_message_queue.hpp:103-162 | over any stretch: buffer before + stored = popped + buffer after |
| MonitorSends.SendStoresItsMessage | lib/deque_bounded_message_queue.hpp:80-129 | every whole call, whether it slept or not: it stores its own argument exactly once if it returns that it was sent, and nothing otherwise. It throws for its role exactly if that changed, and with its message exactly if that threw; Send ends otherwise only by throwing, closed or warned with no free slot; TrySend ends otherwise refused, closed or with no free slot |
| MonitorSends.CloseTurnsSendsAway | lib/deque_bounded_message_queue.hpp:80-101 | a send past its probe, or asleep, when the queue is closed stores nothing and ends, if it ends, by throwing, and a try-send refused |
| MonitorReads.ReadReturnsWhatItPopped | lib/deque_bounded_message_queue.hpp:131-168 | every whole call, whether it slept or not: it returns a message exactly if it has popped one, once, and then that one. It throws for its role exactly if that changed, and with its message exactly if that threw; Read ends otherwise only by throwing, closed and empty or warned with nothing to take; only TryRead says that there is nothing, and only when there is nothing to take |
| MonitorReads.CloseKeepsReadersAwake | lib/deque_bounded_message_queue.hpp:41-51 | a read that is awake in a closed queue never sleeps again |
| MonitorTheorems.ReadReturnsItsPop | lib/deque_bounded_message_queue.hpp:151-162 | a read returns the front that its own pop removed, within the same call |
| MonitorProgress.NoLostWakeUp | lib/deque_bounded_message_queue.hpp:80-168 | open queue: if a sender sleeps, free_ is at most pending notify_one calls plus woken senders yet to look; likewise readers and used_ |
| MonitorProgress.QuietSleepers | lib/deque_bounded_message_queue.hpp:80-168 | with nothing pending, sleeping senders mean free_ = 0, sleeping readers used_ = 0, and with the mutex free not both kinds sleep |
| MonitorProgress.DequeIsCareful | lib/deque_bounded_message_queue.hpp:106-122 | every run of the deque queue meets the condition of the previous row |
| MonitorProgress.StuckMeansFullOrEmpty | lib/deque_bounded_message_queue.hpp:80-168 | when no thread can step, sleeping senders mean full, sleeping readers mean empty, never both, and nobody sleeps on a closed queue |
| MonitorProgress.ThrowRestores | lib/deque_bounded_message_queue.hpp:103-123 | a throwing store or pop leaves the queue as it was, releases the lock once, and the books balance again |
| MonitorProgress.StaysClosed | lib/deque_bounded_message_queue.hpp:41-51 | once closed, closed for ever, and no store is under way |
| MonitorProgress.CloseAndDrain | lib/deque_bounded_message_queue.hpp:131-149 | after Close nothing is added, and the reads return a front part of what was there, in order |
| MonitorClosed.ClosedCall | lib/deque_bounded_message_queue.hpp:80-162 | every call begun after the queue was closed, in every run, is asleep at no moment and ends so: a send throws, a try-send is refused, a read gets one of the messages that were there when it began, fails with its message or its role, or says that there is none, the last only when the buffer is empty at its end |
| MonitorProgress.RoleIsHistory | lib/message_queue_interface.hpp:71-122 | the recorded role is the automaton run on the directions this thread asked for |
| MonitorProgress.AlarmNeedsBothDirections | lib/deque_bounded_message_queue.hpp:54-78 | only a thread that attempted both directions is warned |
| MonitorProgress.SendAlarmIsSound | lib/deque_bounded_message_queue.hpp:54-65 | if a thread is warned while nobody reads, free_ stays 0 and nothing is stored until some thread starts to read |
| MonitorProgress.ReadAlarmIsSound | lib/deque_bounded_message_queue.hpp:67-78 | dually for used_ and pops until some thread starts to send |
| MonitorTheorems.SizeDecides | lib/min-heap_queue.hpp:56-66 | in every run the tests of free_ and used_ under the mutex decide as the tests of the size against capacity and zero, on which the heap queue waits |
| MonitorWitness.SilentThrowLosesWakeUp | lib/min-heap_queue.hpp:88-97 | a run of the deque monitor with the notification of its throwing store cleared ends with a sender asleep beside a free slot, a reader asleep too, and no thread able to step |
| MonitorObject.DequeQueue.Send | lib/deque_bounded_message_queue.hpp:80-129 | from any reachable state: waits for a held mutex; with the mutex free throws, sleeps, stores or fails with its message as a bounded closable FIFO queue says, and a stored message wakes one sleeping reader, a throwing one a sleeping sender, and nobody else moves |
| MonitorObject.DequeQueue.TrySend | lib/deque_bounded_message_queue.hpp:93-129 | the try form: with the mutex free it ends at once, refused exactly when full or closed |
| MonitorObject.DequeQueue.Read | lib/deque_bounded_message_queue.hpp:131-168 | takes the first message even when closed, throws when closed and empty, sleeps exactly when open and empty; one sleeping sender is woken for the slot, or one reader if the message throws |
| MonitorObject.DequeQueue.TryRead | lib/deque_bounded_message_queue.hpp:141-168 | the try form: nothing exactly when empty |
| MonitorObject.DequeQueue.StoreMessage | lib/deque_bounded_message_queue.hpp:103-129 | under the mutex: appends, or leaves the buffer and gives the slot back; the mutex is free afterwards and the right wait set notified |
| MonitorObject.DequeQueue.PopMessage | lib/deque_bounded_message_queue.hpp:151-168 | under the mutex the buffer is not empty; its first message is removed, or all stays; the mutex is free afterwards and the right wait set notified |
| MonitorObject.DequeQueue.Close | lib/deque_bounded_message_queue.hpp:41-51 | the first call to find the mutex free sets the flag and leaves nobody asleep; a second one wakes nobody; the messages stay |
| RingInvariant.StepInv | lib/circular/circular_message_queue.hpp:137-264 | reach, ledger, permits, mutexes and the callers' promise are kept by every step, in all categories and policies |
| RingPermits.PermitsAreConserved | lib/circular/impl/sync_mpmc.hpp:39-153 | bounded: free + occupied permits + live send guards + live read guards = capacity in every reachable state of all four categories |
| RingPermits.RestIsExact | lib/circular/circular_message_queue.hpp:224-264 | both policies: with no call in flight count_ = occupied permits, no mutex is held, and a bounded ring has all its permits back |
| RingPermits.TrySendCancelsExactly | lib/circular/circular_bounded_message_queue.hpp:28-41 | a try-send with a permit is refused exactly when the counter is below zero, that is, when uncounted publications outnumber occupied permits and unsubtracted reads; never with a single producer |
| RingPermits.TryReadCancelsExactly | lib/circular/circular_message_queue.hpp:248-257 | both policies: a try-read with a permit sees an empty counter exactly when all publications it could see are uncounted |
| RingPermits.StuckMeansFullOrEmpty | lib/circular/impl/sync_spmc.hpp:151-171 | when no thread can step, a pending send means a full bounded ring, a pending read an empty one; a send that drops is never stuck |
| RingPermits.SendAndReadNeverBothStuck | lib/circular/impl/sync_mpsc.hpp:155-179 | while a send and a read are pending some thread can step, in all four categories |
| RingFifo.StepFifo | lib/circular/circular_message_queue.hpp:137-187 | the ring holds the unread written values from head to tail, the first of them worn by the moves of a read under way; kept by every step |
| RingFifo.RunIsFifo | lib/circular/circular_message_queue.hpp:137-187 | SPSC, MPSC, SPMC: delivery k is written message k, moved out of once more for each failed head CAS of its read; what is not delivered lies unread in the ring, at most capacity; at rest count_ is its number |
| RingFifo.DeliversExactly | lib/circular/circular_message_queue.hpp:145-157 | the deliveries are a prefix of the written values if and only if each survives its extra moves, as it does without failures or for a type that is copied |
| RingSends.SendWritesItsMessage | lib/circular/circular_message_queue.hpp:159-228 | every whole call, at any interleaving, in all categories and policies: it writes its own argument to one slot if it returns that it was sent, and moves the tail over it once where there are no tickets; nothing otherwise. Send ends otherwise only by throwing, for a role that changed or warned on a full counter; TrySend ends otherwise for its role, or refused after it met a full counter or a permit or mutex it did not get |
| RingReads.ReadReturnsWhatItRemoved | lib/circular/circular_message_queue.hpp:243-264 | every whole call, at any interleaving, in all categories and policies: it returns a message exactly if it has removed one, once, and then the value that removal took. Read ends otherwise only by throwing, for a role that changed or warned on an empty counter; TryRead ends otherwise for its role, or with nothing after it met an empty counter or a permit or mutex it did not get |
| RingFifo.AccessesAreDisjoint | lib/circular/impl/sync_spmc.hpp:151-178 | a writer and a reader inside their slot accesses are on different slots, 1 <= tail - head <= capacity - 1 unwrapped, and each is alone on its side |
| RingFifo.ReadReturnsItsDelivery | lib/circular/circular_message_queue.hpp:259-264 | a read returns the value written at the position its own head CAS passed, moved out of once more for each of its failures, within the same call |
| RingOverwrite.CountIsBounded | lib/circular/circular_message_queue.hpp:71-89 | drop-oldest, any number of producers: with at most p sends between their look and their count and no exhausted drop loop, count plus these sends is at most capacity + p - 1 |
| RingOverwrite.CountStaysWithinCapacity | lib/circular/circular_message_queue.hpp:71-89 | hence with a single producer the count stays within capacity, and below it before a resolved send |
| RingOverwrite.SoloSeesTrueCount | lib/circular/circular_message_queue.hpp:209-215 | a single producer never looks at a wrapped counter |
| RingOverwrite.TicketsMatchExactly | lib/circular/impl/mpmc_bounded_sync_helper.hpp:29-87 | a law of two counters: bounded MPMC at rest, write_seq_ - read_seq_ = count_ + cancelled sends - cancelled reads |
| RingTickets.ReadTakesItsOwn | lib/circular/impl/mpmc_bounded_sync_helper.hpp:45-55 | bounded MPMC, one send and one read at a time: the slot a read takes is that of its own message if and only if the tickets burnt so far are a multiple of the capacity; so is the value, when the slots hold different ones |
| RingTickets.StraightExactly | lib/circular/impl/mpmc_bounded_sync_helper.hpp:45-55 | every read of a run took its own slot if and only if that condition held at every read |
| RingTickets.TicketsAreFifo | lib/circular/circular_message_queue.hpp:137-187 | then the delivered values are a prefix of the written ones, and the others lie in the ring in order, at most capacity |
| RingTickets.BlockingReadsBurnNothing | lib/circular/impl/mpmc_bounded_sync_helper.hpp:45-48 | a run without TryRead burns no read ticket and meets the condition |
| RingWitness.TrySendRefusedOnEmptyRing | lib/circular/circular_bounded_message_queue.hpp:36-39 | a run of an MPSC ring whose try-send is refused with every slot free |
| RingWitness.BurntTicketReadsJunk | lib/circular/impl/mpmc_bounded_sync_helper.hpp:50-55 | a run of a bounded MPMC ring whose only successful read returns the junk of a slot never written |
| RingWitness.OverlappingSendsReadJunk | lib/circular/impl/mpmc_bounded_sync_helper.hpp:29-48 | a run with blocking calls only, in which two sends overlap and a read returns the junk of a slot not yet written |
| RingWitness.SpuriousFailureLosesMessage | lib/circular/circular_message_queue.hpp:145-157 | a run in which one spurious failure of the head CAS makes the only read return a moved-from value |
| RingOverwriteWitness.ExhaustedLoopOverflows | lib/circular/circular_message_queue.hpp:71-89 | a single-producer run in which 64 spurious failures make a ring of one slot count two |
| RingOverwriteWitness.TwoProducersOverflow | lib/circular/circular_message_queue.hpp:224-228 | a two-producer run that counts two on a ring of one slot with no loop exhausted |
| CircularSpec.StoredAppends | lib/circular/circular_message_queue.hpp:159-187 | storing on a ring that is not full appends to its contents, by tail or by ticket |
| CircularSpec.TakenDropsFirst | lib/circular/circular_message_queue.hpp:137-157 | taking removes the first of its contents, by head or by ticket, whatever is left in its slot |
| CircularSpec.DroppedThenStored | lib/circular/circular_overwrite_oldest_message_queue.hpp:15-23 | dropping and storing on a full ring replaces the first message by a last one |
| CircularSpec.SendsLeaveTheLast | lib/circular/circular_overwrite_oldest_message_queue.hpp:15-33 | any run of sends with no reads leaves the last capacity values in order |
| CircularRuns.SendAlone | lib/circular/circular_bounded_message_queue.hpp:23-26 | from every idle, well-formed state of every run of the step system: Send run alone ends with the answer that the sequential specification gives, or stands at a step that is not enabled where that says it waits, and leaves the contents it says |
| CircularRuns.TrySendAlone | lib/circular/circular_bounded_message_queue.hpp:28-41 | the same for TrySend |
| CircularRuns.ReadAlone | lib/circular/circular_message_queue.hpp:243-264 | the same for Read; a waiting read holds the read mutex of its category |
| CircularRuns.TryReadAlone | lib/circular/circular_message_queue.hpp:248-264 | the same for TryRead |
| CircularRuns.IdleRests | lib/circular/circular_message_queue.hpp:137-187 | every idle state of every run of the bounded SPSC, MPSC and SPMC rings is well formed, and its contents are the messages written and not yet delivered |
| CircularQueue.CircularQueue.Send | lib/circular/circular_overwrite_oldest_message_queue.hpp:15-33 | all categories and policies: outcome and contents are those of the bounded or drop-oldest FIFO, which `SendAlone` ties to the step system; the ring stays well formed if and only if no full ring's drop loop lost 64 races |
| CircularQueue.CircularQueue.TrySend | lib/circular/circular_bounded_message_queue.hpp:28-41 | the same for the try form, refused exactly when full, warned or failing to acquire |
| CircularQueue.CircularQueue.Read | lib/circular/circular_message_queue.hpp:243-264 | removes the first message, waits or throws exactly when empty; what it returns is that message as the moves of its lost races leave it, and by ticket the message itself |
| CircularQueue.CircularQueue.TryRead | lib/circular/circular_message_queue.hpp:248-264 | the same, or nothing exactly when empty or failing to acquire |
| CircularQueue.CircularQueue.DestroySendGuard | lib/circular/impl/sync_mpmc.hpp:39-65 | the guard's destructor by its flags: cancel returns the permit, commit publishes unless suppressed, the mutex is unlocked |
| CircularQueue.CircularQueue.DestroyReadGuard | lib/circular/impl/sync_spmc.hpp:95-114 | the guard's destructor by its flags |
| CircularQueue.CircularQueue.TryAdmitBounded | lib/circular/circular_bounded_message_queue.hpp:28-41 | acquire, look at the counter again, cancel: everything but the ticket is given back |
| CircularQueue.CircularQueue.TryAdmitRead | lib/circular/circular_message_queue.hpp:248-257 | the same for reads |
| CircularQueue.CircularQueue.AdvanceHeadForOverwriteDrop | lib/circular/circular_message_queue.hpp:71-89 | the loop drops exactly when the ring is full and a CAS succeeds within 64 attempts, and then moves head and counter by one |
| CircularQueue.CircularQueue.ReadHead | lib/circular/circular_message_queue.hpp:137-157 | by ticket the slot is moved out once; by head once more for each failed CAS, and the last move is returned; the slot keeps what the moves leave |
| CircularQueue.RetryLosesMessage | lib/circular/circular_message_queue.hpp:145-157 | if a moved-from value stays as it is when moved from again, the returned message is the one sent if and only if no race was lost or moving does not change it |
| CircularQueue.Drain | lib/circular/circular_message_queue.hpp:259-264 | reading until empty returns the contents in order, each as its own lost races leave it, for every sequence of chances |
| CircularQueue.SendAllThenDrain | lib/circular/circular_overwrite_oldest_message_queue.hpp:15-33 | sends only, none of whose drop loops loses 64 races, then reads only: the reads get the last capacity messages of all, in order, each as its own lost races leave it |
| PrioritySpec.ComparatorIsTotalOrder | lib/min-heap_queue.hpp:30-42 | for a strict weak Compare the heap comparator is a strict total order on distinct ids: priority, then arrival |
| PrioritySpec.BestIsFirstLeast | lib/min-heap_queue.hpp:30-42 | the served message is a least one, and the first of these |
| PrioritySpec.DrainIsStableSort | lib/min-heap_queue.hpp:147-158 | serving the best again and again is insertion sort |
| PrioritySpec.SortIsStable | lib/min-heap_queue.hpp:30-42 | the sort is a permutation, strictly increasing in priority and then arrival |
| PrioritySpec.ServedIsUnique | lib/min-heap_queue.hpp:30-42 | no other permutation is |
| PrioritySpec.SortIsServedOrder | lib/min-heap_queue.hpp:30-42 | for nodes in arrival order a sequence of values is the stable sort of their values if and only if it lists the values of a permutation of the nodes in strict served order |
| PriorityHeap.FrontIsGreatest | lib/min-heap_queue.hpp:149 | the front of a heap is above every node |
| PriorityHeap.SiftUp | lib/min-heap_queue.hpp:91 | push_heap as a loop: a heap again, with the same nodes |
| PriorityHeap.SiftDown | lib/min-heap_queue.hpp:149 | the sinking loop restores the heap and keeps the nodes |
| PriorityHeap.PopHeap | lib/min-heap_queue.hpp:149 | pop_heap: the front goes last, the others form a heap |
| PriorityQueue.PriorityQueue.StoreMessage | lib/min-heap_queue.hpp:88-97 | a store appends the message with the next id to the waiting ones; one that throws leaves heap, size and waiting messages alone, and both use up the id |
| PriorityQueue.PriorityQueue.FrontIsBest | lib/min-heap_queue.hpp:147-158 | the front of the heap is the first least of the waiting messages |
| PriorityQueue.PriorityQueue.Send | lib/min-heap_queue.hpp:56-97 | a bounded, closable stable priority queue: it throws for its role or a deadlock, waits exactly on an open full queue, throws exactly on a closed one, and otherwise adds its message, unless that throws |
| PriorityQueue.PriorityQueue.TrySend | lib/min-heap_queue.hpp:79-97 | the try form, which never waits: refused exactly when full or closed, the warned ones among them |
| PriorityQueue.PriorityQueue.Read | lib/min-heap_queue.hpp:115-158 | waits exactly on an open empty queue, throws exactly on a closed empty one, and otherwise returns and removes the first least message; after a throw the message is last in the vector, which is a heap if and only if it is the only one |
| PriorityQueue.PriorityQueue.TryRead | lib/min-heap_queue.hpp:138-158 | the try form, which never waits: nothing exactly when empty, the warned ones among them |
| PriorityRuns.Serve | lib/min-heap_queue.hpp:56-158 | any sequence of calls by any threads, with Close anywhere in it, up to a read whose throwing message breaks the heap: Send waits exactly when it finds the queue open and full, Read exactly when it finds it open and empty, unless they are refused for their role or warned; they never answer as the try forms do, and the try forms never wait |
| PriorityRuns.SendEndsWaiting | lib/min-heap_queue.hpp:99-129 | a Read left waiting gets v when it is repeated after one Send of v, and the queue is empty again |
| PriorityRuns.ReadEndsWaiting | lib/min-heap_queue.hpp:56-66 | a Send left waiting goes through when it is repeated after one Read |
| PriorityQueue.PriorityQueue.Create | lib/min-heap_queue.hpp:166-172 | a queue is made exactly for a capacity above zero, and is empty |
| PriorityQueue.PriorityQueue.Close | lib/min-heap_queue.hpp:182-189 | sets the flag and keeps the waiting messages |
| PriorityQueue.FrontAtBack | lib/min-heap_queue.hpp:147-158 | a vector whose front went to the back is a heap if and only if it has one node |
| PriorityQueue.Drain | lib/min-heap_queue.hpp:147-158 | reading until empty returns the values of all waiting nodes by priority and then arrival, which is their stable sort |
| PriorityQueue.CloseAndDrain | lib/min-heap_queue.hpp:66-189 | after Close, any sequence of calls by any threads, up to a read whose throwing message breaks the heap: no send goes through; received messages followed by the stable sort of what is left are the values of all nodes that waited at Close by priority and then arrival, their stable sort; a read of an accepted role says that there is none exactly when all were received |

## Left out

- Everything under bin/: the benchmark driver, its clocks, environment and reports.
- Memory orders weaker than sequential consistency, allocator failures, the retry and operation statistics.
- The thread-local maps of guards and roles as data structures: the guard in use is part of a thread's control state, the roles are one map.
- Michael–Scott: the wait sets of its blocking calls, whose counter changes outside their mutex, and its deadlock probe; in the step system an admission test that fails is tried again, in `MichaelScottObject` it ends the solo call as Waits.
- MichaelScottProgress.SizeWrapsExactly: its condition speaks of the control states of threads; the condition a caller can meet, one reader at a time, is `OneReaderNeverWraps`.
- MonitorWitness.SilentThrowLosesWakeUp: the run is one of the deque monitor, whose counters `SizeDecides` translates into the size of the heap queue; the heap queue's own condition variables have no step system.
- The objects of `MichaelScottObject` and `MonitorObject` run one call at a time beside paused threads; interleaved calls are the business of the step systems. The number of spurious failures and the address an allocation returns are parameters.
- A capacity of zero, for which the constructors of the Michael–Scott and the deque queue throw, as the priority queue's does in `Create`.
- Bounded MPMC ring: a condition for the right hand-off of slots when sends, or reads, overlap. Its semaphores count permits, not slots, and sends may publish out of ticket order, so it is not a FIFO queue then; claimed are the exact condition for one send and one read at a time, permits, counters at rest and progress in all runs, and the behaviour of one call at a time.
- Ring that drops: FIFO order under concurrency, since the wrapped head can repeat within a reader's CAS window, and in the MPMC ring a read that begins before the first send draws a ticket while all later ones follow the head; claimed are the ledger, the counter bound and the behaviour of one call at a time.
- The circular Close, which clears the buffer without resetting the permits: it is the end of life of the object.
- Circular queues with messages whose assignment throws: the guard would stay behind in the thread-local map.
- CircularQueue.CircularQueue.Read: a call that would wait is reported as Blocks and leaves the fields alone; the SPMC reader would hold read_mutex_ meanwhile, which the step system models.
- The waiting protocol of the priority queue: its calls are modelled one at a time under its mutex, and the monitor system, whose tests `SizeDecides` translates, models waiting.
- Priority queue: comparisons and moves that throw inside push_heap or pop_heap, and the wrap of the 64-bit sequence id.
- Return values whose copy throws after a pop has taken effect.
- Copy and move of the base class with its transfer of roles.
- Fairness and timing.
