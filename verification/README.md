# WEOS: models and proofs of the synchronisation core

WEOS is a C++ threading library for small ARM devices. It builds condition variables, latches,
threads, futures, message queues, clocks and locks on top of the semaphores, mutexes and SVC calls of
the CMSIS RTOS kernel. This project models those protocols in Dafny and proves what they are for.

A kernel call (semaphore wait or post, kernel mutex, message FIFO, SVC function) is one atomic step.
Everything above it is taken apart: each access to shared memory is a step of its own, any number of
threads interleave, and a theorem about a protocol speaks of every run from its initial state. Code
that walks linked structures or updates objects in place is a class on the heap, and its methods are
proved against functions on plain sequences and sets, about which the theorems are proved.

| file | subject |
|---|---|
| `QueueOrder.dfy`, `TaskQueue.dfy` | the wait queue `_tq`: its release order, and the intrusive list with tag bits |
| `TimedWait.dfy` | `wait_for` and `wait_until` against notifications: the race between timeout and notify |
| `CondVarProtocol.dfy` | `condition_variable::wait` with a predicate: no lost wake-up |
| `EventProtocol.dfy` | `latch` and `synchronic`: no lost wake-up without a mutex |
| `ThreadLifetime.dfy`, `ThreadRegistry.dfy` | the handshake of a thread with its handle, and the list of thread states |
| `StackCarving.dfy` | state block and stack inside one region, in 32 bit address arithmetic |
| `SystemClock.dfy` | the sampling loop and the packed overflow counter of the system clock |
| `FreeList.dfy`, `MessageQueue.dfy` | the chunk list of the memory pool, and `LargeMessageQueue` |
| `FutureState.dfy` | the shared state of promise and future |
| `Mutex.dfy`, `LockPair.dfy` | the non-recursive mutex, `try_lock` and `lock` of two lockables |
| `AtomicCell.dfy`, `Words.dfy` | `atomic<>` over ldrex/strex, and 32 bit words |
| `Durations.dfy` | duration arithmetic (sections 20.11.4.3 and 20.11.5.7 of ISO/IEC 14882:2011) |
| `Arith.dfy`, `Wrappers.dfy` | shared arithmetic facts, optional values |
| `FunctionObject.dfy`, `FunctionRun.dfy` | who owns the callable of a `function<>`, and any sequence of operations on such objects |

## Where the code and its comments differ

The models follow the code.

- The comment above `weos_chrono_getSystemClockTicks` asks for one call per 2^28 intervals of
  `os_time`. The code keeps the count for gaps up to 2^32 - 2^28 intervals, and no further
  (`SystemClock.CountIsExact`, `SystemClock.GapBoundIsSharp`).
- `latch::count_down_and_wait` is described as blocking until the latch is triggered, but its own
  decrement to zero triggers nothing. `EventProtocol.StepLosesNobody` gives the exact condition under
  which a step loses a sleeper, and `EventProtocol.CountDownAndWaitCanLoseASleeper` a run that does.
- The queue is meant to be ordered by priority, but the head is never compared. What holds is that
  everything behind the head is sorted. A waiter can be overtaken by a lower priority if and only if the
  head has one (`QueueOrder.InversionIsDecidedByTheHead`), and then by the head alone
  (`QueueOrder.BoundedInversion`).
- `std::align` compares with a 32 bit sum that can wrap. `StackCarving.AlignDecision` says exactly when
  its answer is right; `StackCarving.Carve` shows that it is for every real state type.
- `lock(l, l)` on one mutex never returns (`LockPair.ReturnsExactlyOnDistinct`), and move-assigning a
  `function<>` to itself empties it (`FunctionObject.Function.MoveAssign`).

## Model

| member | source | states |
|---|---|---|
| QueueOrder.InsertAt | src/_cmsis_rtos/_tq.cpp:103-117 | the insertion point lies behind the head, passes only entries of at least the new priority and stops before a lower one |
| QueueOrder.LinkKeepsInv | src/_cmsis_rtos/_tq.cpp:82-130 | linking keeps the queue free of duplicates, sorted behind its head and first come first served among equal priorities |
| QueueOrder.UnlinkKeepsInv | src/_cmsis_rtos/_tq.cpp:133-162 | removing any waiter, present or not, keeps the same invariant |
| QueueOrder.PopKeepsInv | src/_cmsis_rtos/_tq.cpp:63-78 | popping the head keeps the invariant and removes exactly the head |
| QueueOrder.LinkedMembers | src/_cmsis_rtos/_tq.cpp:82-130 | a link adds exactly the new waiter |
| QueueOrder.UnlinkedMembers | src/_cmsis_rtos/_tq.cpp:133-162 | an unlink removes exactly the given waiter |
| QueueOrder.RunKeepsInv | src/_cmsis_rtos/_tq.cpp:46-163 | the invariant holds after every serialised sequence of link, unlink and notify calls |
| QueueOrder.StepKeepsPlace | src/_cmsis_rtos/_tq.cpp:46-163 | no call moves an entry of lower or equal priority in front of a linked waiter |
| QueueOrder.BoundedInversion | src/_cmsis_rtos/_tq.cpp:65-129 | over whole runs, whatever notify_one releases up to a waiter has a higher priority, or the same one and came earlier, except that the first release may be the entry that was the head |
| QueueOrder.InversionIsDecidedByTheHead | src/_cmsis_rtos/_tq.cpp:93-129 | some run of calls releases an entry of lower priority before a linked waiter if and only if the head has a lower priority than the waiter |
| QueueOrder.InversionHappens | src/_cmsis_rtos/_tq.cpp:93-129 | such a queue is reachable: two links and two notifications release a low-priority head before a high-priority waiter |
| TaskQueue.WaitQueue.ExchangeHead | src/_cmsis_rtos/_tq.cpp:98 | a compare-and-exchange on the head stores the desired pointer exactly if the expected one is there |
| TaskQueue.WaitQueue.FindPredecessor | src/_cmsis_rtos/_tq.cpp:103-115 | the walk ends at the node behind which the specification inserts, never meets a detached node and terminates |
| TaskQueue.WaitQueue.Splice | src/_cmsis_rtos/_tq.cpp:117-128 | the two pointer stores give the chain with the new waiter inserted, its tag bits clear |
| TaskQueue.WaitQueue.UndetachedAreLinked | src/_cmsis_rtos/_tq.cpp:133-162 | of all waiters ever linked, exactly those whose detached bit is clear are on the list |
| TaskQueue.WaitQueue.Link | src/_cmsis_rtos/_tq.cpp:81-130 | the heap list afterwards is the list with the waiter inserted; on a priority error it is unchanged and 1 is returned |
| TaskQueue.WaitQueue.FindLinkTo | src/_cmsis_rtos/_tq.cpp:149-161 | the walk ends at the predecessor of the waiter, or at the end if and only if the waiter is not linked, and terminates |
| TaskQueue.WaitQueue.Unlink | src/_cmsis_rtos/_tq.cpp:132-162 | the heap list afterwards is the list without the waiter, also for one that was popped before; the waiter is detached and keeps its notified bit and its tokens |
| TaskQueue.WaitQueue.NotifyOne | src/_cmsis_rtos/_tq.cpp:63-78 | the head alone is taken off, gets both tags and exactly one token |
| TaskQueue.WaitQueue.NotifyAll | src/_cmsis_rtos/_tq.cpp:51-62 | the list is emptied and every waiter on it gets both tags and exactly one token |
| TaskQueue.WaitQueue.PostAll | src/_cmsis_rtos/_tq.cpp:54-60 | the posting loop terminates and posts each waiter of the detached list once |
| TaskQueue.WaitQueue.Leave | src/_cmsis_rtos/_tq.cpp:189-197 | the waiter is off the queue and detached afterwards, and the result tells whether a notification popped it |
| TimedWait.StepKeepsInv | src/_cmsis_rtos/_tq.cpp:46-197 | every step keeps: linked exactly if not detached, posted exactly if notified, token present until taken |
| TimedWait.ReturningIsOffTheQueue | src/_cmsis_rtos/_tq.hpp:58-61 | a call that returns has a detached node, so its destructor leaves nothing on the queue |
| TimedWait.NotificationsAreConserved | src/_cmsis_rtos/_condition_variable.hpp:145-158 | in every interleaving no_timeout is returned exactly by popped calls, pops are no_timeout returns plus popped calls still on their way out, and no semaphore is posted twice |
| TimedWait.LateNotificationCounts | src/_cmsis_rtos/_condition_variable.hpp:193-196 | a run in which the timeout fires first and the late notification still gives no_timeout |
| TimedWait.CallsNeverStick | src/_cmsis_rtos/_condition_variable.hpp:145-158 | a call that has not returned can take a step, or it is linked and waits for its timeout |
| TimedWait.NotificationsTake | src/_cmsis_rtos/_tq.cpp:51-77 | notify_one takes exactly the head off the queue, if there is one, notify_all everybody, and exactly the calls taken get a token |
| TimedWait.LinkedUntilUnlink | src/_cmsis_rtos/_condition_variable.hpp:148-154 | a call starts on the queue, blocked and without a token, and the SVC unlink takes it off |
| TimedWait.WakingUp | src/_cmsis_rtos/_tq.cpp:189-197 | a token wakes a blocked call, the timeout does without one, and the SVC unlink is called only if the detached bit is clear |
| TimedWait.ReturnsItsDecision | src/_cmsis_rtos/_condition_variable.hpp:154-157 | a woken call returns no_timeout, any other one what its notified bit said |
| CondVarProtocol.StepKeepsInv | src/_cmsis_rtos/_condition_variable.cpp:53-62 | every step keeps mutual exclusion, the link between blocked waiters and queue or token, and the debt of the notifiers |
| CondVarProtocol.NoLostWakeUp | src/_cmsis_rtos/_condition_variable.cpp:53-62 | once the predicate is true, a waiter that is still linked has a notifier that owes its notify_all; when none owes one, every blocked waiter has a token |
| CondVarProtocol.ReturnsOnlyWhenTrue | src/_cmsis_rtos/_condition_variable.hpp:126-134 | in every interleaving a wait with a predicate has returned only if the predicate is true |
| CondVarProtocol.TestDecides | src/_cmsis_rtos/_condition_variable.hpp:126-134 | a thread that finds the predicate true returns; one that finds it false is linked before it releases the mutex, and is then blocked without the mutex and without a token |
| CondVarProtocol.WokenTestsAgain | src/_cmsis_rtos/_condition_variable.hpp:63-80 | a thread that got a token, or has timed out and is unlinked, takes the mutex again and tests the predicate again |
| CondVarProtocol.NotifyAllWakesEverybody | src/_cmsis_rtos/_tq.cpp:51-62 | a notifier can set the predicate under the mutex; its notify_all empties the queue, and then every blocked waiter has a token |
| CondVarProtocol.MutualExclusion | src/_cmsis_rtos/_condition_variable.hpp:63-80 | at most one thread holds the mutex, and none that is blocked on a semaphore does |
| EventProtocol.StepLosesNobody | src/_cmsis_rtos/_latch.hpp:77-112 | a step strands a sleeper if and only if it is the decrement of count_down_and_wait to zero while another thread sleeps |
| EventProtocol.NoLostWakeUp | src/_cmsis_rtos/_synchronic.hpp:69-149 | in every interleaving without such a step, a sleeper whose condition holds has a token once no publisher owes a notify_all |
| EventProtocol.ReturnsOnlyOnTheValue | src/_cmsis_rtos/_synchronic.hpp:94-149 | in every interleaving each call that has returned relied on a latch at zero or below, on the desired value, or on a value other than the current one |
| EventProtocol.TestDecides | src/_cmsis_rtos/_latch.hpp:77-112 | a linked waiter leaves the queue and returns exactly on a value it waits for, and otherwise blocks, linked or with a token; a woken thread of a synchronic object tests again |
| EventProtocol.PublishingWakesEverybody | src/_cmsis_rtos/_synchronic.hpp:69-78 | a stored value, or a count that reaches zero, is followed by a notification that leaves nobody on the queue and gives each waiter a token |
| EventProtocol.SynchronicIsNeverSilent | src/_cmsis_rtos/_synchronic.hpp:69-78 | for synchronic objects the condition always holds |
| EventProtocol.CountDownAndWaitCanLoseASleeper | src/_cmsis_rtos/_latch.hpp:77-82 | a run after which a latch is at zero, a thread sleeps without a token and nobody will notify it |
| ThreadLifetime.MoveKeepsInv | src/_cmsis_rtos/_thread.cpp:208-285 | every move of handle or invokee keeps the counts of references, tokens and destructions exact |
| ThreadLifetime.MoveLowersRank | src/_cmsis_rtos/_thread.cpp:264-284 | every move lowers a natural number, so the handshake cannot go on for ever |
| ThreadLifetime.HandshakeProgress | src/_cmsis_rtos/_thread.cpp:558-591 | after the body and join or detach, some move is possible until both sides are done, and then the state is destroyed |
| ThreadLifetime.EveryScheduleCompletes | src/_cmsis_rtos/_thread.cpp:558-591 | from every such state no schedule is longer than a bound, and one that has no move left has finished both sides with exactly one destruction |
| ThreadLifetime.HandshakeCompletes | src/_cmsis_rtos/_thread.cpp:558-591 | such a finishing schedule exists from every such state |
| ThreadLifetime.JoinReturnsAfterTermination | src/_cmsis_rtos/_thread.cpp:577-591 | from any reachable handshake, join has returned only after the thread has terminated, and has then destroyed the state; it blocks exactly until the termination |
| ThreadLifetime.DetachLeavesTheStateToTheLast | src/_cmsis_rtos/_thread.cpp:558-575 | detach returns at once while the invokee holds its reference and leaves the state to it; otherwise it waits for the termination and destroys the state itself |
| ThreadLifetime.CreationCompletes | src/_cmsis_rtos/_thread.cpp:654-669 | the thread id is stored and the reference counted before anybody can join or detach, and the invokee waits for that |
| ThreadLifetime.NothingIsTouchedLate | src/_cmsis_rtos/_thread.cpp:264-285 | no move that touches the state is possible after its destruction, and the invokee reads its thread id only after it was stored |
| ThreadLifetime.StepKeepsInv | src/_cmsis_rtos/_thread.cpp:80-103 | with any number of threads every step keeps all handshakes and the exactness of the list |
| ThreadLifetime.LifetimeIsSafe | src/_cmsis_rtos/_thread.cpp:654-669 | in every interleaving a state is destroyed at most once and never touched afterwards, the handle destroys it or passes the wait of join only after the thread has terminated, the reference is counted before the invokee can drop its own, and the list holds each live state once |
| ThreadLifetime.DelistedMembers | src/_cmsis_rtos/_thread.cpp:80-103 | unlinking removes exactly the given state |
| ThreadRegistry.Registry.Add | src/_cmsis_rtos/_thread.cpp:313-315 | the new state becomes the first one of the heap list |
| ThreadRegistry.Registry.Unlink | src/_cmsis_rtos/_thread.cpp:81-103 | the heap list afterwards is the list without the state, listed or not |
| ThreadRegistry.Registry.ForEach | src/_cmsis_rtos/_thread.cpp:121-131 | the loop visits the list from its head until a callback answers false |
| ThreadRegistry.VisitsEveryStateOnce | src/_cmsis_rtos/_thread.cpp:121-131 | no state is visited twice, all are if every callback answers true, and otherwise the visit ends at the first that does not |
| StackCarving.MaskRoundsUp | src/_armcc/_memory.cpp:39-44 | in wrapping 32 bit arithmetic the mask expression is the rounded-up address and the difference is the exact padding |
| StackCarving.MaskIsLeastMultiple | src/_armcc/_memory.cpp:43 | the result is aligned and no aligned address lies between the given address and it |
| StackCarving.RoundUpIsLeast | src/_armcc/_memory.cpp:43 | rounding up is the least multiple of the alignment from the address on |
| StackCarving.AlignDecision | src/_armcc/_memory.cpp:45 | the wrapped comparison is right if and only if the real sum does not wrap or its wrapped value is refused anyway |
| StackCarving.AlignCanOverflow | src/_armcc/_memory.cpp:45 | a request near 2^32 that is accepted although it does not fit |
| StackCarving.ThreadProperties.Align | src/_cmsis_rtos/_thread.cpp:462-465 | align moves begin and size together by the padding, or changes nothing and returns null |
| StackCarving.ThreadProperties.MaxAlign | src/_cmsis_rtos/_thread.cpp:467-482 | max_align keeps the end of the region, or changes nothing and returns null exactly if the aligned address lies beyond the end |
| StackCarving.PlaceState | src/_cmsis_rtos/_thread.hpp:524-538 | the state block is the first aligned place of the region, and exactly the requests that fit are accepted |
| StackCarving.PlaceStack | src/_cmsis_rtos/_thread.cpp:626-642 | the three outcomes of do_create, each with its exact condition |
| StackCarving.Carve | src/_cmsis_rtos/_thread.hpp:511-542 | state block and stack are aligned, disjoint and inside the region, the region's end is kept, get_stack_size gives the original length, and success and failure have exact conditions on the length |
| SystemClock.Sample | src/_cmsis_rtos/_chrono_clocks.cpp:77-85 | the loop returns ticks and time of the first acceptable iteration |
| SystemClock.SampleIsBracketed | src/_cmsis_rtos/_chrono_clocks.cpp:76-85 | the accepted pair is a counter value between the first and the third read of its iteration, however long the iteration takes; the comparison of the ticks alone makes it so |
| SystemClock.OrdinaryIterationIsAccepted | src/_cmsis_rtos/_chrono_clocks.cpp:77-85 | an iteration inside one interval that sees the counter advance is accepted, with the counter at its first read |
| SystemClock.MasksOfTheCode | src/_cmsis_rtos/_chrono_clocks.cpp:88-111 | the bitwise and with the two masks and the bitwise or, taken bit by bit, are the top nibble, the counter and their sum |
| SystemClock.CounterOverflowIsLost | src/_cmsis_rtos/_chrono_clocks.cpp:109-111 | after 2^28 wraps the bitwise or runs the counter into the time bits: the carry is lost if the lowest of them is set |
| SystemClock.SignedIsTwosComplement | src/_cmsis_rtos/_chrono_clocks.cpp:116 | the conversion of the unsigned sum to the result type is in range and the same modulo 2^64 |
| SystemClock.CountIsExact | src/_cmsis_rtos/_chrono_clocks.cpp:88-113 | the overflow count is right if and only if the high part of the sample is 0 to 15 steps ahead of the recorded one, and then the word is brought up to date |
| SystemClock.GapBoundIsSharp | src/_cmsis_rtos/_chrono_clocks.cpp:68-71 | a gap of 2^32 - 2^28 intervals is always harmless, and one interval more is not |
| SystemClock.Clock.CountOverflows | src/_cmsis_rtos/_chrono_clocks.cpp:91-114 | the compare-and-exchange loop returns the overflow count and leaves the updated word |
| SystemClock.Clock.GetSystemClockTicks | src/_cmsis_rtos/_chrono_clocks.cpp:72-117 | the whole call: if the word was set at most 15 steps of the top nibble ago, the result is the unwrapped counter at an instant between two reads of the call, and the word is up to date afterwards |
| SystemClock.ClockIsExact | src/_cmsis_rtos/_chrono_clocks.cpp:72-117 | sequential calls at most 2^32 - 2^28 intervals apart, with fewer than 2^28 wraps and results below 2^63, return the unwrapped counter, strictly increasing |
| SystemClock.RaceStepKeepsInv | src/_cmsis_rtos/_chrono_clocks.cpp:91-114 | every interleaved step keeps the word equal to the packed high part of its last update, at most 15 steps behind |
| SystemClock.WrapsAreCountedOnce | src/_cmsis_rtos/_chrono_clocks.cpp:87-114 | if the top nibble stays while a thread is between sample and update, and never gets 16 steps ahead of the word, racing threads count each wrap once and each returns the wraps up to its sample |
| SystemClock.LostExchangeEndsAtNextLoad | src/_cmsis_rtos/_chrono_clocks.cpp:105-112 | a thread that lost the exchange to another one returns on its next load |
| SystemClock.CourseOfARacer | src/_cmsis_rtos/_chrono_clocks.cpp:91-114 | a load ends a call exactly if the high part is recorded already, an exchange exactly if nobody interfered, both with the wraps up to the sample; any other exchange starts over |
| SystemClock.TimePasses | src/_cmsis_rtos/_chrono_clocks.cpp:67-71 | the assumptions on time do not stop it: within a top nibble it always passes, and across one when nobody is in flight and the word is less than 16 steps behind |
| FreeList.List.constructor | src/memorypool.hpp:49-61 | the loop links all chunks in ascending order, ending in null |
| FreeList.List.TryAllocate | src/memorypool.hpp:76-84 | null exactly if every chunk is handed out, otherwise a chunk that is not, taken from the front |
| FreeList.List.Free | src/memorypool.hpp:86-90 | a handed-out chunk goes back to the front, and nothing else changes |
| FreeList.AllocateKeepsPartition | src/memorypool.hpp:76-84 | free and handed-out chunks stay a partition of the array |
| FreeList.FreeKeepsPartition | src/memorypool.hpp:86-90 | giving a chunk back keeps the partition |
| FreeList.RunKeepsPartition | src/memorypool.hpp:76-90 | over any run of allocations and returns each chunk is free or handed out, never both, never twice, and none is lost |
| FreeList.FreeChunksAreCounted | src/memorypool.hpp:76-90 | over any run the number of free chunks is the one at the start, less the successful allocations, plus the returns |
| FreeList.ReturnedChunkIsNext | src/memorypool.hpp:76-90 | a returned chunk is the next one handed out, so an allocation after a return never gives null |
| FreeList.NothingIsLost | src/memorypool.hpp:46-101 | free and handed-out chunks add up to the number of chunks |
| MessageQueue.NeverFaults | src/_cmsis_rtos/messagequeue.hpp:226-230 | a sender past the semaphore always gets a chunk and always finds room in the FIFO, and a receiver finds an element |
| MessageQueue.StepKeepsInv | src/_cmsis_rtos/messagequeue.hpp:184-280 | every step of any sender or receiver keeps slots, chunks, places, stream positions and the calls of the senders consistent |
| MessageQueue.QueueIsSafe | src/_cmsis_rtos/messagequeue.hpp:184-280 | in every interleaving tokens and parties between semaphore and pool add up to the free chunks, and free, held and queued chunks to the capacity; each send that got a slot is under way or owns exactly one position of the stream with its own element; each receive returns the element at its own position, no position twice |
| MessageQueue.QuietQueueIsExact | src/_cmsis_rtos/messagequeue.hpp:184-280 | with nothing under way the stream is the elements of all sends, each once; its first ones have been delivered, each once, the rest is queued in order, senders block exactly on a full queue and receivers on an empty one |
| MessageQueue.AllocateGetsAChunk | src/_cmsis_rtos/messagequeue.hpp:222-228 | a sender that got a slot can always go on and gets the first free chunk |
| MessageQueue.EnqueueSendsTheElement | src/_cmsis_rtos/messagequeue.hpp:229-230 | a sender with its element constructed can always go on: the chunk goes to the end of the FIFO and its own element to the end of the stream |
| MessageQueue.DequeueTakesTheFront | src/_cmsis_rtos/messagequeue.hpp:186-189 | a receiver gets the pointer at the front whenever the FIFO is not empty |
| MessageQueue.MoveOutTakesTheElement | src/_cmsis_rtos/messagequeue.hpp:191-193 | it can always go on and moves out the element that was enqueued at its position |
| MessageQueue.ReleaseFreesTheChunk | src/_cmsis_rtos/messagequeue.hpp:194 | then it gives the chunk back to the front of the pool |
| MessageQueue.PostSlotReturnsTheElement | src/_cmsis_rtos/messagequeue.hpp:195-196 | then it posts one slot and returns the element |
| FutureState.SharedStateIsSafe | src/_cmsis_rtos/_future.hpp:194-215 | in every interleaving the reference count is the number of live handles, one future attaches, one result is stored, a future without its promise is ready, and the state is destroyed once, exactly when both handles are gone |
| FutureState.GetDeliversWhatWasSet | src/_cmsis_rtos/_future.cpp:95-126 | in every interleaving, once Ready is set, get() delivers what exactly one setter was given, or the broken promise, and every other setter is still trying or has thrown |
| FutureState.RefusedOnlyIfLate | src/_cmsis_rtos/_future.cpp:84-104 | in every interleaving a setter has thrown only if another one has won, and get_future only if a future is attached |
| FutureState.FirstSetterWins | src/_cmsis_rtos/_future.cpp:95-104 | while nobody has won, a setter whose flags are current becomes the winner with its own payload, and any other one tries again with the current flags |
| FutureState.WinnerFinishes | src/_cmsis_rtos/_future.cpp:106-119 | the winner stores, sets Ready and notifies without waiting for anybody, keeping its payload |
| FutureState.FirstRetrievalSucceeds | src/_cmsis_rtos/_future.cpp:84-93 | while no future is attached, a get_future call whose flags are current gets the future and counts its reference |
| FutureState.LateRetrievalIsDenied | src/_cmsis_rtos/_future.cpp:84-93 | once a future is attached, get_future throws by its second round and changes nothing else |
| FutureState.DestructorBreaksUnsetPromise | src/_cmsis_rtos/_future.cpp:195-210 | the destructor of a promise sets the broken promise if and only if nothing was set and a future holds the state |
| FutureState.HandlesEnd | src/_cmsis_rtos/_future.hpp:209-215 | each handle drops its reference once, and exactly the last one destroys the state |
| FutureState.WaiterTestsReady | src/_cmsis_rtos/_future.cpp:128-132 | a waiter is served exactly if its test finds Ready set, and blocks otherwise |
| FutureState.WaiterPassesTheTokenOn | src/_cmsis_rtos/_future.hpp:136-140 | a blocked waiter takes a token if there is one and puts it back before its next test |
| FutureState.NoWaiterGoesEarly | src/_cmsis_rtos/_future.cpp:128-132 | no waiter goes away with a result before Ready is set |
| FutureState.ResultIsFinal | src/_cmsis_rtos/_future.cpp:95-119 | once Ready is set, no later run changes the result |
| FutureState.LateSetterIsRefused | src/_cmsis_rtos/_future.cpp:95-104 | a setter that comes second changes nothing and fails at the latest on its second round |
| FutureState.NoWaiterIsStranded | src/_cmsis_rtos/_future.hpp:131-140 | after the notification tokens and waiters about to re-post add up to one, and every waiter can go on |
| FutureState.StepKeepsHandles | src/_cmsis_rtos/_future.cpp:147-158 | every step keeps the reference count, the retrievals and the destructions exact |
| FutureState.StepKeepsOutcome | src/_cmsis_rtos/_future.cpp:106-119 | every step keeps the flags in line with the one successful setter, and the stored value or exception equal to its payload |
| FutureState.StepKeepsSetter | src/_cmsis_rtos/_future.cpp:95-104 | every step keeps each setter trying, refused or successful, with the payload it was given |
| FutureState.StepKeepsTokens | src/_cmsis_rtos/_future.hpp:131-154 | every step keeps the number of tokens and re-posting waiters |
| Mutex.Mutex.Lock | src/_cmsis_rtos/_mutex.cpp:44-66 | acquires a free mutex; a relock by its holder is rolled back and reported |
| Mutex.Mutex.TryLock | src/_cmsis_rtos/_mutex.cpp:68-98 | succeeds exactly on a free mutex and otherwise leaves the holder as it was |
| Mutex.Mutex.Unlock | src/_cmsis_rtos/_mutex.cpp:100-107 | frees the mutex |
| Mutex.TryLockBoth | src/_common/_lock_guards.hpp:387-404 | -1 with both locked, otherwise the index of the one that was not available and both as before, also for the same mutex twice |
| Mutex.NonRecursiveMutex | src/_cmsis_rtos/_mutex.cpp:44-107 | in every interleaving of kernel calls and flag accesses at most one thread is inside, others are never refused by the flag, and a relock by the holder always is, with one level left |
| Mutex.KernelGrants | src/_cmsis_rtos/_mutex.cpp:44-107 | a thread is let in exactly if the mutex is free or its own, and from there all its calls go on without waiting |
| LockPair.LockOwnsBothOrNothing | src/_common/_lock_guards.hpp:352-377 | a blocking thread holds neither mutex, and on return it holds exactly the two it called lock with |
| LockPair.AttemptsOfACall | src/_common/_lock_guards.hpp:355-376 | a call returns exactly if the second mutex is free when it tries; otherwise it gives the first one back and blocks on the one that was not available |
| LockPair.NoDeadlock | src/_common/_lock_guards.hpp:349-377 | for any threads, pairs and orders, some unfinished thread can always move |
| LockPair.ReturnsExactlyOnDistinct | src/_common/_lock_guards.hpp:352-377 | a call can return if and only if the two mutexes are distinct |
| AtomicCell.UpperBitsDoNotMatter | src/_armcc/_atomic.hpp:187-196 | operands that agree on the low 8, 16 or 32 bits give results that agree on them, for all operations |
| AtomicCell.AddAndSubtract | src/_armcc/_atomic.hpp:415-441 | fetch_add leaves the sum and fetch_sub the difference modulo the size of the type, and each undoes the other |
| AtomicCell.BitwiseOperations | src/_armcc/_atomic.hpp:443-484 | every bit that fetch_and, fetch_or and fetch_xor leave is the conjunction, disjunction or inequality of the operands' bits |
| AtomicCell.Exchanges | src/_armcc/_atomic.hpp:284-372 | exchange leaves its argument; compare_exchange leaves the desired value exactly if the cell is as expected, and reports which |
| AtomicCell.LoadRefines | src/_armcc/_atomic.hpp:355-371 | a load-exclusive is invisible and finishes no call, or it is the failing compare-exchange of the call that it finishes |
| AtomicCell.StoreRefines | src/_armcc/_atomic.hpp:187-196 | a store-exclusive is invisible and finishes no call, or it is exactly the one operation of the call that it finishes |
| AtomicCell.CompletedOperationsAreLinearisable | src/_armcc/_atomic.hpp:284-372 | for any threads, interleavings and store failures the events form a legal history of an atomic cell of the type's width; the completed calls, returned ones included, are exactly the calls with an event, which has the call's operation and outcome, and no call has two |
| AtomicCell.ReturnedCallsComeFirst | src/_armcc/_atomic.hpp:284-372 | in any continuation of a run, the event of a call that has returned precedes the event of a call invoked later |
| AtomicCell.IntactMonitorCompletes | src/_armcc/_atomic.hpp:189-194 | a loop repeats only after its exclusive access was lost: with it intact the store finishes the call and stores what the operation makes of the cell |
| AtomicCell.CourseOfACall | src/_armcc/_atomic.hpp:350-372 | a call loads, fails at once if the value is not the expected one, is finished by a successful store, starts over after a failed one, and returns its outcome |
| Words.MaskRoundsDown | src/_armcc/_memory.cpp:43 | and-ing a word with a negated power of two rounds it down to a multiple |
| Words.LowBits | src/_armcc/_atomic.hpp:192 | the low bits of and, or and xor depend on the low bits of the operands only |
| Words.BitsAreBitwise | src/_armcc/_atomic.hpp:192 | and, or and xor are conjunction, disjunction and inequality at every bit |
| Durations.GcdDivides | src/_common/_chrono.hpp:90-111 | the result divides both arguments |
| Durations.GcdCombination | src/_common/_chrono.hpp:90-111 | the result is an integer combination of the arguments, so it is the greatest common divisor |
| Durations.LcmIsMultiple | src/_common/_chrono.hpp:114-129 | the least common multiple is a multiple of both arguments |
| Durations.CommonPeriodDivides | src/_common/_chrono.hpp:135-187 | each period is a positive integer multiple of the common period, so conversion to it multiplies by an integer |
| Durations.CommonPeriodIsGreatest | src/_common/_chrono.hpp:135-139 | every period that divides both periods divides the common period |
| Durations.ComparisonIsRational | src/_common/_chrono.hpp:417-462 | less and equal on durations are the order and the equality of the rationals |
| Durations.SumIsExact | src/_common/_chrono.hpp:522-529 | the sum of two durations is the sum of the rationals |
| Durations.TruncIsUnique | src/_common/_chrono.hpp:609-629 | the truncated quotient is characterised by its bounds towards zero |
| Durations.CastTruncates | src/_common/_chrono.hpp:570-649 | all four specialisations give the truncated exact quotient of the two durations |
| Durations.Ceil | src/_common/_chrono.hpp:671-681 | the least count whose duration is not below the given one, for both signs |
| FunctionObject.Function.Of | src/_armcc/_functional.hpp:816-841 | null for a null pointer, otherwise the callable in the buffer or in a new block |
| FunctionObject.Function.Copy | src/_armcc/_functional.hpp:776-791 | the copy holds a callable of its own in the same kind of place |
| FunctionObject.Function.Move | src/_armcc/_functional.hpp:793-809 | a large callable changes its owner and leaves the source empty, a small one is copied and stays with the source |
| FunctionObject.Function.Release | src/_armcc/_functional.hpp:1035-1042 | exactly the object's own callable is destroyed, its block freed, and the object is empty |
| FunctionObject.Function.MoveAssign | src/_armcc/_functional.hpp:908-923 | the target's callable is destroyed and replaced; self-move empties; nobody else is affected |
| FunctionObject.Function.Swap | src/_armcc/_functional.hpp:948-993 | the targets are exchanged in every combination of empty, small, large and identical objects, no block is allocated or freed, and nobody else is affected |
| FunctionObject.Function.CopyAssign | src/_armcc/_functional.hpp:902-906 | the object holds a copy afterwards, also from itself, and no other object changes |
| FunctionObject.Function.AssignCallable | src/_armcc/_functional.hpp:935-939 | the object holds the callable afterwards and no other object changes |
| FunctionObject.Function.Destruct | src/_armcc/_functional.hpp:897-900 | the callable goes with its object, and nothing else does |
| FunctionObject.NothingLeaks | src/_armcc/_functional.hpp:1035-1042 | as many callables are alive as objects have a target, and when all objects are gone nothing is left |
| FunctionRun.Perform | src/_armcc/_functional.hpp:766-993 | through any sequence of construction, copy, move, assignment, swap, clearing and destruction of any number of objects, aliased or not, the heap follows the list of values held, exactly the held targets are alive, and with the last object the last callable and block are gone |
| FunctionRun.TargetsAreAlive | src/_armcc/_functional.hpp:1035-1042 | the number of live callables is the number of targets held |

## Left out

- The RTX kernel, its task blocks and the SVC assembly: kernel calls are atomic steps, SVC functions are serialised.
- Weak memory and barriers: steps interleave sequentially.
- An interrupt that notifies in the middle of a link or unlink: the list invariant does not survive it, so notifications come between SVC calls.
- Two notifications that interleave inside notify_one: each is one step.
- The test for an empty queue in `_tq::notify_one` and `_tq::notify_all` is a step of its own in the condition variable and event protocols; in `TimedWait.dfy` it would change nothing and is omitted.
- `EventProtocol`: the loop in `count_down` is one step (`AtomicCell` is the reason why it may be); the `notify_one` hint, the overloads that take a function or a predicate, and the unlocked first test of `expect`.
- `CondVarProtocol`: predicates that become false again, and `notify_one` with several waiters for different conditions.
- `ThreadLifetime`: creation that fails in the kernel, move-assignment of handles, and the destructor of a joinable handle, which terminates the program.
- `ThreadRegistry.Registry.ForEach`: the callback is a function of the state; the list does not change under an SVC call.
- StackCarving.Carve: requires what any real type and region satisfy (size plus alignment at most 2^32, a non-null base, no wrap of the region); heap-allocated stacks and stack watermarks are not modelled.
- SystemClock.Sample: works on a finite sequence of readings and returns nothing if none is acceptable, where the loop would go on.
- SystemClock.WrapsAreCountedOnce: assumes that the top nibble of the time does not move while a thread is between sample and update, because a stale sample counts as a wrap, and that it never gets 16 steps ahead of the word, because such a gap is miscounted (both by `SystemClock.CountIsExact`).
- SystemClock.Clock: the words `os_time` and `os_tick_ovf` are read together.
- FreeList.List.constructor: zero chunks; the loop compares with the first chunk and would set `m_first` to memory that is not there.
- `MessageQueue`: elements whose constructor throws; the small queue, which is the kernel FIFO itself; the disabled draft of a second version.
- `FutureState`: elements whose constructor throws, moving and swapping handles, destroying a handle while another thread uses the same handle, `async` and its state, the memory base of the state.
- `Mutex`: `timed_mutex` and its chunked timeouts; `timed_mutex::try_lock_for` with milliseconds does not set `m_locked`.
- `LockPair`: fairness and livelock; locking while holding other mutexes.
- `AtomicCell`: `store`, which is an exchange without a result, the lock-based version for large types and `atomic_flag`.
- `Durations`: overflow of counts and ratios, floating-point representations, `checked_division`, time points.
- `FunctionObject`: calling the target, allocators, type information, callables whose copy throws.
- `unique_lock`, exception transport, error categories, `tuple`, `bind`, type traits, the C++11 backend, board support: wrappers or compile-time plumbing.
- Integer sequences, scope guards, signal sets, `intrusive_ptr`, object pools beyond the free list: they would only add easy members.
