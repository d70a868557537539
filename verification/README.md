# Verified model of the "C Interfaces and Implementations" modules

This project models the modules of interfaces_and_implementations_book in Dafny and proves what
they are for. `dafny verify dfyconfig.toml` checks everything.

**Concurrent programs.** `Scheduler` is thread.c: every call, and every interrupt outside the
monitor, is one step, and a schedule is any sequence of steps; `SchedulerRuns` has what holds in
every run, and `SchedulerCalls` what the calls promise their callers. `ThreadQueues` proves the
circular lists behind its queues on the heap. `Semaphores` is what a client that is never alerted
sees of a semaphore (`SchedulerRuns.WaitView` and `SignalView` tie it to thread.c). `Channel` is
chan.c, with every statement a step of its own, under arbitrary preemption. `Sieve` runs source,
filters and sink over slots, which `Channel.RefinesSlot` shows a
channel with one sender to be. `SieveProgram` is the same pipeline with every statement of its
channel calls interleaved: a refinement of `Sieve`, by way of `Links` (a channel between two nodes)
and `SieveChannels` (how numbers are stored, and the slots). `ConcurrentSort` interleaves the forked
calls of quick at the loop iterations of partition. `Spin` is the locked half of spin.c run as a
whole program on `Scheduler`, with the load and the store of the increment as separate steps.

**Memory.** `CheckingAllocator` is memchk.c with its history: every address ever returned.
`ArenaAllocator` is arena.c with any number of arenas. The methods work on the source's tables;
lemmas about one change at a time (cutting, refilling, pushing, popping) keep the invariant.

**Exceptions.** `Exceptions` expands the macros of except.h into the C they stand for, runs that on
a machine with frames, flags, setjmp and longjmp, and proves it to compute a recursive semantics.

**Containers and text.** `Rings`, `Sequences`, `Atoms`, `HashSets`, and `Formats` with `Numerals`
are classes and methods proved against mathematical sequences, sets and numerals. `Primes`,
`Rendezvous`, `Wrappers` and `Machine` hold shared notions.

What was read in place of slips of the transcription:

- sieve.c:67-70: `sink` has lost the divisor scan that `filter` has at lines 48-50; it is modelled in
  both. The field used as n is declared t at line 38.
- sort.c:44 looks at a[i] before it tests i < j; the bound is tested first, with the same outcome.
- memchk.c:88-89 and 136, ring.c:55, 59 and 307, except.h:72, fmt.c:537: misspelt names.
- thread.c:149: the field stack stands for estack.
- ring.c:176: `Ring_get` returns the value of the node it finds.
- seq.c:80, 106, 207 and 226: head + i, as the comments say, for head + 1; line 186 stores x.
- set.c:179: `Set_inter` has kept the negation of Set_minus; intersection is modelled.

Where code and comment disagree the code is followed: ring.c:351-354 says that a positive rotation
increments the indices, but lines 365-382 decrement them, and divide by the length, so that the ring
must not be empty. The ' ' flag is accepted by fmt.c but has no effect in Fmt_putd.

Two promises hold only within limits. A channel delivers under every preemption exactly when it has
at most one sender or no receiver (`Channel.DeliversExactly`); with more senders it is enough that
threads switch inside blocking calls (`Channel.CooperativeDelivers`). And a field is as long as the
larger of the width asked for and of sign plus digits, except exactly when precision and number are
0 and the width exceeds the sign (`Formats.KeepsWidthExactly`; `Formats.WidthExceeded` has %1.0d of
0): there the padding reckons with no digit, but the digit is emitted.

The source's counter is an int. It stays one as long as there are at least twice as many primes up
to INT_MAX as up to last, and two more (`SieveRange.SeenAtMost`). `SieveProgram`, where numbers
travel as bytes (low byte first, say: `SieveChannels.LittleEndian`), is about those values of last;
module `Sieve`, with unbounded integers, is about all.

## Model

| member | source | states |
|---|---|---|
| Channel.StepInv | interfaces_and_implementations_book/20_threads/chan.c:28-59 | every statement of every party keeps the protocol's invariant, as long as no two senders are past `send` at once |
| Channel.TokenConservation | interfaces_and_implementations_book/20_threads/chan.c:17-59 | send.count + recv.count + the number of parties holding the slot is 1 |
| Channel.ExclusiveRunsDeliver | interfaces_and_implementations_book/20_threads/chan.c:28-59 | in every run, with any number of parties, in which two senders are never past `send` at once: the k-th receive takes the k-th message cut to its room, both calls return the length copied, and a send is at its return only once its own message was copied |
| Channel.OneSenderDelivers | interfaces_and_implementations_book/20_threads/chan.c:28-59 | the same for one sender and any receivers under every preemption |
| Channel.CooperativeDelivers | interfaces_and_implementations_book/20_threads/chan.c:28-59 | the same for any senders when threads switch only inside blocking calls |
| Channel.PreemptedSendersFail | interfaces_and_implementations_book/20_threads/chan.c:43-57 | with two senders and a receiver there is always a preempted run that breaks the promise: the second sender passes `sync` on the first one's token |
| Channel.DeliversExactly | interfaces_and_implementations_book/20_threads/chan.c:28-59 | every schedule keeps the promise if and only if there is at most one sender or no receiver |
| Channel.NeverDangles | interfaces_and_implementations_book/20_threads/chan.c:35-41 | the pointers `ptr` and `size` refer to a send in progress whenever a receiver follows them |
| Channel.NeverStuck | interfaces_and_implementations_book/20_threads/chan.c:28-59 | while a send and a receive are in progress some party can go on |
| Channel.CallsFinish | interfaces_and_implementations_book/20_threads/chan.c:28-59 | when no further call begins at most eight steps for each party are possible, and a run that cannot be prolonged has completed all sends or all receives |
| Channel.CallsAreShort | interfaces_and_implementations_book/20_threads/chan.c:28-59 | every step brings its party nearer to the end of its call and takes no other back |
| Channel.RefinesSlot | interfaces_and_implementations_book/20_threads/chan.c:28-59 | with one sender each step does to the channel what a one-place slot allows: put, take and cut, hand the length back, or nothing |
| Sieve.StepInv | interfaces_and_implementations_book/20_threads/generating_primes/sieve.c:43-103 | every statement of source, filters and sink keeps the pipeline's invariant |
| Sieve.PrintsPrimes | interfaces_and_implementations_book/20_threads/generating_primes/sieve.c:60-91 | in every state of every run the output is a prefix of the primes up to last, in ascending order |
| Sieve.PrintsAllPrimes | interfaces_and_implementations_book/20_threads/generating_primes/sieve.c:72-91 | when the sink has left its loop the output is exactly all primes up to last |
| Sieve.ArrayFits | interfaces_and_implementations_book/20_threads/generating_primes/sieve.c:63-77 | the stores to primes[256] stay inside for every n from 1 to 255 |
| Sieve.NeverStuck | interfaces_and_implementations_book/20_threads/generating_primes/sieve.c:43-103 | no unfinished state is stuck, also while zero-size receives shut the pipeline down upstream |
| Sieve.RunsAreShort | interfaces_and_implementations_book/20_threads/generating_primes/sieve.c:43-103 | a measure of the state bounds the length of every run from it |
| Sieve.EverySchedulePrintsThePrimes | interfaces_and_implementations_book/20_threads/generating_primes/sieve.c:43-103 | total correctness over all schedules: runs are bounded, and a run that cannot go on has finished every thread and printed exactly the primes up to last |
| SieveRange.SeenAtMost | interfaces_and_implementations_book/20_threads/generating_primes/sieve.c:94-103 | when there are twice as many primes up to hi as up to last, and two more, no number in the pipeline gets past hi; with hi the largest int the source's counter does not overflow |
| SieveChannels.MovesAreSlotSteps | interfaces_and_implementations_book/20_threads/generating_primes/sieve.c:47-102 | what a step of the pipeline does to a channel is what Channel.RefinesSlot shows a step of its one sender or its receiver to do |
| SieveChannels.MovesExactly | interfaces_and_implementations_book/20_threads/generating_primes/sieve.c:47-102 | a node at a channel operation can go on exactly when the channel lets its party go on, and then does just that |
| SieveChannels.CallsGive | interfaces_and_implementations_book/20_threads/generating_primes/sieve.c:47-102 | the number a node goes on with is the one whose bytes were copied, and a send that returns zero ends its loop |
| Links.SenderMove | interfaces_and_implementations_book/20_threads/chan.c:48-59 | of the statements of Chan_send on a channel with one receiver one puts the message into the empty slot, the return takes the length from it, and the others leave the slot alone |
| Links.ReceiverMove | interfaces_and_implementations_book/20_threads/chan.c:28-46 | of the statements of Chan_receive one replaces the message in the slot, copied and cut, by its length, and the others leave the slot alone |
| Links.SenderGoes | interfaces_and_implementations_book/20_threads/chan.c:48-59 | a sender whose message can go in, or whose length is there, can go on, if need be after the receiver |
| SieveProgram.StepInv | interfaces_and_implementations_book/20_threads/generating_primes/sieve.c:43-103 | with the statements of all channel calls interleaved too: each is a step of module Sieve or nothing that module sees, and keeps the invariant of both |
| SieveProgram.RefinesSieve | interfaces_and_implementations_book/20_threads/generating_primes/sieve.c:43-103 | every run at the grain of the statements of chan.c is a run of module Sieve, and no longer than a measure of the state |
| SieveProgram.NeverStuck | interfaces_and_implementations_book/20_threads/generating_primes/sieve.c:43-103 | until every thread has returned some thread can run its next statement, inside a channel call or not |
| SieveProgram.EveryInterleavingPrintsThePrimes | interfaces_and_implementations_book/20_threads/generating_primes/sieve.c:43-103 | total correctness at that grain: under every schedule the output is at all times a prefix of the primes up to last, runs are bounded, and one that cannot be prolonged has returned from every thread and printed exactly the primes up to last |
| Primes.UpToContains | interfaces_and_implementations_book/20_threads/generating_primes/sieve.c:71-75 | UpTo(m), which the output is compared with, holds exactly the primes up to m |
| Primes.UpToAscending | interfaces_and_implementations_book/20_threads/generating_primes/sieve.c:71-75 | ... in ascending order |
| ConcurrentSort.StepInv | interfaces_and_implementations_book/20_threads/sorting_concurrency/sort.c:37-80 | every loop iteration of partition and every fork or call of quick keeps the pending ranges disjoint and in bounds, the array a permutation, and every inversion inside a pending range |
| ConcurrentSort.NeverOutOfBounds | interfaces_and_implementations_book/20_threads/sorting_concurrency/sort.c:42-48 | the index loops of partition never leave the array |
| ConcurrentSort.FinalPlaces | interfaces_and_implementations_book/20_threads/sorting_concurrency/sort.c:53-80 | at every moment of every run what no pending range covers holds what the sorted array holds there |
| ConcurrentSort.JoinedIsSorted | interfaces_and_implementations_book/20_threads/sorting_concurrency/sort.c:83-94 | when the join has returned the array is a sorted permutation of the input, for every cutoff and schedule |
| ConcurrentSort.NeverStuck | interfaces_and_implementations_book/20_threads/sorting_concurrency/sort.c:83-94 | until the join has returned some thread can go on |
| ConcurrentSort.RunsAreShort | interfaces_and_implementations_book/20_threads/sorting_concurrency/sort.c:37-80 | the pending work strictly decreases with every step |
| ConcurrentSort.EveryScheduleSorts | interfaces_and_implementations_book/20_threads/sorting_concurrency/sort.c:37-94 | total correctness over all schedules: at most 4(n+1)^2 + 1 steps, and a run that cannot go on has sorted the array |
| ThreadQueues.Queue.Put | interfaces_and_implementations_book/20_threads/thread.c:117-128 | on the circular list put appends, and other queues stay as they are |
| ThreadQueues.Queue.Get | interfaces_and_implementations_book/20_threads/thread.c:89-103 | get takes the first thread, its inqueue assertion holds, other queues stay as they are |
| ThreadQueues.Queue.Before | interfaces_and_implementations_book/20_threads/thread.c:74-75 | the search of delete ends at the thread before t |
| ThreadQueues.Queue.Delete | interfaces_and_implementations_book/20_threads/thread.c:69-86 | delete takes one thread out in place, wherever it is; the last pointer stays right |
| ThreadQueues.Unlinked | interfaces_and_implementations_book/20_threads/thread.c:77-83 | a circle with one thread unlinked is a circle again |
| Scheduler.InitialInv | interfaces_and_implementations_book/20_threads/thread.c:205-232 | the invariant holds after Thread_init |
| Scheduler.StepInv | interfaces_and_implementations_book/20_threads/thread.c:166-417 | every call and every interrupt keeps queues, inqueue fields, nthreads, joins, alerts and semaphores consistent |
| Scheduler.ExitInv | interfaces_and_implementations_book/20_threads/thread.c:177-202 | ... Thread_exit among them |
| Scheduler.WakeAll | interfaces_and_implementations_book/20_threads/thread.c:185-190 | the loop of Thread_exit moves all joiners of the leaving thread to ready, in order |
| Scheduler.LastIsInJoin0 | interfaces_and_implementations_book/20_threads/thread.c:192-195 | ready is empty when Thread_exit is about to wake the thread in join0 |
| Scheduler.HandOffInv | interfaces_and_implementations_book/20_threads/thread.c:397-400 | a token handed to the first waiter leaves everything consistent |
| SchedulerRuns.AssertionsHold | interfaces_and_implementations_book/20_threads/thread.c:69-202 | in no run does an assertion of put, get, delete, Thread_exit or Sem_signal fail (run() on an empty ready queue, which is deadlock, is the state Stuck) |
| SchedulerRuns.ThreadsAreQueued | interfaces_and_implementations_book/20_threads/thread.c:49-54 | at every switch point each live thread but the current one is in exactly one queue, the current one in none, and nthreads is one plus the lengths of all queues |
| SchedulerRuns.JoinReturnsTheCode | interfaces_and_implementations_book/20_threads/thread.c:235-246 | a Thread_join(t) that blocks and returns normally returns the code t passed to Thread_exit in that run |
| SchedulerRuns.JoinAllReturnsLast | interfaces_and_implementations_book/20_threads/thread.c:248-258 | a Thread_join(NULL) that blocks and returns normally returns to the only thread left |
| SchedulerRuns.JoinersOfLive | interfaces_and_implementations_book/20_threads/thread.c:240-243 | threads wait only on live threads |
| SchedulerRuns.FreedNeverRuns | interfaces_and_implementations_book/20_threads/thread.c:131-151 | a thread that is or was on the free list is never current, queued or resumed again |
| SchedulerRuns.TokensAreConserved | interfaces_and_implementations_book/20_threads/thread.c:394-417 | along every run the count of a semaphore changes by signals minus grants, a grant being an immediate pass or a hand-off |
| SchedulerRuns.WaitersMeanZero | interfaces_and_implementations_book/20_threads/thread.c:394-417 | for a semaphore that starts at no less than zero the count stays so, and is zero while anybody waits |
| SchedulerRuns.GrantsInOrder | interfaces_and_implementations_book/20_threads/thread.c:394-417 | while a waiting thread is neither alerted nor granted, every grant goes to a thread that was in front of it, and there are no more signals than such threads |
| SchedulerRuns.WaitReturnsServed | interfaces_and_implementations_book/20_threads/thread.c:406-417 | whoever returns normally from a Sem_wait that blocked was given a token since its call |
| SchedulerRuns.AlertedWaiterRaises | interfaces_and_implementations_book/20_threads/thread.c:394-417 | a waiter that was handed a token and is alerted before it runs raises when it runs; its grant stays counted and the count is not given back |
| SchedulerRuns.ReadyIsFair | interfaces_and_implementations_book/20_threads/thread.c:106-151 | while a ready thread is neither alerted nor run there are no more switches than there were threads in front of it; alerting a ready thread sends it to the end |
| SchedulerRuns.WaitView | interfaces_and_implementations_book/20_threads/thread.c:406-417 | Sem_wait does to count and queue what module Semaphores, used for channels, says, and passes at once or blocks and switches as its flag says |
| SchedulerRuns.SignalView | interfaces_and_implementations_book/20_threads/thread.c:394-403 | the same for Sem_signal |
| SchedulerCalls.AlertBetweenRaises | interfaces_and_implementations_book/20_threads/thread.c:154-159 | raising uses an alert up: between two raises of a thread there is an alert of it |
| SchedulerCalls.RaisesAtMostAlerts | interfaces_and_implementations_book/20_threads/thread.c:154-175 | so in every run a thread raises no more often than it is alerted |
| SchedulerCalls.NextTestRaises | interfaces_and_implementations_book/20_threads/thread.c:154-175 | no alert is lost: the next Thread_join or Sem_wait of the alerted thread, or the one it is blocked in, raises |
| SchedulerCalls.UnalertedWaitPasses | interfaces_and_implementations_book/20_threads/thread.c:154-159 | having raised, a thread that is not alerted anew takes the token that is there |
| SchedulerCalls.AlertMovesToReady | interfaces_and_implementations_book/20_threads/thread.c:166-175 | an alerted thread goes from wherever it is to the end of ready, no other thread moves |
| SchedulerCalls.WaitOutcome | interfaces_and_implementations_book/20_threads/thread.c:406-417 | a Sem_wait that does not raise passes, changing only the count, exactly when that is positive; otherwise the caller waits at the end of the queue and does not run |
| SchedulerCalls.CountSinceInit | interfaces_and_implementations_book/20_threads/thread.c:377-417 | in every run the count of a semaphore is what Sem_init was given, plus the signals, minus the tokens given out since; if that was no less than zero the count stays so, and is zero while anybody waits |
| SchedulerCalls.FirstWaitsPass | interfaces_and_implementations_book/20_threads/thread.c:377-417 | while nobody signals a semaphore made with n tokens the first n calls of Sem_wait on it pass at once and every further one blocks |
| SchedulerCalls.JoinWaits | interfaces_and_implementations_book/20_threads/thread.c:235-246 | until the caller of Thread_join(t) on a live t runs again t has called Thread_exit or the caller has been alerted |
| SchedulerCalls.JoinAllWaits | interfaces_and_implementations_book/20_threads/thread.c:248-258 | until the caller of Thread_join(NULL) runs again it has been the only thread, or alerted |
| SchedulerCalls.JoinOfGone | interfaces_and_implementations_book/20_threads/thread.c:235-246 | Thread_join of a thread that has exited returns at once |
| SchedulerCalls.TakeTurns | interfaces_and_implementations_book/20_threads/thread.c:353-358 | threads that only pause, or are interrupted, take turns for ever in the same order |
| SchedulerCalls.NewIsLast | interfaces_and_implementations_book/20_threads/thread.c:262-350 | a new thread never was one before and is the last that is ready |
| SchedulerCalls.NewcomerRuns | interfaces_and_implementations_book/20_threads/thread.c:262-350 | unless it is alerted first it runs at the latest after as many switches as threads were ready |
| SchedulerCalls.LastExitEnds | interfaces_and_implementations_book/20_threads/thread.c:177-202 | Thread_exit takes just its caller away, and ends the program, with its code, exactly when that was the last thread |
| SchedulerCalls.FreedByTheNext | interfaces_and_implementations_book/20_threads/thread.c:131-183 | a thread that leaves stays on the free list until the next Thread_new or Thread_exit and not longer; the root is never on it |
| Spin.TakeGood | interfaces_and_implementations_book/20_threads/critical_regions/spin.c:26-36 | every step of main and the workers, and every interrupt, keeps the lock and the sum right |
| Spin.MutualExclusion | interfaces_and_implementations_book/20_threads/critical_regions/spin.c:30-33 | at most one thread is between LOCK and END_LOCK |
| Spin.NoLostUpdate | interfaces_and_implementations_book/20_threads/critical_regions/spin.c:32 | what a worker loaded under the lock is still the counter when it stores |
| Spin.NeverStuck | interfaces_and_implementations_book/20_threads/critical_regions/spin.c:73-90 | until the program has ended the running thread can take its next step: run() never finds ready empty |
| Spin.JoinedCount | interfaces_and_implementations_book/20_threads/critical_regions/spin.c:80-86 | when Thread_join(NULL) returns the counter is bumps times workers, and that is what is printed |
| Spin.EveryScheduleCounts | interfaces_and_implementations_book/20_threads/critical_regions/spin.c:26-90 | total correctness over all schedules: no run has more than workers * (5 * bumps + 2) + 5 steps of the program's own, and a run in which the program cannot go on has ended and printed the one right number |
| Spin.EndInReach | interfaces_and_implementations_book/20_threads/critical_regions/spin.c:26-90 | from wherever interrupts have led, the program's own steps lead to that end: interrupts can delay it but not prevent it |
| CheckingAllocator.Heap.Find | interfaces_and_implementations_book/5_memory_management/memchk.c:40-47 | find yields a descriptor of ptr exactly when ptr has ever been returned |
| CheckingAllocator.Heap.Alloc | interfaces_and_implementations_book/5_memory_management/memchk.c:72-117 | Mem_alloc ends, passing the sentinel at most once; the address is one never returned before; the last n bytes of the first free block larger than n are taken, which gets that much smaller, or of a new block exactly when there is none, the rest of which is then the first free block; all other free blocks stay as they are, in order |
| CheckingAllocator.Heap.Free | interfaces_and_implementations_book/5_memory_management/memchk.c:119-130 | Mem_free raises exactly on a non-null pointer that is not allocated, and otherwise retires just that one, which is then the first free block |
| CheckingAllocator.Heap.Resize | interfaces_and_implementations_book/5_memory_management/memchk.c:132-148 | Mem_resize raises exactly on pointers not allocated; else the first min(new, old) bytes are preserved, the old address is retired and first to be reused, no other live block changes, and the new one comes from where Mem_alloc takes it |
| CheckingAllocator.CarveHistory | interfaces_and_implementations_book/5_memory_management/memchk.c:81-90 | because the fit is strict the carved address is new for the whole history |
| CheckingAllocator.CarvePartition | interfaces_and_implementations_book/5_memory_management/memchk.c:84-86 | carving keeps free and allocated blocks a partition of the memory from malloc |
| CheckingAllocator.CarveBlocks | interfaces_and_implementations_book/5_memory_management/memchk.c:81-86 | carving keeps all bases and sizes aligned and positive and all blocks apart |
| CheckingAllocator.RefillBlocks | interfaces_and_implementations_book/5_memory_management/memchk.c:103-111 | a block from malloc extends the partition |
| CheckingAllocator.FreeLists | interfaces_and_implementations_book/5_memory_management/memchk.c:127-128 | freeing moves a descriptor to the front of the free list and leaves the hash chains alone |
| CheckingAllocator.FoundIsReturned | interfaces_and_implementations_book/5_memory_management/memchk.c:40-47 | a chain search succeeds exactly for addresses ever returned |
| CheckingAllocator.LookupIsLive | interfaces_and_implementations_book/5_memory_management/memchk.c:123-125 | the three tests together decide whether a pointer is allocated |
| CheckingAllocator.LiveApart | interfaces_and_implementations_book/5_memory_management/memchk.c:27-36 | live blocks are aligned and pairwise apart |
| CheckingAllocator.LiveInChunks | interfaces_and_implementations_book/5_memory_management/memchk.c:27-36 | every byte of a live block came from malloc |
| CheckingAllocator.CopyLeavesOthers | interfaces_and_implementations_book/5_memory_management/memchk.c:144 | the copy of Mem_resize changes no other live block |
| ArenaAllocator.Arenas.New | interfaces_and_implementations_book/6_more_memory_management/arena.c:184-193 | a new arena is empty and touches no other |
| ArenaAllocator.Arenas.Allocate | interfaces_and_implementations_book/6_more_memory_management/arena.c:80-117 | Arena_alloc yields the first bytes left in the newest chunk when the request fits there; otherwise the first bytes of the first free chunk with room, those before it going to the arena; and when no free chunk has room those of a new one, 10K larger, all free chunks going to the arena. The space is aligned and fresh, and just that much is used up |
| ArenaAllocator.Arenas.Provide | interfaces_and_implementations_book/6_more_memory_management/arena.c:87-113 | ... the loop, which ends even when recycled chunks are too small: the newest chunk is made one with room |
| ArenaAllocator.FirstTaken | interfaces_and_implementations_book/6_more_memory_management/arena.c:87-97 | ... it stops at the first free chunk with room |
| ArenaAllocator.Arenas.Bump | interfaces_and_implementations_book/6_more_memory_management/arena.c:115-116 | ... what is left in the newest chunk shrinks by just the allocation |
| ArenaAllocator.Arenas.Pop | interfaces_and_implementations_book/6_more_memory_management/arena.c:159-171 | one chunk goes to the free list while that has room and to the system otherwise, and the arena says again what it said before that chunk |
| ArenaAllocator.Arenas.Free | interfaces_and_implementations_book/6_more_memory_management/arena.c:156-175 | all chunks and allocations of the arena are gone and the two final assertions hold; its newest chunks are in front of the free list, as many as it had room for, and the others are given back |
| ArenaAllocator.Arenas.Dispose | interfaces_and_implementations_book/6_more_memory_management/arena.c:143-148 | the arena and just its allocations are gone |
| ArenaAllocator.AllocationsAreSafe | interfaces_and_implementations_book/6_more_memory_management/arena.c:80-175 | in every state allocations are aligned, inside a chunk in use past its header, and pairwise apart; every chunk is on one arena's chain or on the free list; nfree is the length of the free list and at most 10 |
| ArenaAllocator.BumpAllocs | interfaces_and_implementations_book/6_more_memory_management/arena.c:115-116 | a new allocation overlaps no other of any arena |
| ArenaAllocator.PushAllocs | interfaces_and_implementations_book/6_more_memory_management/arena.c:109-112 | pushing a chunk leaves all allocations in place |
| ArenaAllocator.PopOwn | interfaces_and_implementations_book/6_more_memory_management/arena.c:159-171 | popping a chunk restores the arena's chain |
| Exceptions.Simulates | interfaces_and_implementations_book/4_exceptions_and_assertions/except.h:44-79 | the code the macros expand to, run with frames, flags, setjmp and longjmp, leads exactly where the structured meaning says, through states in which Except_stack never leads to a dead frame |
| Exceptions.Guards | interfaces_and_implementations_book/4_exceptions_and_assertions/except.h:48-66 | ... for the body and the EXCEPT and ELSE sections |
| Exceptions.Finishes | interfaces_and_implementations_book/4_exceptions_and_assertions/except.h:68-79 | ... for FINALLY and END_TRY |
| Exceptions.BodyThrown | interfaces_and_implementations_book/4_exceptions_and_assertions/except.c:28-35 | Except_raise fills the top frame, pops it and goes back to its setjmp |
| Exceptions.StackIsRestored | interfaces_and_implementations_book/4_exceptions_and_assertions/except.h:44-79 | on leaving a statement Except_stack is what it was on entry, or, when an outer TRY receives the exception, what it was when that TRY was entered |
| Exceptions.ProgramsRun | interfaces_and_implementations_book/4_exceptions_and_assertions/except.c:10-36 | a whole program emits what its meaning says and ends normally or is aborted by the uncaught exception |
| Exceptions.FirstFitRuns | interfaces_and_implementations_book/4_exceptions_and_assertions/except.h:56-66 | of the sections the first that fits the exception runs, once |
| Exceptions.NoneFits | interfaces_and_implementations_book/4_exceptions_and_assertions/except.h:75-79 | when no section fits none runs, and the exception goes on |
| Exceptions.FinallyComesLast | interfaces_and_implementations_book/4_exceptions_and_assertions/except.h:68-79 | against the same TRY without it, any FINALLY section comes last; an unmatched exception goes on after it unchanged, its own exception takes precedence, and it does not run when a handler raises |
| Exceptions.FinallyRunsOnce | interfaces_and_implementations_book/4_exceptions_and_assertions/except.h:68-79 | a FINALLY section that is one emission, which nothing else makes, emits it once and last, unless a handler raises |
| Exceptions.TryMeans | interfaces_and_implementations_book/4_exceptions_and_assertions/except.h:44-79 | a TRY is its body unless that raises and a section fits; then that section comes after the body, and how it ends is how the TRY ends |
| Exceptions.ReraisePassesOn | interfaces_and_implementations_book/4_exceptions_and_assertions/except.h:45 | a handler that ends with RERAISE passes on exactly what the body raised, file and line included, its emissions behind those of the body; nothing behind RERAISE is run |
| Exceptions.ReraiseRuns | interfaces_and_implementations_book/4_exceptions_and_assertions/except.h:45 | ... in the expanded code: the enclosing frame receives that exception, or the program is aborted by it |
| Exceptions.UncaughtAborts | interfaces_and_implementations_book/4_exceptions_and_assertions/except.c:10-36 | a program that emits, raises and has no TRY around is aborted by that exception, having emitted just that, in order; nothing behind RAISE is run |
| Exceptions.CaughtGoesOn | interfaces_and_implementations_book/4_exceptions_and_assertions/except.h:44-79 | raised in a TRY it is followed by the emissions of the first section that fits, and the program ends normally, or, with RERAISE behind those, is aborted by the exception first raised |
| Rings.Ring.Find | interfaces_and_implementations_book/12_rings/ring.c:164-174 | walking right i or left length - i, whichever is shorter, ends at node i |
| Rings.Ring.Get | interfaces_and_implementations_book/12_rings/ring.c:159-176 | the ith value |
| Rings.Ring.Put | interfaces_and_implementations_book/12_rings/ring.c:213-234 | the ith value is replaced and nothing else |
| Rings.Ring.Add | interfaces_and_implementations_book/12_rings/ring.c:53-88 | signed positions insert at the index they name |
| Rings.Ring.AddHi | interfaces_and_implementations_book/12_rings/ring.c:99-115 | append |
| Rings.Ring.AddLo | interfaces_and_implementations_book/12_rings/ring.c:126-131 | prepend |
| Rings.Ring.RemHi | interfaces_and_implementations_book/12_rings/ring.c:244-260 | the last value is removed |
| Rings.Ring.RemLo | interfaces_and_implementations_book/12_rings/ring.c:269-275 | the first value is removed |
| Rings.Ring.Remove | interfaces_and_implementations_book/12_rings/ring.c:287-318 | the ith value is removed |
| Rings.Ring.Rotate | interfaces_and_implementations_book/12_rings/ring.c:359-383 | on a ring that is not empty index i then holds what index i + n held, modulo the length |
| Rings.Inserted | interfaces_and_implementations_book/12_rings/ring.c:77-83 | llink and rlink stay inverse on one cycle when a node is inserted |
| Rings.Removed | interfaces_and_implementations_book/12_rings/ring.c:310-312 | ... and when one is deleted |
| Rings.CycleFrom | interfaces_and_implementations_book/12_rings/ring.c:382 | a cycle is a cycle from each of its nodes |
| Rings.TurnedTwice | interfaces_and_implementations_book/12_rings/ring.c:359-383 | rotations compose additively modulo the length |
| Rings.TurnedBack | interfaces_and_implementations_book/12_rings/ring.c:359-383 | rotating by n and then by -n, or by the length, changes nothing |
| Rings.TurnedBlocks | interfaces_and_implementations_book/12_rings/ring.c:365-368 | rotating by n moves the first n modulo length values to the end |
| Sequences.Sequence.Expand | interfaces_and_implementations_book/11_sequences/seq.c:44-55 | doubling keeps the sequence of values across the wrap |
| Sequences.Sequence.Resize | interfaces_and_implementations_book/10_dynamic_arrays/array.c:161-172 | Array_resize keeps as many of the old elements as there is room for |
| Sequences.Sequence.AddHi | interfaces_and_implementations_book/11_sequences/seq.c:70-81 | append, growing when full |
| Sequences.Sequence.AddLo | interfaces_and_implementations_book/11_sequences/seq.c:93-107 | prepend, growing when full |
| Sequences.Sequence.Get | interfaces_and_implementations_book/11_sequences/seq.c:129-135 | the ith value |
| Sequences.Sequence.Put | interfaces_and_implementations_book/11_sequences/seq.c:177-189 | the ith value is replaced and nothing else |
| Sequences.Sequence.RemHi | interfaces_and_implementations_book/11_sequences/seq.c:199-208 | the last value is removed |
| Sequences.Sequence.RemLo | interfaces_and_implementations_book/11_sequences/seq.c:219-232 | the first value is removed |
| Sequences.DoubledUnrolls | interfaces_and_implementations_book/11_sequences/seq.c:47-53 | with the tail slid down the doubled buffer unrolls to the same values |
| Sequences.LowerUnrolls | interfaces_and_implementations_book/11_sequences/seq.c:100-106 | a value stored below head, around the end of the buffer, is in front |
| Sequences.PlacesDiffer | interfaces_and_implementations_book/11_sequences/seq.c:134 | different indices live in different places |
| Atoms.AtomTable.New | interfaces_and_implementations_book/3_atoms/atom.c:153-190 | the atom of a byte sequence, zero bytes included, is the old one if there is one and new otherwise; no other atom changes |
| Atoms.AtomTable.Find | interfaces_and_implementations_book/3_atoms/atom.c:167-175 | the chain search finds the atom of the bytes exactly when there is one |
| Atoms.AtomTable.Int | interfaces_and_implementations_book/3_atoms/atom.c:117-139 | Atom_int interns the decimal text of every long, LONG_MIN included |
| Atoms.AtomTable.String | interfaces_and_implementations_book/3_atoms/atom.c:106-109 | Atom_string interns the bytes before the first null character and nothing else |
| Atoms.AtomTable.Length | interfaces_and_implementations_book/3_atoms/atom.c:198-212 | the search ends at the atom, with the original length |
| Atoms.SameText | interfaces_and_implementations_book/3_atoms/atom.c:153-190 | two atoms of one table are the same pointer exactly when their bytes are equal |
| Atoms.IntAtoms | interfaces_and_implementations_book/3_atoms/atom.c:117-139 | the atoms of two integers are the same exactly when the integers are |
| Atoms.Added | interfaces_and_implementations_book/3_atoms/atom.c:178-186 | a new entry in front of its chain keeps the table in order |
| Atoms.WidthDoesNotMatter | interfaces_and_implementations_book/3_atoms/atom.c:161-165 | the chain chosen does not depend on the width of unsigned long |
| Atoms.HashGrows | interfaces_and_implementations_book/3_atoms/atom.c:161-165 | one more byte doubles the hash value and adds what is scattered for it, modulo the 2048 chains |
| Numerals.Fill | interfaces_and_implementations_book/14_formatting/fmt.c:104-106 | the digit loop writes the numeral, and 43 characters are enough |
| Numerals.ReadNumeral | interfaces_and_implementations_book/14_formatting/fmt.c:104-106 | reading a numeral back gives the number; no superfluous zeros |
| Formats.PutD | interfaces_and_implementations_book/14_formatting/fmt.c:309-387 | Fmt_putd emits sign and digits laid out as flags, width and precision, as passed, ask for; a negative width sets the flag '-' and a precision clears '0', and no other flag changes |
| Formats.FieldLaidOut | interfaces_and_implementations_book/14_formatting/fmt.c:317-384 | what is emitted, in terms of flags, width and precision as passed: with '-' or a negative width the padding is spaces behind the digits; else with '0' and no precision it is zeros behind the sign; else spaces in front |
| Formats.SpacesAreWhereAsked | interfaces_and_implementations_book/14_formatting/fmt.c:317-384 | read from the text: left-justified it begins with sign or digit and spaces come only behind; otherwise it ends with the last digit and spaces come only in front, none with '0' and no precision |
| Formats.DecimalSign | interfaces_and_implementations_book/14_formatting/fmt.c:331-338 | the sign shown is '-' for a negative value, '+' for another exactly with the '+' flag |
| Formats.FieldLength | interfaces_and_implementations_book/14_formatting/fmt.c:340-386 | the length of a field is the larger of width and sign plus digits; with precision 0 and text 0 the padding reckons with no digit, and one is emitted |
| Formats.NumeralLength | interfaces_and_implementations_book/14_formatting/fmt.c:340-386 | the length of a field in terms of the number, the width asked for and the precision |
| Formats.KeepsWidthExactly | interfaces_and_implementations_book/14_formatting/fmt.c:340-386 | the length is the larger of the width and of sign plus digits if and only if it is not the case that precision and number are 0 and the width exceeds the sign; otherwise it is one more |
| Formats.WidthExceeded | interfaces_and_implementations_book/14_formatting/fmt.c:340-386 | %1.0d of 0 emits two characters |
| Formats.SignedReadsBack | interfaces_and_implementations_book/14_formatting/fmt.c:88-112 | reading back what %d emits gives the value for every int, flags, width and precision |
| Formats.UnsignedReadsBack | interfaces_and_implementations_book/14_formatting/fmt.c:156-210 | the same for %o, %u and %x |
| Formats.CvtD | interfaces_and_implementations_book/14_formatting/fmt.c:88-112 | cvt_d emits the field of the decimal text, INT_MIN included; it reads back as the value, is laid out as the flags passed ask for, and its length is the larger of width and sign plus digits, but one more when precision and value are 0 and the width exceeds the sign |
| Formats.CvtU | interfaces_and_implementations_book/14_formatting/fmt.c:156-210 | cvt_o, cvt_u and cvt_x emit the field of the numeral in their radix, which reads back as the number, is laid out as asked for and has the length just said |
| Formats.Buf.Insert | interfaces_and_implementations_book/14_formatting/fmt.c:259-267 | insert raises exactly when the buffer is full, and appends otherwise |
| Formats.Buf.Append | interfaces_and_implementations_book/14_formatting/fmt.c:245-256 | append always appends, doubling the buffer when it is full |
| Formats.VSFmt | interfaces_and_implementations_book/14_formatting/fmt.c:526-538 | Fmt_Overflow is raised exactly when text and null character do not fit; nothing is written past size |
| Formats.VString | interfaces_and_implementations_book/14_formatting/fmt.c:541-551 | the growing sink yields the same null-ended text in a buffer of its exact size |
| HashSets.HashSet.constructor | interfaces_and_implementations_book/9_sets/set.c:299-323 | Set_new picks the largest of its bucket counts below hint, or 509, and makes an empty set |
| HashSets.HashSet.Search | interfaces_and_implementations_book/9_sets/set.c:339-342 | the one chain searched holds the member if any does |
| HashSets.HashSet.Member | interfaces_and_implementations_book/9_sets/set.c:241-254 | membership up to cmp |
| HashSets.HashSet.Put | interfaces_and_implementations_book/9_sets/set.c:332-357 | x takes the place of an equivalent member or is added; the length grows only then |
| HashSets.HashSet.Remove | interfaces_and_implementations_book/9_sets/set.c:368-387 | the equivalent member is removed and returned, or nothing changes |
| HashSets.HashSet.Add | interfaces_and_implementations_book/9_sets/set.c:106-116 | adding without a duplicate check keeps the set in order when there is no equivalent |
| HashSets.HashSet.AddThose | interfaces_and_implementations_book/9_sets/set.c:266-285 | the loop of Set_minus, Set_inter and Set_diff adds exactly the wanted members, each once |
| HashSets.Copy | interfaces_and_implementations_book/9_sets/set.c:46-72 | a copy with another bucket count has the same members |
| HashSets.Minus | interfaces_and_implementations_book/9_sets/set.c:257-288 | the members of t not in s up to cmp; operands unchanged |
| HashSets.Inter | interfaces_and_implementations_book/9_sets/set.c:163-196 | the members of the smaller operand that are in the other up to cmp |
| HashSets.Diff | interfaces_and_implementations_book/9_sets/set.c:91-139 | what is in exactly one of the operands up to cmp |
| HashSets.Union | interfaces_and_implementations_book/9_sets/set.c:416-435 | the members of t and those of s not in t up to cmp |
| HashSets.Memberships | interfaces_and_implementations_book/9_sets/set.c:91-435 | up to cmp the four results have the members union, intersection, difference and symmetric difference promise |
| HashSets.WhoseMembers | interfaces_and_implementations_book/9_sets/set.c:91-435 | of equivalent members a union keeps those of t; the members of the other results come from the operand whose loop adds them |
| HashSets.SameSize | interfaces_and_implementations_book/9_sets/set.c:205-208 | sets with the same members up to cmp have the same length: length is the cardinality |
| HashSets.Sizes | interfaces_and_implementations_book/9_sets/set.c:91-435 | the lengths of union, intersection and symmetric difference fit together |
| HashSets.Representatives | interfaces_and_implementations_book/9_sets/set.c:339-342 | no two members of a table are equivalent |
| HashSets.OneChain | interfaces_and_implementations_book/9_sets/set.c:248-251 | looking in one chain decides membership |
| HashSets.AtomsRespect | interfaces_and_implementations_book/9_sets/set.c:41-83 | the default cmpatom and hashatom meet what is asked of a client |

## Left out

- Scheduler.StepInv: queues are sequences and thread handles are never reused; that the circular lists behave as sequences is proved in `ThreadQueues`; that the address of a freed thread can be given to a new one is not modelled, and neither are the constant results -1 and 0 of Thread_join.
- Channel.StepInv: alerts are left out in the channel, sieve, sort and spin models; they are in `Scheduler`.
- Sieve.StepInv: the counter is an unbounded integer here; `SieveProgram` has the ints. What `main` does before and after it creates the first two threads is not modelled.
- SieveProgram.StepInv: semaphores are those of module `Semaphores`; any thread that is not blocked may run next, whatever order `Scheduler` would choose.
- ConcurrentSort.StepInv: creating and joining threads is modelled as such, not through `Scheduler`.
- CheckingAllocator.Heap.Alloc: descriptors are entries of a growing pool rather than heap objects, so the batches of 512 in dalloc, file and line fields, and malloc failing are not modelled; the address malloc gives is a parameter.
- ArenaAllocator.Arenas.Allocate: arenas and chunk headers are records of one table and pointers are indices; malloc failing is not modelled, and the address it gives is a parameter.
- Exceptions.Simulates: RETURN inside TRY, RERAISE outside a handler, and what Except_raise prints before it aborts are not modelled.
- HashSets.HashSet.Put: chains are sequences, so the links of a chain are not modelled; Set_map, Set_toArray and Set_free add only easy members.
- Atoms.AtomTable.New: the scatter table is any 256 numbers; memory never runs out.
- Sequences.Sequence.AddHi: lengths are unbounded integers; Seq_seq and Seq_free are left out.
- Rings.Ring.Rotate: Ring_ring and Ring_free are left out.
- Formats.PutD: put is the sequence of characters it is given; the directive scanner of Fmt_vfmt (whose precision part scans no digits), %c, %s, %f and %p are left out.
- Spin.EveryScheduleCounts: the unlocked half of main, which promises nothing, is left out.
- swtch.s, the initial stacks, signal and timer setup: a switch changes who is current, and an interrupt may come between any two steps outside thread.c.
- table.c, list.c, stack.c, arith.c, mem.c and most of array.c: they would only add easy members.
- double.c, wf.c, xref.c, getword.c and the UDP programs: input and output.
- Arena_calloc and Mem_calloc: an allocation followed by a fill.
