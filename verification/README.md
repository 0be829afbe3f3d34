# Shared-memory labs of qnx-box

This project models the concurrency labs of qnx-box as step systems and proves what
holds of them over every interleaving, for any number of threads and updates.  One
module models a mutex with its condition variable; each lab builds its threads on it.

| modules | program | what it is |
|---|---|---|
| Counter, MutexCounter | labs 14 and 10 | N threads that increment one counter U times: split, atomic, locked |
| TripleCounter | lab 11 | three 32-bit counters kept in step under one lock |
| BumpAllocator, BumpTiling, BumpSharing, BumpOutcome, BumpSpill | lab 12 | a bump allocator whose chunks are incremented outside the lock |
| Baton | lab 17 | four threads that pass a baton by condition variable and a parity counter |
| DriverProtocol, DriverQueue | lab 15 | a linked list between a data provider and a hardware handler |
| Handshake | lab 16 | a producer and a consumer on one condition variable |
| DecimalText, Publisher, PublisherProgress | lab 23 | a versioned text in shared memory, one writer, any number of readers |
| EventServer | lab 22 | notification delivery shared by a receive loop and a notifier thread |
| ShmServer | lab 24 | a shared-memory session server |
| ParallelMap | lab 09 | an array doubled by threads on disjoint stretches |
| Runs, Sums, Monitors | | runs of step systems, sums over threads, mutex with condition variable |

## How to read it

Each lab has a datatype `State` and a total function `Step(state, action)`.  An action
names the thread that moves, with the choices the environment makes for it; an action
that is not enabled leaves the state as it is.  `Runs.Exec` folds a schedule, so a lemma
about every schedule is a lemma about every interleaving.  A thread's program counter
stands at one lock, unlock, wait, signal or broadcast call, or one load or store of a
shared variable.  Beside each step system stands a class that holds the globals of the
program; its methods take one step in place and ensure that the state they leave is
the one `Step` gives, so every lemma about `Step` is about the class as well.

Fields described as a log, or as not being a variable of the program, are history: they
decide nothing the program does.  (In ShmServer they are the kernel's side, which decides
what munmap takes away.)

## Assumptions

- Memory is sequentially consistent, one load or store a step; the rule of C that a data
  race is undefined is set aside for the modes without lock or atomics.
- pthread_cond_wait releases the mutex and falls asleep in one step and takes the mutex
  again on waking; wakeups nobody sent are allowed; a signal takes one sleeper when there
  is one, a broadcast takes all (pthread_cond_wait and pthread_cond_broadcast pages of the
  System Interfaces volume of POSIX.1-2017).
- The flag `running` is read in one step.  Library calls the programs treat as fatal
  when they fail either succeed or end the process.
- Some accesses made under the mutex are one step where the invariants show that no other
  thread can be inside: the increments `++counter` (lab 17), `++product` (lab 16) and
  `++ptr->data` (lab 23), and the operations on a list, a buffer or a copy.
- Receive ids and connection ids are never zero.  Thread counts, update counts and chunk
  counts are parameters instead of the `#define`s; `int` values are taken within range
  unless a lemma says how wrapping is modelled (8-bit cells, 32-bit counters and sums,
  64-bit versions).
- Lab 12: thread count, array size, bytes per thread and chunk size are independent
  parameters; with the constants of the source each of 4 threads takes 10 chunks of 25
  bytes, which is exactly the array of 1000.  (The same formulas with 3 threads give
  11 chunks of 33 bytes each, more than the array has room for; BumpOutcome.SourceSizes
  and BumpSpill.SourceSizesSpill say what then happens.)  A failed allocation ends
  the process; the model stops the thread and lets the others go on, so a run of the
  program is the part of a modelled run before its first failure.  The header of the file
  says that the mutex protects the updates of the array; the code increments outside
  the mutex, and takes none by default.  The model follows the code.

## Model

| member | source | states |
|---|---|---|
| Counter.FinalValues | src/14.lab_atomic.c:73-83 | for every number of threads N and updates U, the values a complete interleaving of the split load and store can end with are exactly Least(N,U) .. N*U, both directions: for N, U >= 2 every value from 2 to N*U and no other |
| Counter.FinalInRange | src/14.lab_atomic.c:50-61 | no complete interleaving ends below Least(N,U) or above N*U |
| Counter.Witness | src/14.lab_atomic.c:73-83 | for every value of that range, a schedule that ends with it (how many loads go stale under 0 and under 1) |
| Counter.NeverAboveTotal | src/14.lab_atomic.c:79-81 | at every moment of every interleaving the counter is between 0 and N*U, so an int that holds N*U never overflows |
| Counter.SplitInvStep | src/14.lab_atomic.c:78-82 | one load or store keeps: value at most the completed stores, at least 1 after any store, at least 2 unless some thread has made at most one store; a lone thread loses nothing |
| Counter.LoseUnderZero | src/14.lab_atomic.c:79-81 | thread 0 can store 1 over any number a <= U of increments of thread 1 |
| Counter.LoseUnderOne | src/14.lab_atomic.c:79-81 | a second stale store, under 1, loses any b increments the other threads still have |
| Counter.ExactTotal | src/14.lab_atomic.c:73-83 | a complete split run ends at N*U if and only if every store of it finds the counter equal to the value it loaded |
| Counter.BehindStep | src/14.lab_atomic.c:78-82 | once an increment is lost the counter stays below the number of stores, whatever comes |
| Counter.AtomicExact | src/14.lab_atomic.c:74-77 | with the fetch-add the counter is the number of increments made at every moment, and N*U at the end |
| Counter.SplitRunsEnd | src/14.lab_atomic.c:70-85 | a run of the split form in which every step moves has at most 2U steps for each thread |
| Counter.AtomicRunsEnd | src/14.lab_atomic.c:70-85 | and of the atomic form no more |
| Counter.RestIsComplete | src/14.lab_atomic.c:50-61 | where no thread can move, in either form, all have made their U increments |
| Counter.AtomicLab.ThreadWork | src/14.lab_atomic.c:70-85 | the next shared access of a thread, on the counter of the chosen mode, and the other counter untouched |
| Counter.QnxLabAtomic | src/14.lab_atomic.c:22-68 | the main function under any interleaving that lets all threads finish: atomic mode returns N*U and no error, the other mode a value in the range; the error is reported exactly when the value is not U*N, which is when some split store was over a counter that had changed since its load |
| MutexCounter.RefinesAtomic | src/10.lab_mutex.c:71-97 | every interleaving of lock, load, store, unlock ends where a run of the atomic counter does, namely that of its stores taken as fetch-adds in their order |
| MutexCounter.RefinesAtomicStepForStep | src/10.lab_mutex.c:71-97 | and step for step: after every prefix of the schedule the two agree, and the fetch-adds matched so far are a prefix of those of the whole run |
| MutexCounter.StepRefines | src/10.lab_mutex.c:75-95 | one step keeps mutual exclusion and the loaded value current, and is a fetch-add when it is the store, invisible otherwise |
| MutexCounter.RealisesAtomic | src/10.lab_mutex.c:75-95 | conversely every run of the atomic counter is realised by a locked one |
| MutexCounter.LockedExact | src/10.lab_mutex.c:75-95 | the counter equals the finished stores in every interleaving and N*U when all threads have ended |
| MutexCounter.RunsEnd | src/10.lab_mutex.c:71-97 | a run in which every step moves has at most 4U steps for each thread |
| MutexCounter.RestIsComplete | src/10.lab_mutex.c:71-97 | where no thread can move all have ended, with the counter at N*U: nobody waits for the mutex for ever |
| MutexCounter.MutexLab.ThreadWork | src/10.lab_mutex.c:71-97 | the next call or access of a thread |
| TripleCounter.InStep | src/11.lab_assignment_2.c:138-168 | for any number of threads and every interleaving: whenever the mutex is free var1 = var2 = var3 = completed passes mod 2^32, and no thread is ever in the repair branch |
| TripleCounter.StoresAreUnsigned | src/11.lab_assignment_2.c:148-159 | in every run each store puts the loaded value plus 1, plus 2 or minus 1 modulo 2^32, the unsigned arithmetic of uint32_t |
| TripleCounter.StepInside | src/11.lab_assignment_2.c:148-159 | each load and store inside the critical section moves the three variables as far ahead of the completed passes as its place in the code says, modulo 2^32 |
| TripleCounter.StepKeepsInv | src/11.lab_assignment_2.c:138-168 | every step of every thread and the clearing of the loop keep this and mutual exclusion |
| TripleCounter.Quiescence | src/11.lab_assignment_2.c:138-171 | while `done` is clear no thread has left its loop and some thread can move; no thread can move exactly when `done` is set and all have left |
| TripleCounter.DoneExactly | src/11.lab_assignment_2.c:101-102 | `done` is set exactly from when the main thread sets it |
| TripleCounter.StepsNeedProgress | src/11.lab_assignment_2.c:138-168 | in any stretch of moving steps these are at most the fuel at its start, 18 for each thread, and 18 for each pass completed |
| TripleCounter.OneMorePassEach | src/11.lab_assignment_2.c:101-102 | once `done` is set each thread completes at most the pass it is in |
| TripleCounter.ShutdownTerminates | src/11.lab_assignment_2.c:101-110 | the shutdown ends: at most one more pass and 36 moving steps for each thread |
| TripleCounter.AssignmentTwo.ThreadWork | src/11.lab_assignment_2.c:124-171 | the next call, load or store of a thread |
| TripleCounter.AssignmentTwo.SetDoneFlag | src/11.lab_assignment_2.c:101-102 | the main thread stops the loops |
| BumpAllocator.NoFailureInAnyMode | src/12.orange_problem.c:138-148 | with or without the mutex, when the array has room for the k chunks of size a of each of N threads: `allocated` is a multiple of a and at most a times the stores made to it, buff_alloc never returns NULL, and every chunk in use is inside the array |
| BumpAllocator.CellsBounded | src/12.orange_problem.c:129-132 | with or without the mutex no cell exceeds N*k, a bound not known to be reached beyond the first chunk, and no cell of the first chunk exceeds N; when N*k <= 127 (here 40) no cell wraps or goes negative |
| BumpAllocator.FirstCellReachesN | src/12.orange_problem.c:138-148 | without the mutex the bound of the first chunk is reached: for every N a schedule in which each of the N threads is given it and its first cell is incremented N times (as int8_t; so it is N for N <= 127) |
| BumpAllocator.FirstInvStep | src/12.orange_problem.c:138-148 | once a store was made `allocated` never goes back to 0, so a thread is given the first chunk in its first call or never |
| BumpAllocator.RangeInvStep | src/12.orange_problem.c:102-148 | every load and store of either mode keeps the range facts for all threads |
| BumpAllocator.RoomForOneMore | src/12.orange_problem.c:139-143 | as long as a thread has not made its store, a whole chunk fits above what the stores so far can have reached |
| BumpAllocator.StoredValueBound | src/12.orange_problem.c:129-132 | a value about to be stored into a cell has seen at most N*k - 1 increments |
| BumpAllocator.CellInvStep | src/12.orange_problem.c:129-132 | every step keeps each cell within the credit the workers have earned on it |
| BumpTiling.TiledAndIncrementedOnce | src/12.orange_problem.c:97-148 | with the mutex, and without it in runs where no thread fixes its chunk while another has fixed one and not yet moved `allocated`, when all threads have ended: N*k chunks, k for each thread, cover the array from its start to `allocated`, every cell there is exactly 1 and every other 0; for an array of N*k*a cells, as the constants give, that is the whole array |
| BumpSharing.OnceEachExactly | src/12.orange_problem.c:97-148 | in either mode a finished run has incremented each cell of the N*k chunks exactly once, and no other, if and only if in no step of it a thread fixes its chunk while another has fixed one and not yet moved `allocated` |
| BumpSharing.FullArrayExactly | src/12.orange_problem.c:21-28 | for the array of N*k*a cells that the constants give, without the mutex, which is the default: all cells are 1 if and only if the run is of that kind |
| BumpSharing.SharedLeavesOut | src/12.orange_problem.c:138-148 | a chunk handed out twice in a finished run means that another was never handed out |
| BumpSharing.OverlapShares | src/12.orange_problem.c:143-145 | fixing a chunk while another thread has fixed one gives both the same chunk |
| BumpTiling.AtMostOnce | src/12.orange_problem.c:129-132 | in those runs, and in every run of a lone thread, no cell is ever incremented twice |
| BumpTiling.LockedIsSolitary | src/12.orange_problem.c:104-120 | with the mutex every run is of that kind |
| BumpSpill.SpillsExactly | src/12.orange_problem.c:138-148 | some run works on a cell past the end of the array if and only if the mutex is not used, there are at least two threads, a chunk fits the array, and the array has no room for all chunks |
| BumpSpill.SpillingRun | src/12.orange_problem.c:138-148 | the run: one chunk is left, thread 0 passes the size test, thread 1 takes it, thread 0 takes the next |
| BumpSpill.NeverSpills | src/12.orange_problem.c:138-148 | with the mutex, with one thread, with chunks larger than the array or with room for all, no run does |
| BumpSpill.SourceSizesSpill | src/12.orange_problem.c:21-24 | with the constants of the source none of the runs of either mode does; with 3 threads in the same 1000 cells some run without the mutex does |
| BumpOutcome.OutcomeWithMutex | src/12.orange_problem.c:97-148 | with the mutex and an array of any size, where no thread can move any more: all threads have ended if and only if the array has room for all N*k chunks, and an allocation has failed if and only if it has not |
| BumpOutcome.FinishesInAnyMode | src/12.orange_problem.c:97-148 | with or without the mutex, when there is room, every run that comes to rest has finished all threads |
| BumpOutcome.RunsEnd | src/12.orange_problem.c:102-133 | in either mode and any array a run in which every step moves has at most N * (k * (9 + 2a) + 1) steps |
| BumpOutcome.GoesToRest | src/12.orange_problem.c:102-133 | and from every reachable state some run does come to rest |
| BumpOutcome.FuelStep | src/12.orange_problem.c:102-133 | each step that moves uses up one unit of that bound |
| BumpOutcome.FailsExactly | src/12.orange_problem.c:138-148 | in either mode buff_alloc returns NULL in some interleaving if and only if the array has no room for all chunks |
| BumpOutcome.TooSmallFails | src/12.orange_problem.c:138-148 | the failing schedule for each mode and each array that is too small |
| BumpOutcome.MutexRunsAreFreeRuns | src/12.orange_problem.c:104-122 | every run with the mutex is, the mutex erased, a run without it |
| BumpOutcome.SourceSizes | src/12.orange_problem.c:21-24 | with the constants of the source no allocation fails in any run of either mode; with 3 threads in the same 1000 cells one fails in every run that comes to rest under the mutex |
| BumpAllocator.RefusedExactly | src/12.orange_problem.c:139-141 | whatever the others do between its two tests a call returns NULL if and only if `allocated` was not below the size at the first or left no room for the chunk at the second |
| BumpAllocator.ChunksLess | src/12.orange_problem.c:102-122 | the loop asks for another chunk exactly while the thread has had fewer than work/a rounded up |
| BumpOutcome.GotInvStep | src/12.orange_problem.c:138-148 | with the mutex `allocated` is a times the chunks really given and never passes the end of an array of any size |
| BumpTiling.ChunksDisjoint | src/12.orange_problem.c:138-148 | in the same runs the j-th chunk handed out starts at j*a: the chunks never overlap and `allocated` ends the last |
| BumpTiling.ExclusiveChunks | src/12.orange_problem.c:112-132 | in the same runs two threads never work on the same chunk although the increments are outside the lock |
| BumpTiling.InvStep | src/12.orange_problem.c:97-148 | every step of that kind keeps: at most one thread about to move `allocated`, the log of chunks, and each cell 1 exactly when its worker has passed it |
| BumpTiling.ShareInvStep | src/12.orange_problem.c:102-133 | each thread has been handed as many chunks as it has finished allocator calls |
| BumpTiling.OrangeProblem.BuffAlloc | src/12.orange_problem.c:104-122 | one step of the allocator call with its optional lock and unlock |
| BumpTiling.OrangeProblem.ThreadWork | src/12.orange_problem.c:97-136 | one step of a worker, on the array in place |
| Baton.TraceIsScheduleIndependent | src/17.lab_state_machine.c:48-120 | the log of actions is the same for every schedule, a prefix of (s0 s1 s3 s0 s1 s2) repeated; it determines `state` and, when the mutex is free, `counter`; s2 acts on even counters only, s3 on odd ones |
| Baton.NoLostWakeup | src/17.lab_state_machine.c:50-61 | a thread asleep while it is its turn has another thread that still holds the mutex after its store, or owes the broadcast |
| Baton.NeverStuckWhileRunning | src/17.lab_state_machine.c:49-62 | while `running` is set some thread can take a step without a spurious wakeup |
| Baton.StepsNeedProgress | src/17.lab_state_machine.c:48-120 | in any stretch without spurious wakeups the steps are at most the fuel at its start plus 19 for each action made |
| Baton.Throughput | src/17.lab_state_machine.c:48-120 | from the start, every schedule of more than 21 + 19 m such steps contains more than m actions |
| Baton.AtMostOneMoreEach | src/17.lab_state_machine.c:34-40 | after `running` is cleared each thread makes at most one more action, four in all, on every schedule |
| Baton.ShutdownTerminates | src/17.lab_state_machine.c:34-40 | the shutdown phase ends: at most 152 more steps without spurious wakeups |
| Baton.Quiescence | src/17.lab_state_machine.c:34-40 | where shutdown comes to rest the mutex is free, each thread has exited or sleeps, and the thread whose number is `state` has exited, so nobody sleeps on a true condition |
| Baton.OneSleepsForEver | src/17.lab_state_machine.c:34-40 | a run that comes to rest with a sleeper: s1 sleeps until its turn, `running` is cleared and the others leave |
| Baton.InvStep | src/17.lab_state_machine.c:48-120 | every step of a thread, the clearing of `running` and a spurious wakeup keep mutual exclusion, the log and the wakeup promise |
| Baton.FuelStep | src/17.lab_state_machine.c:48-120 | each step uses fuel; only an action brings back at most 19 |
| Baton.StateMachineLab.StateThread | src/17.lab_state_machine.c:48-120 | the next call or access of state_zero to state_three |
| Baton.StateMachineLab.ClearRunning | src/17.lab_state_machine.c:34-35 | the main thread clears `running` |
| Baton.StateMachineLab.WakeSpuriously | src/17.lab_state_machine.c:52-54 | a wakeup nobody sent |
| DriverProtocol.FifoConservation | src/15.lab_hw_handler_condvar.c:56-80 | at every step of every run, items enqueued = items written ++ item in hand ++ list, in order |
| DriverProtocol.NothingStranded | src/15.lab_hw_handler_condvar.c:66-76 | whenever the mutex is free, also inside the drain loop, a non-empty list has data_ready = 1 |
| DriverProtocol.NoLostWakeup | src/15.lab_hw_handler_condvar.c:103-111 | while the handler sleeps on a raised flag or a non-empty list, the provider holds the mutex or still has to signal |
| DriverProtocol.AsleepMeansDrained | src/15.lab_hw_handler_condvar.c:59-77 | when the handler sleeps, the mutex is free and no signal is owed, everything enqueued has been written |
| DriverProtocol.HandlerComesToRest | src/15.lab_hw_handler_condvar.c:56-80 | alone, the handler takes at most 13 steps and four for each listed item before it sleeps, exits or waits for the mutex |
| DriverProtocol.Quiescence | src/15.lab_hw_handler_condvar.c:49-51 | where neither thread can step `running` is false, the provider has exited and the mutex is free; the handler has exited, or sleeps with data_ready = 0, an empty list and everything enqueued written |
| DriverProtocol.ShutdownTerminates | src/15.lab_hw_handler_condvar.c:49-51 | after `running` is cleared at most 102 steps without spurious wakeups are left, and four for each item then in the list |
| DriverProtocol.AllWrittenExactly | src/15.lab_hw_handler_condvar.c:49-111 | where a run has come to rest everything enqueued has been written if and only if in no step the handler leaves its loop with items in the list, or an item is added after it has left |
| DriverProtocol.SleepsAtRestExactly | src/15.lab_hw_handler_condvar.c:49-101 | where a run without spurious wakeups has come to rest the handler sleeps if and only if it has started to wait after the provider, with its last signal, had exited; otherwise it has exited |
| DriverProtocol.EnqueuedIsChosen | src/15.lab_hw_handler_condvar.c:87-92 | for each random number r drawn the provider tries to add r % 10 items, the i-th being (r % 10) * 100 + i, in order and before it draws again; enqueued are exactly those for which malloc does not fail |
| DriverProtocol.GoesOn | src/15.lab_hw_handler_condvar.c:56-111 | a thread that is not asleep and does not wait for the mutex goes on with every step |
| DriverProtocol.FlagRaised | src/15.lab_hw_handler_condvar.c:103-111 | data_ready is 1 when the provider leaves the mutex, also after a failed malloc |
| DriverProtocol.DrainsOnlyWhenDue | src/15.lab_hw_handler_condvar.c:62-64 | the handler leaves its wait loop only for a raised flag or because the program stops, whatever wakes it |
| DriverProtocol.ItemStranded | src/15.lab_hw_handler_condvar.c:49-111 | a run that comes to rest with an item in the list that is never written |
| DriverProtocol.HandlerSleepsForEver | src/15.lab_hw_handler_condvar.c:62-63 | a run that comes to rest with the handler asleep: the provider's last signal comes between its test and its wait |
| DriverProtocol.SomeThreadMoves | src/15.lab_hw_handler_condvar.c:56-101 | while `running` is set a thread can move without a spurious wakeup; afterwards none can exactly when the provider has exited, the mutex is free and the handler has exited or sleeps |
| DriverProtocol.LastStep | src/15.lab_hw_handler_condvar.c:56-111 | each step after `running` is cleared uses up one unit of that bound |
| DriverProtocol.ReadyInvStep | src/15.lab_hw_handler_condvar.c:56-111 | every step of both threads keeps the flag facts |
| DriverQueue.NodeQueue.AddElementToQueue | src/15.lab_hw_handler_condvar.c:113-140 | walking the heap list appends one node: contents, length and acyclicity; a failed malloc returns 1 and leaves the list unchanged |
| DriverQueue.NodeQueue.GetDataAndRemoveFromQueue | src/15.lab_hw_handler_condvar.c:142-160 | takes the first datum off the list, NULL exactly for the empty list, and keeps it acyclic with its count |
| DriverQueue.DriverLab.HardwareHandler | src/15.lab_hw_handler_condvar.c:56-80 | the next call or access of the handler, on the heap list, which keeps only nodes it had |
| DriverQueue.DriverLab.DataProvider | src/15.lab_hw_handler_condvar.c:82-111 | the next call or access of the provider, on the heap list, which has only nodes it had and new ones |
| DriverQueue.DriverLab.Perform | src/15.lab_hw_handler_condvar.c:56-111 | whatever the scheduler picks, on the heap list, whose nodes stay those it had or new ones |
| DriverQueue.QnxLabHwHandlerCondvar | src/15.lab_hw_handler_condvar.c:41-54 | the program under any interleaving: the heap list is acyclic, its state is that of the protocol, enqueued = written ++ in hand ++ list, and q_n_items is what is enqueued and neither written nor in hand |
| DriverQueue.DriverLab.ClearRunning | src/15.lab_hw_handler_condvar.c:49-49 | the main thread clears `running` |
| Handshake.StrictAlternation | src/16.lab_produce_consume.c:46-84 | until `running` is cleared the events are produced 1, consumed 1, produced 2, consumed 2, ..., and with the mutex free an item is outstanding exactly when state is TO_CONSUME |
| Handshake.AlternatesExactly | src/16.lab_produce_consume.c:46-84 | the whole log, shutdown included, alternates if and only if no thread left its wait because `running` is clear although it was not its turn; exact wherever the mutex is free, and elsewhere up to the event still to be printed |
| Handshake.TwoStepsLater | src/16.lab_produce_consume.c:50-55 | after the first such exit the next two steps of that thread end the alternation |
| Handshake.PatientOrBroken | src/16.lab_produce_consume.c:46-84 | runs without such an exit keep the turn of each thread; after one, the log is broken or about to be, for ever |
| Handshake.ConsumerSleepsForEver | src/16.lab_produce_consume.c:37-41 | a run that comes to rest with the consumer asleep |
| Handshake.BoundedDrift | src/16.lab_produce_consume.c:37-38 | in every reachable state production minus consumption is within -1 .. 2 |
| Handshake.ConsumesNothing | src/16.lab_produce_consume.c:66-75 | the lower end is reached: an item that was never produced is consumed |
| Handshake.ProducesTwice | src/16.lab_produce_consume.c:46-55 | the upper end is reached: two items are produced and none consumed |
| Handshake.AtMostOneMoreTurnEach | src/16.lab_produce_consume.c:37-38 | after `running` is cleared each thread takes at most one more turn |
| Handshake.NoLostSignal | src/16.lab_produce_consume.c:50-58 | the two threads are never both asleep; a sleeper whose condition is true has the other thread in its critical section or about to signal |
| Handshake.NeverStuckWhileRunning | src/16.lab_produce_consume.c:47-61 | while `running` is set some thread can take a step without a spurious wakeup |
| Handshake.StepsNeedProgress | src/16.lab_produce_consume.c:46-84 | in any stretch without spurious wakeups the steps are at most the fuel at its start plus 13 for each turn taken |
| Handshake.ShutdownTerminates | src/16.lab_produce_consume.c:37-41 | the shutdown phase ends within 52 steps without spurious wakeups |
| Handshake.Quiescence | src/16.lab_produce_consume.c:40-41 | where a run comes to rest `running` is false, the mutex is free, the thread whose turn it is has exited, and the other has exited or sleeps on a false condition |
| Handshake.DriftInvStep | src/16.lab_produce_consume.c:50-58 | every step keeps alternation before, and the drift bounds after, `running` is cleared |
| Handshake.ProduceConsumeLab.Producer | src/16.lab_produce_consume.c:46-64 | the next call or access of producer |
| Handshake.ProduceConsumeLab.Consumer | src/16.lab_produce_consume.c:66-84 | the next call or access of consumer |
| Handshake.ProduceConsumeLab.Proceed | src/16.lab_produce_consume.c:47-58 | the loop, wait, unlock and signal steps the two have in common |
| Publisher.ConsistentSnapshots | src/23.lab_shm_posix_consumer.c:43-67 | for any number of readers below 2^64 updates: versions strictly increase and never pass `data`, and the local text is the text of exactly the version recorded and parses back to it |
| Publisher.GateHolds | src/23.lab_shm_posix_consumer.c:108-123 | no reader is past the init_flag gate, and nobody uses the monitor, before mutex and condition variable are initialised |
| Publisher.GateIsBounded | src/23.lab_shm_posix_consumer.c:73-124 | after 303 of its own steps, three loops of 101 tries, a reader is past the gate or has given up, whatever the calls return and the others do |
| Publisher.DataCounts | src/23.lab_shm_posix_producer.c:87-87 | `data` is the number of updates modulo 2^64 |
| PublisherProgress.GateExactly | src/23.lab_shm_posix_consumer.c:73-124 | for every schedule a reader has given up if and only if in one of the three loops its first 101 tries have all failed, and is past the gate if and only if each has had a success among its first 101; tries are counted in the schedule |
| PublisherProgress.VerdictAppend | src/23.lab_shm_posix_consumer.c:75-121 | one more try of a reader, as the loops demand it |
| PublisherProgress.FlagExactly | src/23.lab_shm_posix_producer.c:59-76 | init_flag is set exactly from the third step of the producer on |
| PublisherProgress.StepsNeedProgress | src/23.lab_shm_posix_producer.c:78-101 | without spurious wakeups a run of moving steps of the producer and n consumers has at most 5 + 307 n steps, and 5 + 3 n more for each update made and each version recorded |
| PublisherProgress.WaitsOnlyFor | src/23.lab_shm_posix_consumer.c:43-67 | the producer waits for nothing but the mutex, a consumer for nothing but that and, asleep, for a broadcast; only one that has given up has stopped |
| PublisherProgress.NeverStuck | src/23.lab_shm_posix_producer.c:78-101 | somebody can always move |
| Publisher.GateStep | src/23.lab_shm_posix_consumer.c:73-124 | each try uses up one of the tries left |
| Publisher.NoLostUpdate | src/23.lab_shm_posix_producer.c:78-101 | a reader asleep on an old version has the writer holding the mutex after its increment, or owing its broadcast |
| Publisher.InvStep | src/23.lab_shm_posix_producer.c:59-101 | every step of the writer, of a reader and every spurious wakeup keep ownership, the shared text, the readers and the wakeup promise |
| Publisher.ShmObject.Producer | src/23.lab_shm_posix_producer.c:59-101 | the next call or access of the producer, on the shared buffer in place |
| Publisher.ShmObject.Consumer | src/23.lab_shm_posix_consumer.c:43-124 | the next call or access of a consumer, with the result of shm_open or mmap as an input |
| DecimalText.PublishedTextRoundTrip | src/23.lab_shm_posix_producer.c:87-88 | for every 64-bit version the message and its terminator take at most 35 bytes, both 100-byte buffers hold it untruncated whatever was in them, and the version parses back from the reader's copy |
| DecimalText.MessageText | src/23.lab_shm_posix_producer.c:88-88 | the text itself, for versions below 20 |
| DecimalText.ParseOfDecimal | src/23.lab_shm_posix_producer.c:88-88 | the decimal numeral of a number reads back as the number |
| DecimalText.DigitCount | src/23.lab_shm_posix_producer.c:88-88 | a number below 10^k has at most k digits |
| DecimalText.FitsUntruncated | src/23.lab_shm_posix_consumer.c:59-59 | a string that fits a buffer with its terminator is read back whole |
| DecimalText.CutOff | src/23.lab_shm_posix_consumer.c:59-59 | a longer string is cut off to what fits with its terminator, and the bytes behind the terminator stay |
| DecimalText.Put | src/23.lab_shm_posix_producer.c:88-88 | formatting or copying into a char array: what fits, a terminator, the rest untouched |
| EventServer.SavedIdsAgree | src/22.lab_events_server.c:64-87 | whenever the mutex is free save_rcvid and save_scoid are set or clear together and, with save_event, are the current registration |
| EventServer.DeliveredToLatest | src/22.lab_events_server.c:165-179 | every delivery attempt goes to the latest registration, whose client has not disconnected since, and carries the event registered there, only its value replaced and only when it is updateable |
| EventServer.ConsecutiveValues | src/22.lab_events_server.c:165-171 | updateable attempts carry 0, 1, 2, ..., also across re-registrations, starting again at 0 when the registered client disconnects |
| EventServer.CurrentIsLatest | src/22.lab_events_server.c:103-121 | the current registration of a history is an entry with no registration and no disconnect of that client after it |
| EventServer.HistoryIsReceived | src/22.lab_events_server.c:57-145 | for every schedule the registrations and disconnects of the history, and the one in progress, are exactly the requests with a verified event and the disconnects that MsgReceive returned, in order and with their own fields |
| EventServer.AttemptsAreDue | src/22.lab_events_server.c:156-186 | the delivery attempts, and the one in progress, are exactly one for each round of the notifier begun while a registration was current, to it, with its event and the number of the attempt; other rounds make none |
| EventServer.WaitsOnlyFor | src/22.lab_events_server.c:57-186 | the notifier waits for nothing but the mutex, the receive loop for nothing but that and for input that asks for something |
| EventServer.RoundsEnd | src/22.lab_events_server.c:57-186 | a run of moving steps has at most eight steps for each round that one of the two loops begins |
| EventServer.ServerKeeps | src/22.lab_events_server.c:57-145 | every step of the receive loop keeps the saved data in line with the history |
| EventServer.NotifierKeeps | src/22.lab_events_server.c:156-186 | every step of the notifier keeps it too |
| EventServer.EventsServer.ReceiveLoop | src/22.lab_events_server.c:57-145 | the next step of the receive loop |
| EventServer.EventsServer.NotifyThread | src/22.lab_events_server.c:153-189 | the next step of notify_thread |
| ShmServer.SessionSafety | src/24.lab_shm_qnx_server.c:51-133 | for every stream of messages in which GET comes only while no session is open, or fails before mmap for the very size held: one live mapping exactly while client_scoid is non-zero, with the size held; every unmap is of a mapping made before, with its size, and never twice; every accepted CHANGED is the session client's and inside a mapping made before with that size and not yet unmapped |
| ShmServer.ChangedExactly | src/24.lab_shm_qnx_server.c:86-97 | CHANGED is accepted exactly when it comes from the session client and offset + length, without wrapping, is at most the size; EPERM exactly for other clients; a rejection changes nothing |
| ShmServer.ConsistentExactly | src/24.lab_shm_qnx_server.c:67-84 | one message keeps the session consistent if and only if it is no GET during a session, or such a GET of the very same size that fails before mmap |
| ShmServer.SessionExactly | src/24.lab_shm_qnx_server.c:51-133 | after any orderly stream the server holds a session of client c with a size if and only if some message is a GET of c with that size, at most 65536, that was created, and no DISCONNECT or RELEASE of c comes after it |
| ShmServer.RepliesExactly | src/24.lab_shm_qnx_server.c:51-133 | the answer to every message after any orderly stream: GET by its size and outcome, RELEASE and CHANGED by the session the stream has left standing and its size, ENOSYS otherwise, none for pulses |
| ShmServer.MappingsSettled | src/24.lab_shm_qnx_server.c:138-170 | mappings are made for exactly the GETs that get as far as mmap, in order and with their sizes; each is given back exactly once, with its size, or is that of the session that stands |
| ShmServer.StreamExactly | src/24.lab_shm_qnx_server.c:51-133 | a whole stream leaves the session consistent after every one of its messages if and only if every message is of these kinds when it comes |
| ShmServer.StepKeeps | src/24.lab_shm_qnx_server.c:57-132 | each kind of message keeps the invariant |
| ShmServer.GetKeeps | src/24.lab_shm_qnx_server.c:68-84 | a GET with no session open keeps it, also when it is rejected or fails half way |
| ShmServer.ShmSessionServer.HandleMessage | src/24.lab_shm_qnx_server.c:51-133 | one turn of the receive loop: the new state and the reply |
| ShmServer.ShmSessionServer.MakeSharedMemory | src/24.lab_shm_qnx_server.c:138-170 | map or fail, with the mapping undone when the handle cannot be made |
| ParallelMap.ScheduleIndependent | src/09.lab_assignment_1.c:31-76 | for every N every complete interleaving of element loads and stores ends in the same array: the first N*(L/N) elements doubled, the rest untouched |
| ParallelMap.RunsEnd | src/09.lab_assignment_1.c:43-76 | a run in which every step moves has at most N * (2 (L/N) + 1) steps |
| ParallelMap.RestIsComplete | src/09.lab_assignment_1.c:43-57 | and where no thread can move all have ended, with that array |
| ParallelMap.DoublesWholeArray | src/09.lab_assignment_1.c:39-57 | the whole array is doubled if and only if what N*(L/N) leaves over is zero; so always when N divides L |
| ParallelMap.Apart | src/09.lab_assignment_1.c:43-47 | the stretches of different threads do not overlap and lie inside the shared-out part |
| ParallelMap.OwnerOf | src/09.lab_assignment_1.c:43-47 | every shared-out element belongs to a thread |
| ParallelMap.DoubleArray | src/09.lab_assignment_1.c:68-76 | double_array in place: exactly its stretch is doubled |
| ParallelMap.QnxLabAssignmentOne | src/09.lab_assignment_1.c:39-57 | the threads one after the other give the same array as any interleaving |
| ParallelMap.ArrayLab.DoubleElement | src/09.lab_assignment_1.c:68-76 | the next load or store of a thread |

## Left out

- pthread_join after shutdown in labs 15, 16 and 17: the code does not guarantee that it returns (OneSleepsForEver, HandlerSleepsForEver and ConsumerSleepsForEver are runs after which a thread sleeps for ever); the three Quiescence lemmas say where the threads then are.
- The reply write of lab 24 at offset 4126 of the mapping, and sessions whose GETs overlap: for those only the exact one-message condition is stated.
- A failing malloc in get_data_and_remove_from_queue, which the code does not check, and the unlocked read of q_n_items that only feeds a print.
- Memory returned by free: a removed node is no longer part of the list.
- Real time, priorities and yields: every schedule is allowed.
- Printing and writes to the hardware, except as history.
- Kernel calls (channels, pulses, name_attach, MsgVerifyEvent, MsgDeliverEvent, shm_open, mmap) are inputs or outcomes; the producer of lab 23 is modelled from its initialisation of the mutex on, and a consumer that gives up takes no further step.
- The no_sync modes of labs 10 and 11: lab 10's is the split counter of lab 14 with two threads and five updates; lab 11's, in which any two loads and stores may cross, is not modelled.
- Fork, exec, spawn, zombie, pulse, interrupt, timer, time and resource-manager labs: thin wrappers over system calls.
- Message-passing labs 18 to 21 and 27, and src/main.c: dispatch, tokenising and one-branch replies.
- Labs 07 and 13: thread creation and a single-shot condition variable, both contained in the larger programs.
