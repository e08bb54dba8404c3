# FlitOS and its RISC-V console, verified

This project models the FlitOS kernel and the stateful parts of the RISC-V console simulator it
runs on, and proves what they promise.  `dafny verify dfyconfig.toml` checks everything.

**The kernel.**  A preemptive round-robin scheduler, mutexes that are handed over directly,
condition variables, a blocking queue and pipe, join and sleep.

| file | contents |
|---|---|
| SchedulerSpec.dfy | each stretch of kernel code, up to a context switch, as a function on values |
| Scheduler.dfy | the kernel's objects in imperative form, proved to compute those functions |
| Kernel.dfy | the kernel as a transition system over any number of threads and objects |
| KernelInvariant.dfy, KernelSteps.dfy, KernelRuns.dfy | the invariant, and that every step of every run keeps it |
| SchedulerLaws.dfy | what single calls do to the fields, asserts and error cases included |
| KernelQueues.dfy, KernelTheorems.dfy, KernelFacts.dfy, KernelReach.dfy, KernelJoins.dfy | what the invariant means |
| PipeSteps.dfy, Pipe.dfy, PipeCalls.dfy, JoinSteps.dfy, JoinSleep.dfy | the blocking calls built on top, as runs of kernel steps |

**The containers under it.**  Deque.dfy (vector and ring buffer, with Sequences.dfy and
ThreadSafeQueue.dfy), UnorderedMap.dfy, SortedMap.dfy (doubly linked list and sorted map), and
StackOwnership.dfy (who frees the stacks of the thread blocks in the map).

**The console.**  InstructionCache.dfy, CachedExecution.dfy, MachineLaws.dfy and Console.dfy (the block instruction
cache, the CPU's fetch path, the flash memories and what rewrites them), MemoryController.dfy and
MemoryDevices.dfy (the radix trie over addresses, as values and as objects, with its arithmetic in
AddressDigits.dfy), Dma.dfy and DmaTransfers.dfy (with DmaMemory.dfy, DmaChannels.dfy and
DmaEnds.dfy), InterruptLines.dfy, Leb128.dfy, PathSlides.dfy, PathNames.dfy and PathLaws.dfy, and MachineWords.dfy
for the words they share.

## Assumptions

* A timer interrupt comes only while the running thread allows preemption, that is, outside the
  sections bracketed by `setPreemption(false)` and `setPreemption(true)`.  The guard that would
  make the handler's own wake-ups respect this is commented out
  (os_kernel/src/cs251_timer.h:35).  Such a section is atomic up to the context switch in it, and
  so are the look-ups in the mutex and condition factories.
* Clients create the handles they use, only the holder calls `unlock` or `wait`, and the idle
  thread only yields, as in riscv-firmware/src/main.c:20-29.
* The kernel's `assert` spins for ever; the model records a failed one in `halted`, and
  `KernelTheorems.PreemptionBalance` proves that it never happens.
* In CachedExecution.dfy decoding and executing an instruction, memory outside flash, the devices
  and the resets are parameters: any deterministic functions do.

## Where the code does not do what one would expect

* `join` reads the target's block through `operator[]`, which puts a fresh block back for a thread
  that has been reclaimed, so that it reads as not yet started
  (`KernelTheorems.JoinEntryHarmless`, `KernelJoins.JoinAfterReclaim`), and the caller waits on a
  condition that belongs to no thread (`JoinOfReclaimed`).  Nothing in the repository calls
  `clearFinishedList`.
* Erasing from the map of thread blocks copies the last block, stack pointer included, over the
  erased one and then destroys the last, which frees the stack of a thread that may still be
  alive.  A reclaiming is sound if and only if each block it erases is the last in the table, or
  the last has no stack at that time; over a run all of them have to be
  (`StackOwnership.ReclaimOwned`, `RunOwned`, `FirstReclaimed`).
* List iterators are default-constructed at the end and assignment does not copy the end flag, so
  that `map::insert` returns an iterator that does not equal the one `find` returns, except behind
  all other keys (`SortedMap.Map.InsertPair`, `List.Insert`, `List.FlaggedIter`).  Stepping back
  from a node that has a predecessor goes forward (`SortedMap.List.Retreat`).
* The range check of `ProgramFirmware` and `InsertCartridge` can be passed in two ways by a payload
  that does not fit: an empty one at the very end of the flash, and one so far up that the 64-bit
  sum wraps.  The store then throws, which leaves the flash writable and the cache not flushed, and
  the cached machine can part from the plain one (`CachedExecution.AcceptedAbove`,
  `EmptyHeaderAtTheEnd`, `OverflowingHeader`, `ThrowParts`).
* Listing a program decodes every fourth address from the start of a section, aligned or not, and
  caches the result under the word the address lies in.  A section at address 2 makes the cached
  machine part from the plain one (`CachedExecution.ListingParts`, `SectionAtTwo`).  A listing
  does no harm if and only if it breaks off before its first misaligned word of flash.
* The cache is never told about stores to RAM (`CachedExecution.RamGoesStale`).
* A nested memory controller refuses an access that ends at the last byte of its region
  (`MemoryController.AccessInDevice`, `LastWordUnreachable`).
* A device attached at a base already in use is refused only where the slot it falls in belongs to
  a device starting there; otherwise it silently takes the base over
  (`MemoryController.DuplicateBase`, `DuplicateAttached`).
* A DMA transfer that is accepted ends if and only if its source and its destination both lie in
  memory (`DmaTransfers.TransferEnds`, `ConsoleTransferEnds`, `PastTheEnd`).
* A byte store to the pending register also clears what is pending in the other three bytes
  (`InterruptLines.PendingHistory`).
* In a relative path a second ".." cancels the first (`PathLaws.SecondStepUp`), and the root directory
  prints as nothing (`PathNames.RoundTrip`).
* A "." in a destination that follows a name erases the first component of the destination instead
  of itself; one before the first name is erased rightly.  Simplifying is right for all names if
  and only if later steps up undo every such "." (`PathNames.RightForAllNames`, `DotsExactly`,
  `DotsShift`, `StepsUpHide`).  Parsing leaves no ".", and simplifying and making relative bring
  none in (`PathNames.ParsedHasNoDots`, `SimplifyNoDot`, `RelativeNoDot`), but an invalid path may
  keep one and can be simplified to a valid path that has it: the way from "/.." to "/../x/."
  simplified is x/., and simplifying to that loses the x (`PathNames.DotFromInvalidSource`).

## Model

| member | source | states |
|---|---|---|
| `KernelTheorems.MutualExclusion` | os_kernel/src/cs251_mutex.h:30-76 | in every reachable state at most one thread is between `lock` returning and its `unlock`, and it is the owner |
| `KernelTheorems.LockReturnsOnlyToOwner` | os_kernel/src/cs251_mutex.h:30-52 | `lock`, and the lock inside `wait`, either returns with the caller as owner or has suspended the caller in the waiting list: never a return without the mutex |
| `KernelTheorems.SuspendedLockReturnsToOwner` | os_kernel/src/cs251_mutex.h:40-52 | a thread switched back in inside `lock` owns the mutex when it returns |
| `KernelTheorems.Conservation` | os_kernel/src/cs251_scheduler.h:152-284 | in every reachable state every created thread is in exactly one place (processor, ready list, one waiting list, finished list, reclaimed), its block's state names that place, and no list holds a thread twice |
| `KernelTheorems.NothingInvented` | os_kernel/src/cs251_scheduler.h:152-163 | every id in any list was handed out by `create` |
| `KernelTheorems.BusyMeansReady` | riscv-firmware/src/main.c:20-49 | while another thread runs, the idle thread is ready, so a blocking switch always finds a next thread |
| `KernelTheorems.PreemptionBalance` | os_kernel/src/cs251_scheduler.h:113-123 | in every reachable state no assert has failed, a thread's preemption counter is one minus its open brackets, and a thread executing its own code can be preempted |
| `KernelTheorems.NestBalance` | os_kernel/src/utils.c:37-53 | in every reachable state the critical-section counter is 1 right after a context switch and 0 otherwise |
| `KernelTheorems.FinishedIsFinal` | os_kernel/src/cs251_scheduler.h:310-321 | once a thread reads as finished it never again runs, is ready or waits, and reads as finished in every later state, whatever is joined but a thread already reclaimed |
| `KernelTheorems.ReclaimInvisible` | os_kernel/src/cs251_scheduler.h:143-150 | reclaiming removes exactly the blocks of finished threads and changes no thread's visible state |
| `KernelTheorems.JoinEntryHarmless` | os_kernel/src/cs251_scheduler_impl.h:57-60 | the table accesses with which `join` starts leave every visible state alone if and only if the target has a block or was never created |
| `KernelJoins.JoinAfterReclaim` | os_kernel/src/cs251_scheduler_impl.h:57-63 | there is a run from boot to a state in which a thread can join another that has been reclaimed, and then reads it as not yet started |
| `KernelJoins.JoinOfReclaimed` | os_kernel/src/cs251_scheduler_impl.h:57-68 | in every reachable state, joining a reclaimed thread takes a mutex of nobody, finds the target not yet started, and suspends the caller on a condition that belongs to no thread |
| `KernelJoins.JoinOfUnknown` | os_kernel/src/cs251_scheduler_impl.h:57-62 | in every reachable state, joining an id never handed out takes that mutex, and then the assert that the target is known fails |
| `KernelTheorems.RoundRobin` | os_kernel/src/cs251_scheduler.h:184-265 | the thread at position p of the ready list moves up one place per switch and runs at switch p+1 |
| `KernelTheorems.MutexFifo` | os_kernel/src/cs251_mutex.h:54-76 | after r releases the owner is the r-th thread that was waiting, and nobody overtakes the others |
| `KernelRuns.RunInv` | os_kernel/src/cs251_scheduler.h:140-340 | the kernel invariant and the counter balance hold in every state of every run |
| `KernelRuns.BootInv` | riscv-firmware/src/main.c:45-49 | the boot sequence establishes the invariant |
| `KernelRuns.StepKeeps` | os_kernel/src/cs251_scheduler.h:152-313 | every kernel step keeps the invariant and the counter balance |
| `KernelRuns.LockKeeps` | os_kernel/src/cs251_mutex.h:30-52 | `lock` keeps the invariant, whichever way it goes |
| `KernelRuns.UnlockKeeps` | os_kernel/src/cs251_mutex.h:54-76 | `unlock` hands the mutex to the first waiter and keeps the invariant |
| `KernelRuns.WaitKeeps` | os_kernel/src/cs251_condition_variable.h:14-24 | `wait` releases, queues and suspends, and keeps the invariant |
| `KernelRuns.ResumeKeeps` | os_kernel/src/cs251_scheduler_impl.h:10-22 | whichever of the three resume points a thread continues at, what it does there keeps the invariant and closes exactly what was left open |
| `KernelRuns.InterruptKeeps` | riscv-firmware/src/startup.c:89-117 | the interrupt handler, with or without a tick and a switch, keeps the invariant |
| `KernelRuns.CreateKeeps` | os_kernel/src/cs251_scheduler.h:152-163 | `create` keeps the invariant and makes the new thread ready |
| `KernelRuns.ReclaimKeeps` | os_kernel/src/cs251_scheduler.h:143-150 | reclaiming keeps the invariant |
| `SchedulerLaws.CriticalSections` | os_kernel/src/utils.c:19-53 | enabling undoes disabling, the counter never falls below zero, and interrupts go on exactly when nothing is left to undo |
| `SchedulerLaws.PreemptionMoves` | os_kernel/src/cs251_scheduler.h:113-119 | the running thread's counter moves by one, nothing else changes, and passing 1 stops the kernel |
| `SchedulerLaws.SwitchAsserts` | os_kernel/src/cs251_scheduler.h:184-245 | a voluntary switch goes to the first ready thread, and an assert fails if and only if that is the caller itself or the caller still allows preemption |
| `SchedulerLaws.NoSwitch` | os_kernel/src/cs251_scheduler.h:184-225 | with nobody ready, or to a state that gives nothing up, there is no switch and no change |
| `SchedulerLaws.HandlerYields` | os_kernel/src/cs251_scheduler.h:247-265 | the handler switches if and only if the running thread allows it and somebody is ready; the asserts on the way |
| `SchedulerLaws.Resumed` | os_kernel/src/cs251_scheduler.h:277-284 | a thread with a block becomes ready behind the others, one without is ignored |
| `SchedulerLaws.AllNotified` | os_kernel/src/cs251_condition_variable.h:41-44 | `notifyAll` makes all that wait ready, in the order in which they came, and changes nothing else |
| `SchedulerLaws.UnlockOfOther` | os_kernel/src/cs251_mutex.h:54-76 | unlocking another thread's mutex does nothing if nobody waits |
| `SchedulerLaws.Tried` | os_kernel/src/cs251_mutex.h:14-28 | trying takes a free mutex and leaves a taken one |
| `KernelInvariant.SwitchForm` | os_kernel/src/cs251_scheduler.h:184-225 | closed form of a voluntary switch: what happens to the counters, the lists and the two states |
| `KernelInvariant.WaitForm` | os_kernel/src/cs251_condition_variable.h:14-24 | closed form of `wait`: brackets opened inside brackets, the mutex passed on, the caller queued, then the switch |
| `KernelInvariant.UnlockForm` | os_kernel/src/cs251_mutex.h:54-76 | closed form of `unlock` |
| `KernelInvariant.LockForm` | os_kernel/src/cs251_mutex.h:30-52 | closed form of `lock` |
| `KernelFacts.StepFacts` | os_kernel/src/cs251_scheduler.h:140-340 | what one kernel step can do to positions, holdings and condition lists of all threads |
| `Scheduler.CriticalSection.EnableInterrupts` | os_kernel/src/utils.c:31-44 | the counter afterwards, and whether interrupts are switched on |
| `Scheduler.CriticalSection.DisableInterrupts` | os_kernel/src/utils.c:31-53 | the counter afterwards, and whether interrupts are switched off |
| `Scheduler.ThreadScheduler.Create` | os_kernel/src/cs251_scheduler.h:152-163 | the new scheduler state and the id |
| `Scheduler.ThreadScheduler.LaunchFirstTask` | os_kernel/src/cs251_scheduler.h:172-182 | the new scheduler state, or no change for an empty ready list |
| `Scheduler.ThreadScheduler.SwitchCurrentThreadTo` | os_kernel/src/cs251_scheduler.h:184-221 | the whole scheduler state at the context switch, or on return if there is none |
| `Scheduler.ThreadScheduler.SwitchReturn` | os_kernel/src/cs251_scheduler.h:221-225 | what a voluntarily switched thread does when it comes back |
| `Scheduler.ThreadScheduler.InInterruptYield` | os_kernel/src/cs251_scheduler.h:247-265 | the scheduler state at the preemptive switch, or on return if there is none |
| `Scheduler.ThreadScheduler.Resume` | os_kernel/src/cs251_scheduler.h:277-284 | a known thread becomes ready at the back, an unknown one is ignored |
| `Scheduler.ThreadScheduler.SetPreemption` | os_kernel/src/cs251_scheduler.h:113-119 | the counter moves by one and the assert fails if it passes 1 |
| `Scheduler.ThreadScheduler.ClearFinishedList` | os_kernel/src/cs251_scheduler.h:143-150 | exactly the blocks of the listed threads are gone and the list is empty |
| `Scheduler.ThreadScheduler.ThreadStateOf` | os_kernel/src/cs251_scheduler.h:315-321 | unknown past the counter, finished if reclaimed, otherwise the block's state |
| `Scheduler.ThreadScheduler.JoinHandles` | os_kernel/src/cs251_scheduler_impl.h:57-60 | the two handles, and the block `operator[]` inserts for a missing id |
| `Scheduler.MutexInternal.TryLock` | os_kernel/src/cs251_mutex.h:14-28 | owner and result |
| `Scheduler.MutexInternal.Lock` | os_kernel/src/cs251_mutex.h:30-52 | owner, waiting list and scheduler up to the suspend inside |
| `Scheduler.MutexInternal.LockReturn` | os_kernel/src/cs251_mutex.h:43-52 | what a suspended locker does when it comes back |
| `Scheduler.MutexInternal.Unlock` | os_kernel/src/cs251_mutex.h:54-76 | owner, waiting list and scheduler after the hand-off |
| `Scheduler.ConditionVariableInternal.Wait` | os_kernel/src/cs251_condition_variable.h:14-22 | waiting list, mutex and scheduler up to the suspend inside |
| `Scheduler.ConditionVariableInternal.NotifyOne` | os_kernel/src/cs251_condition_variable.h:26-39 | first waiter ready, list shortened; nothing for an empty list |
| `Scheduler.ConditionVariableInternal.NotifyAll` | os_kernel/src/cs251_condition_variable.h:41-44 | all waiters ready in order, list empty |
| `Pipe.StreamIntegrity` | os_kernel/src/cs251_thread_safe_queue.h:28-74 | for any interleaving of any writers and readers, the bytes popped, then the queue, are the completed writes in order, each contiguous, then the lock holder's partial write; and the bytes popped are what the readers got |
| `PipeCalls.ReadDelivers` | os_kernel/src/cs251_thread_safe_queue.h:57-74 | in any interleaving, a read of n bytes delivers the first min(n, size) bytes of the queue as it found it |
| `PipeCalls.WriteStores` | os_kernel/src/cs251_thread_safe_queue.h:28-40 | and a write that is over has written exactly the bytes it was called with |
| `Pipe.QuietPipe` | os_kernel/src/cs251_pipe.h:16-26 | while nobody is inside the critical section, bytes read plus bytes queued are exactly the bytes written, in order |
| `Pipe.PopAlwaysPossible` | os_kernel/src/cs251_thread_safe_queue.h:67-72 | a reader that drains never meets an empty queue |
| `Pipe.CallNeverStuck` | os_kernel/src/cs251_thread_safe_queue.h:28-74 | whoever executes inside a pipe call owns the queue's lock and its next step is enabled |
| `Pipe.NoLostWakeup` | os_kernel/src/cs251_thread_safe_queue.h:19-55 | with one consumer: if it waits although the queue holds data, some producer that has pushed is still to notify |
| `JoinSleep.SleepsSoLong` | os_kernel/src/cs251_timer.h:20-31 | from a call of `sleep(count)` to its first test that holds the tick counter has gone up by at least count; every test before finds less and waits on the condition it was given |
| `JoinSleep.JoinsTarget` | os_kernel/src/cs251_scheduler_impl.h:57-68 | from a call of `join` to its first test that holds, which finds that very thread finished; every test before finds it is not and waits on its condition |
| `JoinSleep.SystickCounts` | os_kernel/src/cs251_timer.h:32-39 | the tick counter goes up by one for every timer interrupt in between, and by nothing else |
| `JoinSleep.TickWakes` | os_kernel/src/cs251_timer.h:32-39 | after a timer interrupt every thread that slept on the timer's condition is ready or runs |
| `JoinSleep.ReturnMeansMet` | os_kernel/src/cs251_scheduler_impl.h:57-68 | a join that has returned found its target finished, for ever; a sleep that has returned slept its ticks |
| `JoinSleep.LoopNeverStuck` | os_kernel/src/cs251_timer.h:20-30 | in the loop of `join` or `sleep` the thread owns the mutex, and exactly one of leaving and waiting again is enabled |
| `ThreadSafeQueue.ThreadSafeQueue.PushRange` | os_kernel/src/cs251_thread_safe_queue.h:33-36 | the data is appended to the queue |
| `ThreadSafeQueue.ThreadSafeQueue.PopInto` | os_kernel/src/cs251_thread_safe_queue.h:67-72 | the first min(n, size) elements move into the buffer, the rest of which is unchanged |
| `Sequences.ThreeReversals` | os_kernel/src/ecs_queue.h:82-84 | reversing both parts and then the whole swaps the parts |
| `Deque.RotateLeft` | os_kernel/src/ecs_queue.h:78-88 | the three reversals `normalize_idx` makes are a left rotation by the begin index |
| `Deque.Rotate` | os_kernel/src/ecs_queue.h:82-84 | the same for the array they are made on in place |
| `Deque.InvertData` | os_kernel/src/ecs_queue.h:66-77 | the segment, both ends inclusive, is reversed and nothing else changes |
| `Deque.FindMemSize` | os_kernel/src/ecs_vector.h:19-24 | the least power of two that is large enough |
| `Deque.AmortisedPushBack` | os_kernel/src/ecs_vector.h:117-125 | n `push_back`s copy fewer than 2n elements in all |
| `Deque.Vector.PushBack` | os_kernel/src/ecs_vector.h:117-125 | the element is appended; capacity and copies follow the doubling schedule the amortised bound is about |
| `Deque.Vector.ReallocateMemory` | os_kernel/src/ecs_vector.h:33-44 | the elements survive and the capacity is the power of two asked for |
| `Deque.Vector.Resize` | os_kernel/src/ecs_vector.h:103-116 | the common prefix survives; cells that are new have any value |
| `Deque.Vector.PopBack` | os_kernel/src/ecs_vector.h:126 | the last element is dropped, nothing for an empty vector |
| `Deque.Deque.PushBack` | os_kernel/src/ecs_queue.h:16-25 | the queue gains the element at its end, also when a wrapped full ring has to grow |
| `Deque.Deque.PopFront` | os_kernel/src/ecs_queue.h:27-30 | the queue loses its first element |
| `Deque.Deque.NormalizeIdx` | os_kernel/src/ecs_queue.h:78-88 | a full ring starts at cell 0 afterwards and holds the same queue |
| `Deque.Deque.At` | os_kernel/src/ecs_queue.h:53-57 | the element at that place of the queue |
| `Deque.Deque.Size` | os_kernel/src/ecs_queue.h:43-47 | the length of the queue, wrapped or not |
| `UnorderedMap.FindIf` | os_kernel/src/ecs_algorithm.h:6-18 | the first element that satisfies the predicate, or the end |
| `UnorderedMap.SwapRemoveIsErase` | os_kernel/src/ecs_unordered_map.h:36-45 | overwriting an entry with the last one and dropping the last removes exactly that key |
| `UnorderedMap.UnorderedMap.Erase` | os_kernel/src/ecs_unordered_map.h:36-45 | the map without the key |
| `UnorderedMap.UnorderedMap.Insert` | os_kernel/src/ecs_unordered_map.h:47-61 | the map with the pair, unchanged if the key is present |
| `UnorderedMap.UnorderedMap.Index` | os_kernel/src/ecs_unordered_map.h:63-73 | the value of the key, which is inserted with a default if missing |
| `UnorderedMap.UnorderedMap.Count` | os_kernel/src/ecs_unordered_map.h:75-80 | whether the key is present |
| `UnorderedMap.UnorderedMap.EraseAll` | os_kernel/src/cs251_scheduler.h:145-148 | a run of swap-with-last erases removes exactly the listed keys |
| `StackOwnership.EraseOwned` | os_kernel/src/ecs_unordered_map.h:36-45 | while every block owns its stack, erasing one keeps that so if and only if it is the last in the table or the last has no stack; otherwise the last block stays and its stack is freed |
| `StackOwnership.ReclaimOwned` | os_kernel/src/cs251_scheduler.h:143-150 | from any table in which every block owns its stack, reclaiming a list of finished threads leaves every other thread its stack, and frees none twice, if and only if each block erased is the last, or the last has no stack at that time |
| `StackOwnership.RunOwned` | os_kernel/src/cs251_scheduler.h:143-163 | over every run of table accesses, creations and reclaimings from the empty table, every block has a stack of its own if and only if every reclaiming so far was harmless in that sense; otherwise a stack has been freed twice, freed under a thread, or given to two |
| `StackOwnership.HarmlessFromTheBack` | os_kernel/src/cs251_scheduler.h:143-150 | where all blocks but the first have a stack, as without joins of unknown ids, this means that the list goes through the table from the back |
| `StackOwnership.BrokenStays` | os_kernel/src/ecs_unordered_map.h:36-45 | once a block's stack has been freed, no later erase mends it |
| `StackOwnership.ErasesBlock` | os_kernel/src/ecs_unordered_map.h:36-45 | the blocks that remain are those of the swap-with-last erase |
| `StackOwnership.FirstReclaimed` | os_kernel/src/cs251_scheduler.h:143-150 | a run: block 0 is made, two threads are created, the first is reclaimed, and the second is left with a stack that has been freed |
| `StackOwnership.BlockMap.EraseKey` | os_kernel/src/ecs_unordered_map.h:36-45 | the blocks and the stacks in use after the destructors and the copy, in their order |
| `StackOwnership.BlockMap.CreateBlock` | os_kernel/src/cs251_scheduler.h:152-158 | the block of a new thread, after the three accesses of `create` |
| `StackOwnership.BlockMap.Reclaim` | os_kernel/src/cs251_scheduler.h:143-150 | the same for the loop of `clearFinishedList` |
| `SortedMap.StopsEarly` | os_kernel/src/ecs_map.h:99-105 | in an ascending list the search may stop at the first key that is not smaller |
| `SortedMap.InsertKeepsOrder` | os_kernel/src/ecs_map.h:86-97 | inserting there keeps the keys strictly ascending and adds exactly the pair |
| `SortedMap.List.PushBack` | os_kernel/src/ecs_list.h:94-107 | the value is appended; prev and next mirror each other, and begin, end and size agree |
| `SortedMap.List.PushFront` | os_kernel/src/ecs_list.h:109-122 | the value is prepended; same |
| `SortedMap.List.PopBack` | os_kernel/src/ecs_list.h:124-140 | the last value is dropped; same |
| `SortedMap.List.PopFront` | os_kernel/src/ecs_list.h:142-158 | the first value is dropped; same |
| `SortedMap.List.Insert` | os_kernel/src/ecs_list.h:192-216 | the value is inserted before the iterator, whichever of the three branches is taken; same; the iterator returned points to it, with the end flag set exactly between two nodes |
| `SortedMap.List.PointsEqual` | os_kernel/src/ecs_list.h:68-72 | iterator comparison, with the end flag, decides whether two positions are equal |
| `SortedMap.List.FlaggedIter` | os_kernel/src/ecs_list.h:68-72 | an iterator to a node with the end flag set is never the one a search finds, and is the end if the node is the last |
| `SortedMap.Map.Count` | os_kernel/src/ecs_map.h:99-105 | whether the key is in the map, although the search stops early |
| `SortedMap.Map.Find` | os_kernel/src/ecs_map.h:108-112 | an iterator to the pair, or the end |
| `SortedMap.Map.Index` | os_kernel/src/ecs_map.h:86-97 | the map with the key, its value or the default; keys stay ascending |
| `SortedMap.Map.InsertPair` | os_kernel/src/ecs_map.h:56-79 | the map with the pair, unchanged if the key is present; keys stay ascending; the iterator returned points to the key, with the end flag clear exactly behind all other keys |
| `MachineLaws.StoreWrites` | riscv-sim/src/FlashMemoryDevice.cpp:72-76 | an enabled store in range writes each of its bytes at its address, and no other |
| `MachineLaws.StoreRefused` | riscv-sim/src/FlashMemoryDevice.cpp:72-76 | any other store changes nothing, and throws if writing is enabled |
| `MachineLaws.ProgramWrites` | riscv-sim/src/RISCVConsole.cpp:586-594 | programming what fits leaves in each byte of the flash that of the last payload over it, 0 where there is none, and the flash locked |
| `MachineLaws.ProgramEvents` | riscv-sim/src/RISCVConsole.cpp:575-663 | programming the firmware, inserting and removing a cartridge: the bytes of the flash afterwards, what is left alone, and which registers are reset; no change where it is rejected |
| `MachineLaws.ProgramAnswers` | riscv-sim/src/RISCVConsole.cpp:575-604 | rejected with no change, left half done and writable with an exception, or done, each exactly when |
| `MachineLaws.InsertAnswers` | riscv-sim/src/RISCVConsole.cpp:606-635 | the same for a cartridge |
| `MachineLaws.ShowFills` | riscv-sim/src/RISCVConsole.cpp:322-401 | after a listing the cache holds what it held and what was decoded at the addresses shown, and all of that unless it broke off at a word that cannot be read |
| `MachineLaws.FlashWord` | riscv-sim/src/FlashMemoryDevice.cpp:36-38 | a word is its four bytes, the lowest first, or nothing out of range |
| `MachineLaws.WordComesFrom` | riscv-sim/src/MemoryControllerDevice.cpp:16-24 | a word comes from the flash its address belongs to, or else from the rest of memory |
| `MachineLaws.ByteStored` | riscv-sim/src/FlashMemoryDevice.cpp:44-48 | a byte the processor stores arrives in the flash its address belongs to if that can be written |
| `MachineLaws.TrapTakes` | riscv-sim/src/RISCVCPU.cpp:172-182 | a trap goes to mtvec if that is even, and four bytes further for each cause if it is odd; mepc is the old pc, MIE is clear, MPIE the old MIE, MPP kept, and nothing else changes |
| `MachineLaws.FetchTraps` | riscv-sim/src/RISCVCPU.cpp:183-222 | a misaligned, an unreadable and an illegal instruction trap with causes 0, 1 and 2 |
| `MachineLaws.InstructionEnds` | riscv-sim/src/RISCVCPU.cpp:198-227 | an executed instruction is counted and interrupts are looked at, a refused one is not counted, a fault traps with cause 7 for a store and 5 for a load |
| `MachineLaws.InterruptTaken` | riscv-sim/src/RISCVCPU.cpp:151-171 | with interrupts on and one pending and enabled, it traps: external before timer before software |
| `MachineLaws.NoInterrupt` | riscv-sim/src/RISCVCPU.cpp:151-171 | otherwise nothing happens |
| `MachineLaws.StoresArrive` | riscv-sim/src/FlashMemoryDevice.cpp:44-76 | after a run of byte stores each byte of a flash that can be written is that of the last store to it, and all others are kept |
| `MachineLaws.InstructionStores` | riscv-sim/src/RISCVCPU.cpp:183-228 | the stores of an instruction arrive in that sense, writable or not |
| `MachineLaws.DeviceStores` | riscv-sim/src/RISCVConsole.cpp:157-172 | and so do those of the devices after it |
| `MachineLaws.StepEnds` | riscv-sim/src/RISCVConsole.cpp:157-163 | after the instruction the devices have their turn |
| `CachedExecution.CachedEqualsPlain` | riscv-sim/src/RISCVCPU.cpp:183-228 | from the same machine and an empty cache, for every run of steps, programming, cartridge and reset events that are safe (fetch from flash, list no misaligned word of flash before the listing breaks off, program what fits), the CPU with the block cache and the one without go through identical machine states |
| `CachedExecution.StepAgrees` | riscv-sim/src/RISCVCPU.cpp:183-228 | one instruction fetched from flash: same machine with and without the cache, which stays coherent with flash |
| `CachedExecution.EventAgrees` | riscv-sim/src/RISCVConsole.cpp:575-663 | one safe event: same machine, and the cache stays coherent because each rewrite of flash is followed by a flush |
| `CachedExecution.ShowKeeps` | riscv-sim/src/RISCVConsole.cpp:322-401 | a listing that breaks off before any misaligned word of flash changes no machine state and keeps the cache coherent |
| `CachedExecution.ListingParts` | riscv-sim/src/RISCVConsole.cpp:575-604 | for every firmware that fits and every other listing there is a coherent state from which programming makes the two machines part at the next step (an explicit one, whose coherence its own contract states) |
| `CachedExecution.CartridgeListingParts` | riscv-sim/src/RISCVConsole.cpp:606-635 | the same for inserting a cartridge |
| `CachedExecution.LastWordsCached` | riscv-sim/src/RISCVConsole.cpp:322-401 | that state is well-formed and coherent |
| `CachedExecution.MisalignedSection` | riscv-sim/src/RISCVConsole.cpp:575-604 | the same from an empty cache, for a listing with such a word before it breaks off at the end of either flash |
| `CachedExecution.SectionAtTwo` | riscv-sim/src/RISCVConsole.cpp:575-604 | an executable section at address 2, programmed into an empty console, makes the machines part |
| `CachedExecution.ThrowParts` | riscv-sim/src/RISCVConsole.cpp:588-594 | for every accepted firmware that does not fit there is a coherent state in which the machines part afterwards |
| `CachedExecution.CartridgeThrowParts` | riscv-sim/src/RISCVConsole.cpp:619-625 | the same for every accepted cartridge that does not fit |
| `CachedExecution.EmptyHeaderParts` | riscv-sim/src/RISCVConsole.cpp:580-594 | in particular for an empty payload at the very end of the flash |
| `CachedExecution.RamGoesStale` | riscv-sim/src/RISCVCPU.cpp:192-201 | at every word outside flash an instruction that changes itself makes the machines part the second time |
| `CachedExecution.LockedFlashKept` | riscv-sim/src/FlashMemoryDevice.cpp:44-76 | while writing is disabled no sequence of stores changes a flash memory |
| `CachedExecution.ProgramCompletes` | riscv-sim/src/RISCVConsole.cpp:588-593 | programming completes if and only if every payload fits; otherwise writing stays enabled |
| `CachedExecution.AcceptedFits` | riscv-sim/src/RISCVConsole.cpp:580-583 | an accepted header fits if and only if it starts below the end of the flash |
| `CachedExecution.AcceptedAbove` | riscv-sim/src/RISCVConsole.cpp:580-583 | a header above that is accepted if and only if it is empty and at the very end, or the 64-bit sum of the check wraps |
| `CachedExecution.EmptyHeaderAtTheEnd` | riscv-sim/src/RISCVConsole.cpp:580-593 | an empty payload placed at the very end is accepted, and then the store throws |
| `CachedExecution.OverflowingHeader` | riscv-sim/src/RISCVConsole.cpp:580-593 | so is an 8-byte payload at 2^64 - 4, whose end wraps, and then the store throws |
| `InstructionCache.BlockCache.Fetch` | riscv-sim/src/RISCVBlockInstructionCache.cpp:39-50 | what the cache holds for the word; the cache as a map is unchanged although blocks may be made |
| `InstructionCache.BlockCache.Insert` | riscv-sim/src/RISCVBlockInstructionCache.cpp:52-64 | exactly that word is set, through whichever of the overlapping blocks it is reached |
| `InstructionCache.BlockCache.FlushRange` | riscv-sim/src/RISCVBlockInstructionCache.cpp:73-83 | exactly the sub-blocks not clear of the range are emptied, with the 32-bit sums of the source |
| `InstructionCache.BlockCache.GetBlock` | riscv-sim/src/RISCVBlockInstructionCache.cpp:13-25 | a block whose sub-blocks are the very objects of the sub-block table |
| `InstructionCache.BlockCache.Reset` | riscv-sim/src/RISCVBlockInstructionCache.cpp:66-71 | the cache is empty |
| `InstructionCache.FlushDrops` | riscv-sim/src/RISCVBlockInstructionCache.cpp:73-83 | where no sum wraps, a flush drops exactly the words of the 1 KB sub-blocks that the range meets or touches |
| `InstructionCache.FlushCovers` | riscv-sim/src/RISCVBlockInstructionCache.cpp:73-77 | an address of a range is flushed if and only if neither 32-bit sum wraps for it: the top sub-block of the address space, and a range that ends with the address space, are the exceptions |
| `InstructionCache.SameWord` | riscv-sim/src/RISCVBlockInstructionCache.cpp:39-49 | two addresses share sub-block and slot exactly when they lie in the same word |
| `Console.FlashMemoryDevice.StoreData` | riscv-sim/src/FlashMemoryDevice.cpp:12-19 | the bytes are copied in place, dropped while writing is disabled, or refused out of range |
| `Console.FlashMemoryDevice.EraseAll` | riscv-sim/src/FlashMemoryDevice.cpp:21-26 | all zero, unless writing is disabled |
| `Console.FlashMemoryDevice.LoadUINT32` | riscv-sim/src/FlashMemoryDevice.cpp:36-38 | the little-endian word, or nothing out of range |
| `Console.RiscvConsole.ExecuteInstruction` | riscv-sim/src/RISCVCPU.cpp:183-228 | machine and cache after one instruction, wherever it is fetched from and whichever trap it takes, are those of the specified cached step |
| `Console.RiscvConsole.InvokeTrap` | riscv-sim/src/RISCVCPU.cpp:172-181 | the trap registers and the vectored or direct target |
| `Console.RiscvConsole.CheckInterrupts` | riscv-sim/src/RISCVCPU.cpp:151-170 | the highest pending enabled source traps, if interrupts are on |
| `Console.RiscvConsole.SystemStep` | riscv-sim/src/RISCVConsole.cpp:157-174 | one instruction, then the devices |
| `Console.RiscvConsole.ProgramFirmware` | riscv-sim/src/RISCVConsole.cpp:575-604 | for any headers and any listing: rejected, completed, left half done with writing enabled and the cache not flushed, or broken off in the listing |
| `Console.RiscvConsole.InsertCartridge` | riscv-sim/src/RISCVConsole.cpp:606-636 | the same for the cartridge |
| `Console.RiscvConsole.RemoveCartridge` | riscv-sim/src/RISCVConsole.cpp:638-663 | cartridge erased, its words flushed |
| `Console.RiscvConsole.ConstructStrings` | riscv-sim/src/RISCVConsole.cpp:322-401 | listing a program fills the cache with what is decoded at the addresses shown, aligned or not, and breaks off where a word cannot be read |
| `MemoryController.Routing` | riscv-sim/src/MemoryControllerDevice.cpp:34-72 | attaching devices at pairwise distinct bases, aligned or not, always succeeds, keeps every controller aligned with its bits a multiple of four, and each base leads to its own device |
| `MemoryController.AttachSucceeds` | riscv-sim/src/MemoryControllerDevice.cpp:34-72 | the same for one device: it is added, and nothing else changes |
| `MemoryController.AttachAll` | riscv-sim/src/RISCVConsole.cpp:41-62 | attaching one device after the other succeeds and holds exactly those devices |
| `MemoryController.NeverReroutes` | riscv-sim/src/MemoryControllerDevice.cpp:34-72 | attaching one more device leaves every earlier device reachable at its base |
| `MemoryController.AccessInDevice` | riscv-sim/src/MemoryControllerDevice.cpp:16-24 | with disjoint devices of power-of-16 size and alignment, an access inside a device reaches it if and only if it does not end at the last byte of a nested controller's region |
| `MemoryController.AccessInMap` | riscv-sim/src/MemoryControllerDevice.cpp:16-72 | the same for a whole memory map |
| `MemoryController.TopDigits` | riscv-sim/src/MemoryControllerDevice.cpp:16-72 | devices with different top digits: every access of any width in a 256 MB slot reaches the slot's device |
| `MemoryController.ConsoleMap` | riscv-sim/src/RISCVConsole.cpp:41-62 | the console's five devices are all reachable throughout |
| `MemoryController.LastWordUnreachable` | riscv-sim/src/MemoryControllerDevice.cpp:20-22 | of two devices at the ends of a 4 KB page the upper one's last word cannot be read |
| `MemoryController.AttachExactly` | riscv-sim/src/MemoryControllerDevice.cpp:34-72 | attaching inside a controller's region succeeds and leaves a well-shaped trie if and only if no device in it has that base |
| `MemoryController.DuplicateBase` | riscv-sim/src/MemoryControllerDevice.cpp:47-71 | attaching at a base already in use is refused if and only if the device in the controller's own slot starts there; otherwise it is accepted, the new device takes the base over, and the trie has lost its shape |
| `MemoryController.DuplicateAttached` | riscv-sim/src/MemoryControllerDevice.cpp:47-71 | of two devices at the ends of a 4 KB page the upper one's base is given away to a second device |
| `MemoryController.AttachBelow` | riscv-sim/src/MemoryControllerDevice.cpp:47-71 | attaching below a taken slot: in the device there, else by splitting where the bases part, else refused because they are equal |
| `MemoryDevices.MemoryDevice.AttachDevice` | riscv-sim/src/MemoryControllerDevice.cpp:34-72 | the objects afterwards form the specified trie, or nothing has changed where it returns false |
| `MemoryDevices.MemoryDevice.AttachInSlot` | riscv-sim/src/MemoryControllerDevice.cpp:47-71 | the same for a taken slot |
| `MemoryDevices.MemoryDevice.SplitDevices` | riscv-sim/src/MemoryControllerDevice.cpp:61-69 | the new controller object holds the very objects it was given |
| `MemoryDevices.MemoryDevice.PlaceDevice` | riscv-sim/src/MemoryControllerDevice.cpp:34-46 | the object is put in an empty slot and told its base, or nothing changes |
| `MemoryDevices.MemoryDevice.Reach` | riscv-sim/src/MemoryControllerDevice.cpp:16-24 | the object a load or store reaches through the controllers, or none where one of them throws |
| `MemoryController.FindSplit` | riscv-sim/src/MemoryControllerDevice.cpp:50-60 | the mask loop finds the topmost differing digit |
| `MemoryController.SplitWorks` | riscv-sim/src/MemoryControllerDevice.cpp:61-71 | the controller made there takes both devices, in different slots |
| `MemoryController.IndexIsDigit` | riscv-sim/src/MemoryControllerDevice.cpp:16-22 | in an aligned controller the range check and the index depend on the address alone |
| `Dma.TransferCompletes` | riscv-sim/src/RISCVConsoleChipset.cpp:340-403 | over any run, whatever the other channel is commanded and does and whatever the processor writes, as long as nobody else writes to the two regions or changes the transfer, an accepted transfer of N bytes moves on at every increment and finishes by number ceil(N/4)+1: destination equals source, channel inactive, interrupt pending |
| `Dma.ApartSpares` | riscv-sim/src/RISCVConsoleChipset.cpp:340-403 | an increment after which nobody writes to the regions spares the transfer if the other channel's next write is apart from them, in range or not |
| `Dma.OtherJobApart` | riscv-sim/src/RISCVConsoleChipset.cpp:340-403 | which it is, at every stage, if the other channel's job is apart from this one |
| `Dma.IncrementMoves` | riscv-sim/src/RISCVConsoleChipset.cpp:340-403 | one increment moves both transfers on, each from its own count, and raises exactly the interrupts of those it finishes; bytes copied and remaining add up to N |
| `Dma.IncrementWritesOnlyDestinations` | riscv-sim/src/RISCVConsoleChipset.cpp:340-403 | bytes outside the destinations are unchanged |
| `Dma.AcceptedProgress` | riscv-sim/src/RISCVConsoleChipset.cpp:301-314 | an accepted command starts its transfer, and a busy channel ignores it |
| `DmaTransfers.CommandEnds` | riscv-sim/src/RISCVConsoleChipset.cpp:301-403 | on any memory whose ranges split into their parts: n increments after an accepted command the channel is inactive if and only if source and destination are both accessible and n is at least the number of steps, at most ceil(N/4)+1 |
| `DmaTransfers.TransferEnds` | riscv-sim/src/RISCVConsoleChipset.cpp:301-403 | on any such memory, over every endless run of the channel, an accepted transfer ends if and only if its source can be loaded and its destination stored to, and then at that step |
| `DmaTransfers.RamTransferEnds` | riscv-sim/src/RISCVConsoleChipset.cpp:301-403 | the same for the chipset over RAM, whatever is written to memory or commanded to the other channel in between |
| `DmaTransfers.ConsoleTransferEnds` | riscv-sim/src/RISCVConsole.cpp:33-59 | the same through the memory controller of the console, from any of its devices to another: it ends if and only if each region lies in its device, where a locked flash, which drops stores, counts as accessible throughout |
| `DmaTransfers.TransferCopies` | riscv-sim/src/RISCVConsoleChipset.cpp:340-403 | on any such memory, over every run in which nobody else writes to the two regions or the channel, an accepted transfer whose regions are accessible and apart has copied every byte when its last increment is over, leaves the channel inactive and raises the interrupt |
| `DmaTransfers.ConsoleTransferCopies` | riscv-sim/src/RISCVConsole.cpp:33-59 | the same through the memory controller of the console, from RAM or flash to the main or the video RAM |
| `DmaTransfers.PastTheEnd` | riscv-sim/src/RISCVConsoleChipset.cpp:301-403 | eight bytes of which the last four lie past the end of the main memory are accepted and never end |
| `Dma.Commands` | riscv-sim/src/RISCVConsoleChipset.cpp:301-326 | what every command does to the registers, in their own bits and numbers |
| `Dma.CopiedOn` | riscv-sim/src/RISCVConsoleChipset.cpp:340-403 | the first channel goes first: what it copies the second copies on in the same increment |
| `Dma.Sources` | riscv-sim/src/RISCVConsoleChipset.cpp:340-403 | each channel raises its own interrupt, bit 4 or bit 5 |
| `DmaTransfers.RamRange` | riscv-sim/src/RAMMemoryDevice.cpp:9-15 | the 32-bit range check, by address |
| `Dma.CancelStops` | riscv-sim/src/RISCVConsoleChipset.cpp:315-323 | a zero-size command stops an active channel, marks it cancelled and raises its interrupt; an inactive one ignores it |
| `Dma.ErrorsRepeat` | riscv-sim/src/RISCVConsoleChipset.cpp:394-400 | an increment out of range leaves the channel active, raises the interrupt and sets the error bit, and every further increment does the same |
| `Dma.Chipset.DMACommandStore` | riscv-sim/src/RISCVConsoleChipset.cpp:301-326 | registers, result and interrupt of every kind of command |
| `Dma.Chipset.IncrementDMA` | riscv-sim/src/RISCVConsoleChipset.cpp:340-403 | memory, channels and pending interrupts after both channels' turns |
| `Dma.Chipset.Increment` | riscv-sim/src/RISCVConsoleChipset.cpp:342-401 | the same for one channel |
| `Dma.RamMemoryDevice.StoreData` | riscv-sim/src/RAMMemoryDevice.cpp:10-56 | the bytes are copied in place, or refused out of range |
| `Dma.RamMemoryDevice.LoadData` | riscv-sim/src/RAMMemoryDevice.cpp:10-52 | the bytes, or nothing out of range |
| `InterruptLines.RunMirrors` | riscv-sim/src/RISCVConsoleChipset.cpp:282-338 | between operations, after any sequence of stores, events, ticks and resets, mip.External holds iff enable and pending intersect and mip.Timer iff mtime >= mtimecmp |
| `InterruptLines.RunFromReset` | riscv-sim/src/RISCVConsoleChipset.cpp:427-431 | in particular after any operations from the state a reset leaves |
| `InterruptLines.PendingHistory` | riscv-sim/src/RISCVConsoleChipset.cpp:96-121 | a source is pending if and only if some event raised it and nothing has cleared it since; a byte store to the register also clears the other three bytes |
| `InterruptLines.EnableHistory` | riscv-sim/src/RISCVConsoleChipset.cpp:22-60 | a source is enabled if and only if some store enabled it and none has disabled it since, byte stores included |
| `InterruptLines.HalfByteStored` | riscv-sim/include/HardwareRegister.h:286-430 | a byte store to one half of a 64-bit register changes that byte, and leaves the other half and the other register |
| `InterruptLines.TickWraps` | riscv-sim/src/RISCVConsoleChipset.cpp:336-339 | the clock goes on by one and wraps to zero |
| `InterruptLines.TimerFires` | riscv-sim/src/RISCVConsoleChipset.cpp:282-290 | until the clock wraps the timer line is up exactly from the tick on which mtime reaches mtimecmp |
| `InterruptLines.QuietUpdate` | riscv-sim/include/HardwareRegister.h:285-318 | updating the compare register in halves, low half to all ones first, raises no interrupt neither deadline calls for |
| `InterruptLines.NoisyUpdate` | riscv-sim/include/HardwareRegister.h:285-318 | writing the low half directly can |
| `InterruptLines.HalvesCommute` | riscv-sim/include/HardwareRegister.h:285-318 | the two halves of a 64-bit register can be written in either order |
| `InterruptLines.MergeByteKeeps` | riscv-sim/src/RegisterBlockMemoryDevice.cpp:40-43 | a byte store changes one byte of a register and keeps the other three |
| `InterruptLines.Chipset.CheckInterrupt` | riscv-sim/src/RISCVConsoleChipset.cpp:282-299 | the line it is asked about mirrors the registers afterwards |
| `InterruptLines.Chipset.StorePending` | riscv-sim/src/RISCVConsoleChipset.cpp:96-121 | the bits written as 1 are cleared, and the line follows |
| `InterruptLines.Chipset.StoreHalf` | riscv-sim/include/HardwareRegister.h:285-318 | one half changes, and the timer line follows |
| `InterruptLines.Chipset.StoreEnable` | riscv-sim/src/RISCVConsoleChipset.cpp:36-39 | the sources are enabled, and the line follows |
| `InterruptLines.Chipset.SetInterruptPending` | riscv-sim/src/RISCVConsoleChipset.cpp:328-330 | the source becomes pending, and the line follows |
| `InterruptLines.Chipset.IncrementTimer` | riscv-sim/src/RISCVConsoleChipset.cpp:336-338 | one tick, wrapping at 64 bits, and the timer line follows |
| `InterruptLines.Chipset.ResetComponents` | riscv-sim/src/RISCVConsoleChipset.cpp:427-431 | after the register resets, in the order of the source and with a check after each, the state is the initial one |
| `Leb128.UnsignedRoundTrip` | riscv-sim/src/ElfLoad.cpp:307-321 | where a file holds the encoding of a 64-bit value, the readers see exactly that encoding, it has at most 10 bytes, and its value is the one encoded |
| `Leb128.SignedRoundTrip` | riscv-sim/src/ElfLoad.cpp:323-338 | the same for signed values of at most 9 bytes |
| `Leb128.UnsignedExamples` | riscv-sim/src/ElfLoad.cpp:307-321 | the values of the examples in section 7.6 of the standard |
| `Leb128.SignedExamples` | riscv-sim/src/ElfLoad.cpp:323-336 | and of the signed ones |
| `Leb128.EndCloses` | riscv-sim/src/ElfLoad.cpp:168-176 | an encoding that the end of the file cuts off is closed by a zero byte |
| `Leb128.EncodeUnique` | riscv-sim/src/ElfLoad.cpp:307-321 | the standard encoding is the only one that does not end in a zero byte |
| `Leb128.ElfLoader.ReadULEB128` | riscv-sim/src/ElfLoad.cpp:307-321 | consumes exactly one encoding and returns its value, if it has at most 10 bytes and fits 64 bits |
| `Leb128.ElfLoader.ReadSLEB128` | riscv-sim/src/ElfLoad.cpp:323-338 | the same with two's complement sign extension, for at most 9 bytes |
| `Leb128.ElfLoader.ReadDebugValue` | riscv-sim/src/ElfLoad.cpp:977-990 | saves exactly the bytes of one encoding |
| `Leb128.GetUINT64` | riscv-sim/src/ElfLoad.cpp:63-76 | the backward fold over saved bytes returns the same value as the forward reader |
| `Leb128.SignedFromUnsigned` | riscv-sim/src/ElfLoad.cpp:331-334 | sign extension is subtracting 2 to the number of bits |
| `Leb128.ElfLoader.ReadUINT8` | riscv-sim/src/ElfLoad.cpp:168-176 | the byte at the position, zero past the end of the file, whatever has been buffered |
| `PathNames.RelativeLeadsToDestination` | riscv-sim/src/Path.cpp:145-217 | for absolute paths with a normalised destination, simplifying the relative path from the source gives the destination |
| `PathNames.RelativeFromCurrentDirectory` | riscv-sim/src/Path.cpp:187-196 | the same from a relative source, by way of the current directory |
| `PathNames.RoundTrip` | riscv-sim/src/Path.cpp:55-143 | parsing what `ToString` prints gives a normal path back if and only if it has a component and at most one leading step up |
| `PathNames.RightForAllNames` | riscv-sim/src/Path.cpp:145-185 | simplifying resolves the destination as a stack for every choice of its names if and only if every "." after a name is undone, that is, later steps up lead out of all that was kept before it |
| `PathNames.SimplifyExactly` | riscv-sim/src/Path.cpp:145-185 | validity and number of components are always right, the components are if every "." is undone, and for names that all differ only then |
| `PathNames.DotsExactly` | riscv-sim/src/Path.cpp:145-185 | for a destination of steps up and then names and ".", repeated or not, the result is right if and only if the path is invalid or every "." precedes the first name |
| `PathNames.DotsShift` | riscv-sim/src/Path.cpp:160-163 | what simplifying gives for such a destination: the last components of it, as many as it has names, so that each "." after a name erases the first component instead of itself |
| `PathNames.StepsUpHide` | riscv-sim/src/Path.cpp:145-185 | a later step up can undo a ".", and can hide a wrong component behind an equal name |
| `PathNames.SimplifyResolves` | riscv-sim/src/Path.cpp:145-185 | on destinations without "." the loop resolves the destination from the source as a stack of components |
| `PathLaws.NamesStay` | riscv-sim/src/Path.cpp:92-143 | parsing the string of a list of names, absolute or relative, gives those names |
| `PathLaws.StepUpErases` | riscv-sim/src/Path.cpp:119-142 | a name and the ".." behind it can be left out of a string without changing what it parses to, whatever follows |
| `PathLaws.StepUpLeavesNothing` | riscv-sim/src/Path.cpp:119-142 | if nothing else is there, the root or the empty relative path is left |
| `PathLaws.DotErased` | riscv-sim/src/Path.cpp:119-142 | a "." can be left out |
| `PathLaws.AboveRoot` | riscv-sim/src/Path.cpp:130-132 | an absolute path that steps up from the root is invalid and keeps what follows |
| `PathLaws.StepUpStays` | riscv-sim/src/Path.cpp:133-135 | a relative path keeps one step up in front of names |
| `PathLaws.StepUpErasesBehind` | riscv-sim/src/Path.cpp:119-142 | and behind it names and steps up can be left out as well |
| `PathLaws.SecondStepUp` | riscv-sim/src/Path.cpp:119-142 | but a second step up cancels the first |
| `PathLaws.TrailingDelimiter` | riscv-sim/src/Path.cpp:105-114 | a delimiter at the end adds nothing |
| `PathLaws.DoubleDelimiter` | riscv-sim/src/Path.cpp:105-119 | one that follows another stands for an empty component |
| `PathLaws.RelativeIsShortest` | riscv-sim/src/Path.cpp:187-217 | no way from the source to the destination has fewer components than the relative path |
| `PathLaws.RelativeKeepsValidity` | riscv-sim/src/Path.cpp:187-217 | the relative path is as valid as its destination |
| `PathNames.RelativePieces` | riscv-sim/src/Path.cpp:55-78 | splitting what `ToString` prints of a normal relative path gives its components, however many steps up it has |
| `PathNames.ParsedHasNoDots` | riscv-sim/src/Path.cpp:119-142 | parsing never leaves a "." |
| `PathNames.SimplifyNoDot` | riscv-sim/src/Path.cpp:145-185 | simplifying brings in no "." |
| `PathNames.RelativeNoDot` | riscv-sim/src/Path.cpp:187-217 | nor does making a path relative |
| `PathNames.DotFromInvalidSource` | riscv-sim/src/Path.cpp:145-185 | but neither asks whether its source is valid: the way from "/.." to "/../x/." simplified is the valid path x/., and simplifying to that keeps the "." and loses the name, from every source |
| `PathNames.DecomposePath` | riscv-sim/src/Path.cpp:92-143 | the components the stack reduction of the pieces gives, and whether the path is valid |
| `PathNames.DropDots` | riscv-sim/src/Path.cpp:119-142 | erasing in place in an index loop is that stack reduction |
| `PathNames.ToString` | riscv-sim/src/Path.cpp:55-78 | the printed form |
| `PathNames.SimplifyPath` | riscv-sim/src/Path.cpp:145-185 | the simplified path, valid or not |
| `PathNames.RelativePath` | riscv-sim/src/Path.cpp:187-217 | one step up for each component past the longest common prefix, then the rest of the destination |

## Left out

- Stack frames, register save and restore, the gp register, inline assembly and malloc: a context switch only changes which thread continues at its resume point.
- Interrupts inside bracketed sections: excluded by assumption, as stated above.
- `ecs::list::erase` and what is built on it (`ecs::map::erase`, destroying mutexes and conditions, closing pipes): it does not maintain size, begin and end.
- Progress of `join`: joiners are notified before the state becomes finished, so only safety is claimed.
- Kernel calls through `c_system_call`, which suspend while holding an extra count.
- The rest of the interrupt handler: controller status, video and command counters.
- Overflow of the thread counter, the tick counter and container sizes.
- UnorderedMap.UnorderedMap.Erase: the vector under the map is a sequence here, and the destructors of the overwritten and the dropped entry do nothing; what they free is modelled in StackOwnership.dfy, the vector's memory in Deque.dfy.
- Scheduler.ThreadScheduler.ClearFinishedList: the stacks that the destructors free are modelled in StackOwnership.dfy, apart from the scheduler: in the transition system a thread whose stack has been freed goes on as if it had one.
- KernelTheorems.FinishedIsFinal: joining a thread whose block has been reclaimed is not a step of the runs; `JoinEntryHarmless` says that this is exactly the join that changes a visible state, and `KernelJoins.JoinOfReclaimed` what becomes of it.
- JoinSleep.ReturnMeansMet: `join` is called on a thread that has a block; for one already reclaimed and for an id never handed out `KernelJoins.JoinOfReclaimed` and `JoinOfUnknown` say what happens instead.
- KernelJoins.JoinOfReclaimed: the join runs as one stretch up to its suspend, so that the mutex of nobody is free when it starts.
- Scheduler.ConditionVariableInternal.NotifyAll: runs as one stretch; in the transition system of Kernel.dfy every round of it is a step of its own, between which interrupts are taken.
- Deque.Vector.Resize: the value of new cells is unspecified, because default initialisation leaves plain data as it was.
- MemoryDevices.MemoryDevice.AttachDevice: attaching to a trie that an earlier duplicate base has put out of shape is not covered, because such an attempt can fail half way and leave the new device's base changed.
- MemoryDevices.MemoryDevice.AttachInSlot: the same.
- MemoryController.AttachSucceeds: device sizes play no part in attaching.
- MemoryController.FindSplit: shifts and masks are arithmetic on digits of four bits; for a 4-bit controller the source shifts the mask by a negative amount, which is undefined; it happens only at a base already in use, where the offsets are equal and every mask gives the same result.
- Dma.TransferCompletes: the memory is one RAM device; for the devices of the console it is `DmaTransfers.ConsoleTransferCopies`.
- DmaTransfers.ConsoleTransferEnds: transfers to a locked flash that run past its 256 MB, and to or from the registers past the end of their block, where the source reads and writes outside its own tables.
- DmaTransfers.ConsoleTransferCopies: transfers to the registers, which need not read back as what was stored.
- Dma.Chipset.IncrementDMA: the same RAM device.
- Dma.Chipset.Increment: the same; bytes copied onto themselves, which is undefined in the source, are copied as they were before.
- Dma.RamMemoryDevice.StoreData: sizes for which the 32-bit end of the range wraps, where the source would run past its array.
- Dma.RamMemoryDevice.LoadData: the same.
- Leb128.ElfLoader.ReadULEB128: nothing is claimed for encodings longer than 10 bytes, where the shift is undefined.
- Leb128.ElfLoader.ReadSLEB128: for a negative number of nine bytes the source negates the least 64-bit integer, which is undefined; the value claimed is the one wrap-around gives.
- InterruptLines.RunMirrors: stores of other widths are sequences of the stores modelled; direct writes to mip are excluded.
- CachedExecution.AcceptedFits: payloads of 2 GB and more, for which the 32-bit sizes of the store wrap.
- Instruction semantics, disassembly and the rest of the CPU's registers.
- Host threads of the console: only the sequential step of debug mode is modelled.
- The file-system side of paths: the current directory is a parameter, and changing it is left out.
- The other debug forms, sections and line tables of the ELF loader; only the LEB128 forms are modelled.
- User interface, video rendering, input recording, build scripts, the games and vendored code.
