# A verified model of the kernel's process machinery

This project models, in Dafny 4.11, the parts of the kernel that decide who runs,
who waits and who owns what, and proves what they are for. Five subjects, each as a
value-level machine with its theorems and, beside it, the imperative code as classes
over linked nodes, arrays and memory, every method of which is tied to a transition
of the machine.

| subject | machine and theorems | code in place |
|---|---|---|
| scheduler | `SchedModel`, `SchedEvents`, `SchedOutcomes`, `Fairness`, `Starvation` | `Scheduler` |
| first-fit heap | `HeapModel`, `HeapTheorems`, `HeapAccounts`, `HeapMemory` | `FirstFit` |
| semaphores and their clients | `SemModel`, `SemProtocol`, `SemOutcomes`, `SemNodes`, `SemRuns`, `TableModel`, `TableOutcomes`, `SemWitness`, `SemClients`, `MVar`, `SyncCounter` | `Semaphores`, `SemTable` |
| pipes and descriptors | `PipeProtocol`, `PipeOutcomes`, `PipeCalls`, `PipeWitness`, `FdModel`, `FdTheorems`, `FdOutcomes`, `PipeNames` | `Pipes`, `Descriptors` |
| wait and exit | `WaitModel`, `WaitOutcomes`, `WaitWitness` | `WaitExit` |

`Lists`, `Links`, `Options`, `Runs` and `Names` are shared: sequences, linked chains,
optional values, runs of a machine, and the string hash.
The `Outcomes` modules say, field by field, what each step leaves behind; their results do not
name the functions the step is made of. `dafny verify dfyconfig.toml` checks everything.

## How a step is cut

One step is one section of code with interrupts off, or one whole kernel entry up to
the point where it yields; gates are interrupt gates, so a system call is not
interrupted. Semaphores and pipes are cut finer, at each of their own critical
sections, so that their theorems do not depend on this; where a theorem needs whole
calls it says so. An exit from a process's entry function does run with interrupts
on, and where that matters the timer may end it or let others in. Runs are arbitrary
sequences of enabled steps. Clock ticks, the choice of the next caller, whether memory is
available, whether a wake finds its process, and the arguments of every call are
inputs of the model.

Addresses of heap blocks are integers and memory is a pair of maps, one for block
headers and one for payload bytes; writing either destroys what it overlaps in the
other. Semaphores, files and pipes are named by the allocation they are, which is
never used again. Machine integers are unbounded, except where the code depends on
their width: the allocation size and the shared counter (64 bits), the semaphore
count and the name hash (32 bits).

## What the code does not do as its comments or callers expect

Each of these is proved, with the exact condition where there is one.

* `proc_nice` by a process on itself stops the scheduler for good (`SchedEvents.NiceKeepsInv`, `SelfNiceForGood`).
* `proc_nice` to the level that aging has just given a process is forgotten (`SchedEvents.NiceTakesEffect`).
* `first_fit_malloc` of more than 2^64 - 8 bytes rounds the request to 16 and grants it (`HeapTheorems.RoundingWraps`, `HugeRequestGranted`).
* A waiter killed after its semaphore was unlinked stays in the queue, and so does one that ends with its parent (`SemNodes.TidyIff`). When a post comes to its node the wake goes to whoever is in the slot by then. If that process is not blocked the token lies in the counter beside the remaining waiters (`SemProtocol.NoIdleIff`, `SemRuns.IdleToken`, `OrphanToken`, `OwnNodeFails`, `SemWitness.DeadWaiterTakesToken`); if it is blocked for another reason it is woken from there and the token is gone (`SemProtocol.StepTokens`, `SemRuns.StrangerWoken`), and if that reason is another semaphore two processes can be inside it (`SemProtocol.MutualExclusion`, `SemRuns.TwoInside`).
* A semaphore that is unlinked and then loses its last handle while somebody waits is never freed, and no post wakes its waiters; killing a waiter does not take it off such a queue (`TableModel.LastClose`, `Stranded`, `RemovedFromNamed`, `SemWitness.StrandedRun`).
* `proc_kill` does not close the semaphore handles of its victim, as `proc_exit` does (`TableModel.KillKeepsHandles`, `CleanupHandles`).
* The second check of `kpipe_write` looks only at the size, so that a writer can queue on a full pipe whose last reader has closed between the two checks (`PipeProtocol.WriterSafeIff`, `PipeWitness.StuckWriter`). System calls are not interrupted there, and then it cannot happen (`PipeCalls.SleepersHavePeers`).
* A write wakes one reader even if its data would serve two, and a read one writer even if its room would (`PipeProtocol.ReaderSafeIff`, `RoomSafeIff`, `PipeWitness.SleepsOnData`).
* `proc_kill` takes nobody off a pipe's queues, so that a wake-up can go to the node of a dead process while a living one waits behind it (`PipeProtocol.QueuesIff`, `PipeWitness.KilledReader`).
* A pipe opened under a name of 32 or more characters is never found again by that name, and may be found by its first 31 characters, even by somebody who means another pipe (`PipeNames.ReopenFinds`, `OpenReaches`, `SharedPrefix`).
* `proc_wait` documents waiting for a given child or for any; for a number below -1 it means any child but is woken by none, and sleeps for ever (`WaitModel.SleepIff`, `SleepsForeverIff`, `WaitWitness.WaitBelowMinusOne`). With two results and no memory, the first is lost (`WaitModel.LosesIff`, `WaitWitness.ResultOverwritten`).
* A process that returns from its entry function reaches `proc_exit` with interrupts on; the timer can then end it before it has told its parent, which may wait for ever (`WaitModel.SleepIff`, `SleepsForeverIff`, `WaitWitness.WaitCutShort`). A later `proc_kill` of it tells the parent once more, and may make it report the child twice (`WaitModel.ExactlyOnce`, `WaitWitness.KillWakes`, `ReportedTwice`).
* The timer can likewise end it inside `kpipe_close`; readers or writers it was to wake then sleep without a peer, one of them perhaps for ever (`PipeCalls.SoundIff`, `StrandedSleeps`, `PipeWitness.CloserStopped`, `ReaderStranded`).

## Model

| member | source | states |
|---|---|---|
| `Fairness.BoundedOvertaking` | Kernel/process/sched.c:128-190 | In every run, while a process A stays READY and is not re-niced, any process B whose base priority is never above A's is dispatched at most once, whoever blocks and unblocks B meanwhile |
| `Fairness.NeverOvertaken` | Kernel/process/sched.c:271-327 | Once A stands ahead of B (dominance on level, queue place and aging), B is not dispatched at all while A waits |
| `Fairness.DispatchYields` | Kernel/process/sched.c:143-190 | A dispatch of B puts every waiting A of at least its base priority ahead of it |
| `Fairness.AheadStep` | Kernel/process/sched.c:73-327 | Every kernel entry keeps A ahead of B and does not dispatch B |
| `Fairness.AheadAge` | Kernel/process/sched.c:271-327 | An aging pass keeps the dominance order of any two waiting processes |
| `Fairness.AgedOrder` | Kernel/process/sched.c:276-326 | In an aged queue those already at the level stand before those lifted into it, each group in its old order |
| `Fairness.InvRun` | Kernel/process/sched.c:73-327 | Every state of every run of kernel entries satisfies the whole-machine invariant |
| `Starvation.StarvationBound` | Kernel/process/sched.c:128-190 | A READY process that is not blocked, killed or re-niced is dispatched in fewer than 30 + 128 scheduling decisions and fewer than 5 * (30 + 128) calls of schedule |
| `Starvation.StarvationMeasure` | Kernel/process/sched.c:128-327 | At every point of a run the distance of a waiting process bounds the decisions it still waits for |
| `Starvation.DistanceDecide` | Kernel/process/sched.c:143-190 | One aging pass and dispatch brings every waiting process strictly nearer to the CPU, or runs it |
| `Starvation.DistanceSchedule` | Kernel/process/sched.c:128-190 | A call of schedule that decides lowers the distance and fills the slice; one that does not uses up a tick |
| `SchedEvents.InvStep` | Kernel/process/proc.c:53-402 | Create, tick, yield, block, unblock, nice of another process, kill, exit and reap keep the invariant: READY iff in the queue of its priority and only there, 0 <= base <= priority <= 3, idle never queued, only current runs |
| `SchedModel.InvSchedule` | Kernel/process/sched.c:128-190 | Whatever became of the process on the CPU, after schedule the invariant holds again |
| `SchedModel.WfAge` | Kernel/process/sched.c:271-327 | The aging pass keeps table and queues consistent |
| `SchedEvents.NiceKeepsInv` | Kernel/process/proc.c:281-330 | proc_nice keeps the scheduler invariant exactly when it does not change the priority of the running process |
| `SchedEvents.SelfNice` | Kernel/process/proc.c:307-329 | A process that re-nices itself is queued while it runs, nobody is current, and schedule then does nothing |
| `SchedEvents.NobodyStep` | Kernel/process/sched.c:128-132 | While nobody is current no kernel entry makes anybody so |
| `SchedEvents.SelfNiceForGood` | Kernel/process/sched.c:128-132 | After a process has re-niced itself, whatever kernel entries follow, nobody is current and schedule does nothing |
| `SchedEvents.NiceTakesEffect` | Kernel/process/proc.c:295-300 | The requested priority becomes the base priority exactly when aging has not already lifted the process to just that level |
| `SchedEvents.NiceLost` | Kernel/process/proc.c:295-300 | Such a state: base 1, lifted by aging to 3; a nice to 3 changes nothing |
| `SchedEvents.BootOk` | Kernel/process/sched.c:27-55 | After start-up the idle process has the CPU, no queue holds it, and the invariant holds |
| `SchedOutcomes.TickKeeps` | Kernel/process/sched.c:135-141 | A running process with more than one tick left keeps the CPU through a call of schedule, which takes one tick from it and changes nothing else |
| `SchedOutcomes.TickSwitches` | Kernel/process/sched.c:143-190 | With its last tick, or once it is blocked or has ended, a process leaves the CPU or is chosen anew: the choice stood highest, runs at its base priority with a full slice; who was running is ready at its base; everybody else only grows older |
| `SchedOutcomes.SliceLasts` | Kernel/process/sched.c:135-141 | Through every call but the last of its slice a process keeps the CPU |
| `SchedOutcomes.FullSlice` | Kernel/process/sched.c:128-190 | A process just given the CPU keeps it through exactly 4 calls of schedule, and the 5th makes a new choice |
| `SchedOutcomes.YieldOutcome` | Kernel/process/sched.c:120-125 | A forced yield makes a new choice at once and leaves the caller ready |
| `SchedOutcomes.LeaveOutcome` | Kernel/process/proc.c:172-258 | A process that blocks itself is BLOCKED, one that exits or kills itself is EXITED, and somebody else has the CPU |
| `SchedOutcomes.KillOutcome` | Kernel/process/proc.c:333-402 | proc_kill leaves another process EXITED, in no queue, and everybody else as they were |
| `SchedOutcomes.BlockOutcome` | Kernel/process/proc.c:225-258 | proc_block leaves another process BLOCKED, in no queue, and everybody else as they were |
| `SchedOutcomes.UnblockOutcome` | Kernel/process/proc.c:261-278 | proc_unblock leaves a blocked process READY, last in the queue of its own priority, and everybody else as they were |
| `SchedOutcomes.CreateOutcome` | Kernel/process/proc.c:53-169 | proc_create leaves a process READY, last at the priority asked for or at the nearest there is, base and all, and everybody else as they were |
| `SchedOutcomes.NiceOutcome` | Kernel/process/proc.c:281-330 | proc_nice gives another process the new priority and base, and the last place of that queue if it is READY |
| `SchedOutcomes.ReapOutcome` | Kernel/process/proc.c:558-581 | Only an ended process is taken out of the table |
| `SchedOutcomes.EndedForGood` | Kernel/process/proc.c:333-402 | In no run is a process that has ended ready or running again, until it is reaped |
| `Scheduler.Scheduler.constructor` | Kernel/process/sched.c:27-50 | sched_init in place gives that start-up machine |
| `Scheduler.Scheduler.Start` | Kernel/process/sched.c:53-55 | Starting the scheduler establishes the invariant and changes nothing else |
| `Scheduler.Scheduler.QPush` | Kernel/process/sched.c:193-210 | The block joins the tail of the chain of its clamped priority; the other chains are unchanged |
| `Scheduler.Scheduler.QPop` | Kernel/process/sched.c:213-226 | The head of the chain leaves it |
| `Scheduler.Scheduler.QRemove` | Kernel/process/sched.c:229-254 | The block leaves the chain of its priority, wherever it stands in it |
| `Scheduler.Scheduler.PickNext` | Kernel/process/sched.c:257-268 | The head of the highest non-empty chain is taken |
| `Scheduler.Scheduler.AgeChain` | Kernel/process/sched.c:276-317 | The in-place pass over one chain keeps those who stay, in order, and moves those who rise to the side list, in order, each aged once |
| `Scheduler.Scheduler.ApplyAging` | Kernel/process/sched.c:271-327 | The list surgery refines the pure pass: each new queue is the unpromoted part of the old one followed by those promoted from the level below, in order; every process is aged once |
| `Scheduler.PassFilters` | Kernel/process/sched.c:276-327 | What the loops build, level by level and push by push, is that pure pass |
| `Scheduler.Scheduler.Schedule` | Kernel/process/sched.c:128-190 | The tick handler performs exactly the schedule transition and returns the frame of the process it chose |
| `Scheduler.Scheduler.SchedEnqueue` | Kernel/process/sched.c:73-97 | sched_enqueue in place |
| `Scheduler.Scheduler.SchedRemove` | Kernel/process/sched.c:100-112 | sched_remove in place |
| `Scheduler.Scheduler.ForceYield` | Kernel/process/sched.c:120-125 | sched_force_yield: the slice is used up and schedule runs |
| `Scheduler.Scheduler.ProcBlock` | Kernel/process/proc.c:225-258 | proc_block performs the block step and returns -1 exactly for the idle and exited processes |
| `Scheduler.Scheduler.ProcUnblock` | Kernel/process/proc.c:261-278 | proc_unblock performs the unblock step and succeeds exactly on a blocked process |
| `Scheduler.Scheduler.ProcNice` | Kernel/process/proc.c:281-330 | proc_nice performs the nice step, whoever it is applied to |
| `Scheduler.Scheduler.ProcExit` | Kernel/process/proc.c:172-222 | The scheduling part of proc_exit performs the exit step |
| `Scheduler.Scheduler.ProcKill` | Kernel/process/proc.c:333-402 | The scheduling part of proc_kill performs the kill step |
| `Scheduler.Scheduler.Admit` | Kernel/process/proc.c:53-169 | The end of proc_create puts the fresh block in the table and the ready queues |
| `HeapTheorems.Unique` | Kernel/mm/first_fit.c:43-198 | Two heaps over the same range with the same live blocks are the same block list: no two free blocks are ever neighbours |
| `HeapTheorems.FreeUndoesMalloc` | Kernel/mm/first_fit.c:135-198 | free(malloc(n)) restores the exact block list |
| `HeapTheorems.FreesCommute` | Kernel/mm/first_fit.c:169-198 | Frees commute, whatever is freed |
| `HeapTheorems.FreeEverything` | Kernel/mm/first_fit.c:169-198 | Freeing every live block, in any order and however often, gives the single initial block |
| `HeapTheorems.EmptyIsInitial` | Kernel/mm/first_fit.c:43-198 | Any run that leaves nothing live ends in the initial heap |
| `HeapTheorems.RunOk` | Kernel/mm/first_fit.c:43-198 | After any run the blocks tile the heap in address order, aligned, with no two free neighbours |
| `HeapTheorems.PayloadsApart` | Kernel/mm/first_fit.c:135-167 | Live payloads are 8-aligned, lie in the heap and do not overlap |
| `HeapTheorems.LiveStays` | Kernel/mm/first_fit.c:135-198 | A live block keeps its place and size until it is itself freed |
| `HeapTheorems.GrantsLowest` | Kernel/mm/first_fit.c:70-104 | malloc grants from the lowest free block that fits, wasting less than a header and a minimum block, and fails exactly when none fits |
| `HeapTheorems.RoundingWraps` | Kernel/mm/first_fit.c:141-146 | The rounded size covers the request exactly when n <= 2^64 - 8, and is 16 above that |
| `HeapTheorems.RoundedLeast` | Kernel/mm/first_fit.c:141-146 | For n <= 2^64 - 8 the rounded size is the least multiple of 8 that is at least n and 16 |
| `HeapTheorems.HugeRequestGranted` | Kernel/mm/first_fit.c:135-167 | In any heap, such a request fails only if no free block has 16 bytes, and is otherwise granted a block of fewer than 64 |
| `HeapModel.CoalesceOk` | Kernel/mm/first_fit.c:106-124 | Coalescing keeps tiling and live blocks and leaves no two free neighbours |
| `HeapModel.FreeOk` | Kernel/mm/first_fit.c:169-198 | free keeps the heap shape and removes exactly the block with that payload address, if it is live |
| `HeapModel.TakeOk` | Kernel/mm/first_fit.c:83-104 | Taking a free block keeps the heap shape and adds exactly one live block |
| `FirstFit.Heap.Init` | Kernel/mm/first_fit.c:43-68 | A heap over raw memory; it is a valid heap exactly when a header fits after alignment |
| `FirstFit.Heap.FindFreeBlock` | Kernel/mm/first_fit.c:70-81 | The search loop finds the first free block that is large enough |
| `FirstFit.Heap.SplitBlock` | Kernel/mm/first_fit.c:83-104 | Splitting relinks the headers as the list says and keeps every live payload byte |
| `FirstFit.Heap.Malloc` | Kernel/mm/first_fit.c:135-167 | malloc over memory: result and block list as in the list model, every live byte kept, counters exact |
| `FirstFit.Heap.Free` | Kernel/mm/first_fit.c:169-198 | free over memory: the list model's result, the freed payload zeroed, every other live byte kept; anything but a live payload address is ignored |
| `FirstFit.Heap.CoalesceBlocks` | Kernel/mm/first_fit.c:106-124 | The in-place merge loop terminates with the coalesced list and writes into no payload |
| `FirstFit.Heap.Store` | Kernel/mm/first_fit.c:135-167 | A program writing into its block leaves every header in use and every other byte alone |
| `FirstFit.Heap.GetInfo` | Kernel/mm/first_fit.c:200-224 | used + free = heap size; allocated blocks = live blocks = allocations - frees |
| `FirstFit.Heap.CollectStats` | Kernel/mm/first_fit.c:333-391 | captured + truncated = free blocks, the list holds the first of them, largest_free is the maximum, and the final corrections change nothing |
| `HeapMemory.FoundLive` | Kernel/mm/first_fit.c:176-183 | A header that passes the checks of free belongs to a live block |
| `HeapMemory.LiveFound` | Kernel/mm/first_fit.c:176-183 | Every live block passes the checks of free |
| `HeapAccounts.Accounts` | Kernel/mm/first_fit.c:200-224 | Used and free bytes add up to the heap, and the largest free block is no more than all of them |
| `HeapAccounts.FreeListIs` | Kernel/mm/first_fit.c:350-368 | The free list names exactly the free blocks, and the free bytes are the sum of their sizes |
| `HeapAccounts.LargestIs` | Kernel/mm/first_fit.c:354-356 | The largest free size is that of a free block, and no free block has more |
| `HeapAccounts.LiveCounted` | Kernel/mm/first_fit.c:161-191 | Every block is counted as free or is a live one |
| `HeapMemory.SplitChain` | Kernel/mm/first_fit.c:94-103 | Writing the two headers of a split relinks the chain and clobbers no other header |
| `HeapMemory.MergeChain` | Kernel/mm/first_fit.c:110-121 | Writing the header of a merge relinks the chain and clobbers no other header |
| `HeapMemory.ClearChain` | Kernel/mm/first_fit.c:193-194 | Clearing a freed payload removes no header in use |
| `SemProtocol.Conservation` | Kernel/ipc/semaphore.c:291-374 | Initial value + posts = count + grants + hand-offs in flight + tokens dropped at a full counter + tokens spent on other waits, in every interleaving; a waiter is a slot of the process table, which a new process may take when its process is dead |
| `SemProtocol.StepTokens` | Kernel/ipc/semaphore.c:311-368 | Each section changes the number of tokens by its own post and grant, and by a wake that finds a process blocked for another reason; the last is exactly when a token is spent on another wait |
| `SemProtocol.NoIdleIff` | Kernel/ipc/semaphore.c:333-374 | A step leaves a token free beside a queue exactly when it is a wake that finds nobody blocked while somebody still queues |
| `SemProtocol.ServedInOrder` | Kernel/ipc/semaphore.c:110-136 | Waiters are taken off the queue in arrival order; every waiter has been taken off, is queued, or was removed by a kill while the semaphore had its name; while no wake has failed no token is free beside a queue |
| `SemProtocol.TokensHeld` | Kernel/ipc/semaphore.c:291-374 | From any state, processes inside + tokens + tokens spent on other waits grow exactly by the waits that something else than this semaphore ends |
| `SemProtocol.MutualExclusion` | Kernel/ipc/semaphore.c:291-374 | With initial value 1 at most one process is inside exactly as long as no more waits were ended from elsewhere than there are tokens left or spent; so always if none was, whoever dies and whatever its slot is used for |
| `SemProtocol.StepWaits` | Kernel/ipc/semaphore.c:320-371 | A process starts waiting by an ungranted wait and stops by being granted a token, by ending, or by being unblocked from elsewhere |
| `SemProtocol.PlainStep` | Kernel/ipc/semaphore.c:291-374 | The protocol steps act on the semaphore as the kernel calls do |
| `SemOutcomes.WaitOutcome` | Kernel/ipc/semaphore.c:311-330 | A wait takes a token if there is one; else its caller stands last in the queue and sleeps |
| `SemOutcomes.PostOutcome` | Kernel/ipc/semaphore.c:343-352 | A post takes the first waiter off the queue, or raises the count by one below 2^32 - 1 and loses its token at it |
| `SemOutcomes.WakeOutcome` | Kernel/ipc/semaphore.c:354-371 | The wake lets a blocked process go on; otherwise the count goes up by one, below 2^32 - 1 |
| `SemOutcomes.EndOutcome` | Kernel/ipc/semaphore.c:454-497 | The end of a process frees its slot; a kill takes the slot's nodes, and no others, off the queue of a semaphore that has its name |
| `SemNodes.TidyIff` | Kernel/ipc/semaphore.c:454-497 | Every node being that of a waiting process, and every waiting process having one, is lost exactly when a waiter is killed without its node being removed (no name, or node in hand), ends with its parent, or is unblocked from elsewhere |
| `SemNodes.TidyWakes` | Kernel/ipc/semaphore.c:343-371 | While that holds every wake succeeds and reaches the process that waited |
| `SemNodes.TidyRun` | Kernel/ipc/semaphore.c:291-374 | In every interleaving without such a step no wake fails or strays and no token is free beside a queue |
| `SemNodes.NamedNeverIdle` | Kernel/ipc/semaphore.c:333-374 | When posts are not interrupted and no waiter ends with its parent or is unblocked from elsewhere, there is no such step as long as the semaphore keeps its name, whoever is killed |
| `SemRuns.IdleToken` | Kernel/ipc/semaphore.c:356-371 | A run with uninterrupted posts in which, after an unlink and a kill, a token lies in the counter while a process waits for it |
| `SemRuns.OrphanToken` | Kernel/process/proc.c:956-1015 | The same on a semaphore that has its name, when the first waiter ends with its parent |
| `SemRuns.StrangerWoken` | Kernel/ipc/semaphore.c:354-361 | A run in which a new process in a dead waiter's slot is woken from another wait, and the token is gone |
| `SemRuns.OwnNodeFails` | Kernel/ipc/semaphore.c:354-371 | A run in which it waits for the same semaphore, is granted a token through the old node, and its own node then takes the next token into the counter while a process waits |
| `SemRuns.TwoInside` | Kernel/ipc/semaphore.c:354-361 | A semaphore of value 1 with two processes inside, the second let in by such a wake |
| `Semaphores.Semaphore.Push` | Kernel/ipc/semaphore.c:110-122 | wait_queue_push appends |
| `Semaphores.Semaphore.Pop` | Kernel/ipc/semaphore.c:125-136 | wait_queue_pop takes the head |
| `Semaphores.Semaphore.RemoveProc` | Kernel/ipc/semaphore.c:139-179 | Every node of the process leaves the queue, the others keep their order, and the removed ones come back linked in order |
| `Semaphores.Semaphore.Wait` | Kernel/ipc/semaphore.c:291-330 | ksem_wait takes a token or joins the queue |
| `Semaphores.Semaphore.Post` | Kernel/ipc/semaphore.c:333-374 | ksem_post hands over to the first waiter or counts up; a failed wake returns the token |
| `Semaphores.Semaphore.CloseRef` | Kernel/ipc/semaphore.c:377-400 | ksem_close drops a reference and says whether to free |
| `Semaphores.Semaphore.Forget` | Kernel/ipc/semaphore.c:469-471 | One semaphore's part of ksem_remove_waiters_for |
| `MVar.ReadsAreWrites` | Userland/SampleCodeModule/programs/mvar.c:129-181 | Any writers and readers, every interleaving, kills included: one token or process in all, writes and reads alternate, the values read are those written less at most the last |
| `MVar.ReadsAreLetters` | Userland/SampleCodeModule/programs/mvar.c:129-181 | The values read are the letters of the writers, in the order in which they came to write, less at most the last |
| `MVar.TokenStep` | Userland/SampleCodeModule/programs/mvar.c:129-135 | Every step keeps tokens on empty + tokens on full + processes inside = 1 |
| `MVar.InStepNext` | Userland/SampleCodeModule/programs/mvar.c:174-181 | Every step keeps readers and writers in turn |
| `SyncCounter.NoLostUpdate` | Userland/SampleCodeModule/tests/test_sync.c:11-16 | With the semaphore the counter is the sum of the increments completed so far, modulo 2^64, after every step of every run |
| `SyncCounter.BalancedRun` | Userland/SampleCodeModule/tests/test_sync.c:75-97 | The balanced test that runs to the end leaves the counter at 0 |
| `SyncCounter.UnguardedLoses` | Userland/SampleCodeModule/tests/test_sync.c:11-16 | Without the semaphore an increment can be lost |
| `SyncCounter.GuardedStep` | Userland/SampleCodeModule/tests/test_sync.c:62-66 | Every step keeps the token count and who waits exact |
| `TableModel.RefsExact` | Kernel/sys/syscalls.c:119-252 | In every run a semaphore's count equals the handles and the opens and closes in progress that name it, nothing names one that is gone, and an unlinked one still in memory is referred to or waited for |
| `TableOutcomes.OpenOutcome` | Kernel/ipc/semaphore.c:209-288 | An open adds one reference to the semaphore of that name or makes one with the initial value; names that are empty or of 32 characters and more give nothing |
| `TableOutcomes.InstallOutcome` | Kernel/sys/syscalls.c:119-141 | The caller has the lowest free handle; with none free the reference is closed |
| `TableOutcomes.CloseOutcome` | Kernel/sys/syscalls.c:242-248 | sys_sem_close frees the handle and drops one reference |
| `TableOutcomes.UnlinkOutcome` | Kernel/ipc/semaphore.c:403-451 | An unlink frees the name, and the semaphore too if nobody refers to it or waits |
| `TableOutcomes.WaitOutcome` | Kernel/sys/syscalls.c:227-233 | A wait through a handle takes a token of its semaphore or queues there, and touches nothing else |
| `TableOutcomes.PostOutcome` | Kernel/sys/syscalls.c:235-241 | A post through a handle takes the first waiter or raises the count, and touches nothing else |
| `TableOutcomes.KillOutcome` | Kernel/ipc/semaphore.c:454-497 | A kill takes the victim, and nobody else, out of the queues of semaphores that have their names |
| `TableModel.FreedInTime` | Kernel/ipc/semaphore.c:182-206 | A semaphore is freed only when it is unlinked, unreferenced and waiterless |
| `TableModel.FreedOnce` | Kernel/ipc/semaphore.c:377-451 | A freed semaphore never comes back, so it is freed once |
| `TableModel.SameSemaphore` | Kernel/ipc/semaphore.c:209-288 | Until a name is unlinked every open of it gives the same semaphore, whatever initial value is asked for |
| `TableModel.OpenAfterUnlink` | Kernel/ipc/semaphore.c:403-451 | After an unlink the name gives a fresh semaphore while the old one lives on for those who hold it |
| `TableModel.CleanupHandles` | Kernel/sys/syscalls.c:171-198 | Exit closes every handle of the process and no other |
| `TableModel.KillKeepsHandles` | Kernel/process/proc.c:333-402 | A handle of a killed process stays, and keeps its semaphore in memory, in every run in which nobody closes that handle by number |
| `TableModel.RemovedFromNamed` | Kernel/ipc/semaphore.c:454-497 | A process is still among the waiters afterwards exactly on semaphores that have been unlinked |
| `TableModel.LastClose` | Kernel/ipc/semaphore.c:377-400 | The last close of an unlinked semaphore frees it exactly when nobody waits |
| `TableModel.Stranded` | Kernel/ipc/semaphore.c:182-194 | Otherwise it and its waiters stay for ever: no later call changes it |
| `SemWitness.DeadWaiterTakesToken` | Kernel/ipc/semaphore.c:454-497 | From start-up, by whole kernel entries: open, two waits, unlink, kill the first, post; a token is left in the counter beside the queue of the second |
| `SemWitness.StrandedRun` | Kernel/ipc/semaphore.c:377-400 | From start-up: open, wait, unlink, close; the semaphore and its waiter stay as they are in every later run |
| `SemTable.SemTable.KsemOpen` | Kernel/ipc/semaphore.c:209-288 | The bucket search and insertion refine a finite map from names to semaphores |
| `SemTable.SemTable.KsemUnlink` | Kernel/ipc/semaphore.c:403-451 | Taking a semaphore out of its bucket removes its name and frees it if unused |
| `SemTable.SemTable.KsemClose` | Kernel/ipc/semaphore.c:377-400 | Closing through the table |
| `SemTable.SemTable.HandleAllocate` | Kernel/sys/syscalls.c:119-141 | The lowest free handle is used; with none the reference is given back |
| `SemTable.SemTable.SysSemClose` | Kernel/sys/syscalls.c:242-248 | sys_sem_close with its range checks |
| `SemTable.SemTable.CleanupProcess` | Kernel/sys/syscalls.c:171-198 | The in-place loop over the handles |
| `SemTable.SemTable.RemoveWaitersFor` | Kernel/ipc/semaphore.c:454-497 | The loop over all buckets and lists removes the process from every named semaphore |
| `PipeProtocol.PipeIsStream` | Kernel/ipc/pipe.c:269-466 | Any readers, writers and closers, every interleaving, whoever is killed and whatever its slot is used for: written = read ++ buffered; a sleeper is queued, about to be woken, or in the hand of a close that was stopped for good; a read returns 0 only with no writer and nothing left |
| `PipeOutcomes.ReadTakes` | Kernel/ipc/pipe.c:278-309 | A read that finds bytes takes as many as it asked for or all there are, the oldest first, and wakes the first writer in the queue |
| `PipeOutcomes.ReadFindsNone` | Kernel/ipc/pipe.c:312-318 | A read that finds none ends if no writer is left, and otherwise goes on to queue |
| `PipeOutcomes.ReadQueues` | Kernel/ipc/pipe.c:336-361 | It queues, last, if the pipe is still empty and has a writer |
| `PipeOutcomes.WritePuts` | Kernel/ipc/pipe.c:389-421 | A write that finds room puts in all it has or as much as fills the buffer, and wakes the first reader in the queue |
| `PipeOutcomes.WriteFindsNone` | Kernel/ipc/pipe.c:382-388 | A write without readers ends; one without room goes on to queue |
| `PipeOutcomes.WriteQueues` | Kernel/ipc/pipe.c:440-457 | It queues, last, if the pipe is still full |
| `PipeOutcomes.EndsCounted` | Kernel/ipc/pipe.c:219-236 | An open adds one end for each side it is for, a close takes one away and wakes the queues that have lost their last peer |
| `PipeOutcomes.WakeReturns` | Kernel/ipc/pipe.c:299-305 | A wake sends a sleeper back to the top of its loop and touches nobody else |
| `PipeOutcomes.SameRequest` | Kernel/ipc/pipe.c:269-466 | A call under way keeps the length or the data it was started with |
| `PipeProtocol.WakeUpDiscipline` | Kernel/ipc/pipe.c:214-466 | One reading and one writing process whose sleep nothing else ends: a queued reader means an empty pipe with a writer, a close in progress or one that was stopped, a queued writer a full pipe, never both |
| `PipeCalls.SleepersHavePeers` | Kernel/ipc/pipe.c:214-466 | Any number of processes, calls not interrupted, no close stopped with somebody to wake: a queue has an open other end or a close waking it; when no call is under way each sleeper is in a queue; in its own, with its other end open, if no sleep was ended by a kill or from elsewhere |
| `PipeCalls.SoundIff` | Kernel/ipc/pipe.c:236-259 | That is lost exactly by stopping a close that has a process in its hand, or a queue without a peer that is not empty |
| `PipeCalls.StrandedSleeps` | Kernel/ipc/pipe.c:243-257 | A process in the hand of a stopped close sleeps on in every later run in which nothing else unblocks or kills it |
| `PipeCalls.CloseWakes` | Kernel/ipc/pipe.c:214-259 | A whole close wakes every queued reader if it leaves no writer, every queued writer if it leaves no reader, and nobody else |
| `PipeProtocol.WriterSafeIff` | Kernel/ipc/pipe.c:443-451 | Cut at every section, a queued writer has a reader or a waker until exactly this: it queues after the last reader has closed between its two checks, or the only close that would wake it is stopped |
| `PipeWitness.StuckWriter` | Kernel/ipc/pipe.c:443-451 | A run, with a close inside a write, that leaves a writer asleep on a full pipe with no reader and no waker, where only a later open or close can help it |
| `PipeWitness.CloserStopped` | Kernel/process/proc.c:202-213 | A run in which the last writer is ended by the timer in its close: a reader is queued with no writer and nobody to wake it |
| `PipeWitness.ReaderStranded` | Kernel/process/proc.c:202-213 | The same one section later: the reader is in no queue and sleeps on in every later run in which nothing else unblocks or kills it |
| `PipeProtocol.ReaderSafeIff` | Kernel/ipc/pipe.c:403-415 | A reader sleeps only on an empty pipe, with any number of processes; this is lost exactly by a write that finds two readers queued |
| `PipeWitness.SleepsOnData` | Kernel/ipc/pipe.c:403-415 | A run of uninterrupted calls that ends with a reader asleep while there is data |
| `PipeProtocol.RoomSafeIff` | Kernel/ipc/pipe.c:292-297 | A writer sleeps only on a full pipe, with any number of processes; this is lost exactly by a read that finds two writers queued |
| `PipeProtocol.EofMeansDrained` | Kernel/ipc/pipe.c:313-352 | A read that returns 0 finds no writer and an empty buffer |
| `PipeProtocol.KeptStep` | Kernel/ipc/pipe.c:89-143 | Whatever happens, no sleeper drops out of both queues and every hand |
| `PipeProtocol.QueuesIff` | Kernel/ipc/pipe.c:89-143 | Each sleeper being in exactly one queue or one hand, and each queue holding sleepers of its own kind only, is lost exactly when a sleeper is killed or unblocked from elsewhere |
| `PipeWitness.KilledReader` | Kernel/ipc/pipe.c:403-415 | A run in which the first of two queued readers is killed, the wake-up of the next write goes to its node, and the living one sleeps beside the data |
| `PipeProtocol.DisciplineStep` | Kernel/ipc/pipe.c:219-259 | Every section keeps the discipline |
| `Pipes.KPipe.CopyOut` | Kernel/ipc/pipe.c:286-290 | The ring loop takes the oldest bytes, in order |
| `Pipes.KPipe.CopyIn` | Kernel/ipc/pipe.c:397-401 | The ring loop appends the bytes, in order |
| `Pipes.KPipe.Read` | Kernel/ipc/pipe.c:278-318 | The first section of kpipe_read over the ring |
| `Pipes.KPipe.ReadAgain` | Kernel/ipc/pipe.c:336-361 | Its second section |
| `Pipes.KPipe.Write` | Kernel/ipc/pipe.c:382-422 | The first section of kpipe_write over the ring |
| `Pipes.KPipe.WriteAgain` | Kernel/ipc/pipe.c:440-457 | Its second section |
| `Pipes.KPipe.Close` | Kernel/ipc/pipe.c:219-236 | The first section of kpipe_close |
| `Pipes.KPipe.CloseEnd` | Kernel/ipc/pipe.c:214-259 | The whole of kpipe_close: counts, then the two loops that wake the queues in order |
| `Pipes.SpanTail` | Kernel/ipc/pipe.c:287-289 | The ring without its oldest byte is the rest of the stream, across the wrap-around |
| `FdTheorems.CountsExact` | Kernel/fs/fd.c:102-307 | After every run: refcount = entries naming the file (+1 for a standard file); each file closed once, when it goes; a pipe's counts are its live files; no file names a freed pipe; an unlinked pipe still there is in use |
| `FdTheorems.InvNext` | Kernel/fs/fd.c:102-307 | Every operation keeps the counts exact |
| `FdTheorems.ReleaseOk` | Kernel/fs/fd.c:133-152 | Releasing a reference keeps all counts exact, closing file and pipe end with the last one |
| `FdTheorems.KCloseOk` | Kernel/ipc/pipe.c:214-264 | Closing an end takes its count away and frees the pipe when it was the last of an unlinked one |
| `FdTheorems.PipeFreedOnce` | Kernel/ipc/pipe.c:469-511 | A pipe that is gone stays gone: it is freed once |
| `PipeNames.ReachesIff` | Kernel/ipc/pipe.c:154-165 | An open of a name reaches a given pipe exactly when it is not unlinked, has that stored name and hash, and no newer pipe in the bucket has the name |
| `PipeNames.OpenReaches` | Kernel/ipc/pipe.c:46-52 | Right after an open of n, an open of m reaches the same pipe exactly when m is the stored name of n and hashes alike |
| `PipeNames.ReopenFinds` | Kernel/ipc/pipe.c:46-52 | So a second open by the same name reaches the same pipe exactly when the name has fewer than 32 characters |
| `PipeNames.LookupStep` | Kernel/ipc/pipe.c:146-211 | What a name finds changes exactly when the name is unlinked, or a longer name that shortens to it is opened and hashes alike |
| `PipeNames.SamePipe` | Kernel/ipc/pipe.c:146-211 | Until then every open of the name, by anyone, reaches the same pipe |
| `PipeNames.SharersAgree` | Kernel/ipc/pipe.c:24-52 | Over any run, two opens that reach one pipe were given names with the same stored form and hash; distinct names of fewer than 32 characters never share |
| `PipeNames.HashSnoc` | Kernel/ipc/pipe.c:24-31 | One byte more multiplies the hash by 33 and adds the signed byte, modulo 2^32 |
| `PipeNames.SharedPrefix` | Kernel/ipc/pipe.c:24-52 | For every name of 31 characters, a pipe opened as that name with a 0 after it is reached by the shorter name and not by its own |
| `FdTheorems.Dup2Entries` | Kernel/fs/fd.c:286-307 | dup2 makes the new entry name the old one's file, which stays open, and touches no other entry |
| `FdOutcomes.CloseEntries` | Kernel/fs/fd.c:246-257 | close empties the entry and touches no other; a file that no other entry names and that is not standard is closed, and its pipe has one end less for each side it was for |
| `FdOutcomes.DestroyEntries` | Kernel/fs/fd.c:167-178 | The end of a table empties all its entries and no others; exactly the files that nobody else names are closed |
| `FdOutcomes.Dup2Outcome` | Kernel/fs/fd.c:286-307 | dup2 closes the file the new entry named before exactly when nothing else names it |
| `FdOutcomes.ForkOutcome` | Kernel/fs/fd.c:181-203 | A fork copies every entry and leaves the other tables alone |
| `FdOutcomes.UnlinkOutcome` | Kernel/ipc/pipe.c:469-511 | An unlink takes the name from the pipe it finds, frees it exactly when no end is open, and touches nothing else |
| `FdOutcomes.OpenFails` | Kernel/sys/syscalls.c:259-292 | An open for neither end does nothing; one without memory leaves no entry, no file and no end behind |
| `FdTheorems.OpenedEntry` | Kernel/sys/syscalls.c:259-292 | Opening a pipe puts a new file in the lowest empty entry; with none left the file is closed again |
| `FdTheorems.ForkCopies` | Kernel/fs/fd.c:181-203 | A forked table starts with its parent's descriptors |
| `FdTheorems.SourceStays` | Kernel/fs/fd.c:300-305 | Releasing one entry's file does not free the file another entry names, even if it is the same |
| `Descriptors.Descriptors.FileRelease` | Kernel/fs/fd.c:133-152 | file_release in place |
| `Descriptors.Descriptors.PipeClose` | Kernel/ipc/pipe.c:221-264 | The counts and the freeing of kpipe_close in place |
| `Descriptors.Descriptors.TableClose` | Kernel/fs/fd.c:246-257 | fd_table_close in place |
| `Descriptors.Descriptors.TableDup2` | Kernel/fs/fd.c:286-307 | fd_table_dup2 in place |
| `Descriptors.Descriptors.TableAllocate` | Kernel/fs/fd.c:272-283 | The loop finds the lowest empty entry |
| `Descriptors.Descriptors.Fork` | Kernel/fs/fd.c:155-203 | The loops of create and clone build the table of a forked process |
| `Descriptors.Descriptors.Destroy` | Kernel/fs/fd.c:167-178 | The loop closes every entry and drops the table |
| `WaitModel.ExactlyOnce` | Kernel/process/proc.c:629-655 | In every run reports are of results that children left, no more often than they were left, and every result left is reported, waiting or overwritten; no child leaves two, so none is reported twice, exactly as long as none is killed after an exit cut short between proc.c:647 and 648 |
| `WaitOutcomes.ResultsAreOfEvents` | Kernel/process/proc.c:629-655 | Told from the events alone: the exit codes of the children that ended, each as often as it was left, are what waits have reported, what is queued in order, what the spare slot holds and what was overwritten there |
| `WaitOutcomes.ReportedAsLeft` | Kernel/process/proc.c:856-936 | Whatever a wait reports is the pid and exit code of a child that ended with it, or 0 for one killed after it was cut short |
| `WaitOutcomes.WaitOutcome` | Kernel/process/proc.c:680-742 | proc_wait reports an acceptable result if there is one, else sleeps if there is a child to wait for, else returns at once |
| `WaitOutcomes.ResumeOutcome` | Kernel/process/proc.c:744-772 | Once woken it returns, with an acceptable result if there is one |
| `WaitOutcomes.ExitOutcome` | Kernel/process/proc.c:629-655 | A child that exits is unlinked, its code is appended or kept in the spare slot, and the parent wakes exactly if it sleeps for this child or for -1 |
| `WaitOutcomes.CutOutcome` | Kernel/process/proc.c:172-222 | An exit cut short: how far it got decides what the parent has of it and whether a later kill notifies the parent again |
| `WaitOutcomes.KillDeadOutcome` | Kernel/process/proc.c:333-402 | That kill does what an exit with code 0 would have done |
| `WaitModel.DistinctIff` | Kernel/process/proc.c:629-655 | The step that makes a child leave a second result is exactly that kill |
| `WaitModel.AnyInExitOrder` | Kernel/process/proc.c:889-901 | Waiting for any child reports the earliest exit not yet reported, while memory lasts |
| `WaitModel.NoLostWakeUp` | Kernel/process/proc.c:680-772 | For targets of -1 and above and exits not cut short by the timer: a parent asleep has a living child that will wake it and nothing to collect; woken by a child it collects |
| `WaitModel.SleepIff` | Kernel/process/proc.c:172-222 | That is lost by exactly these steps: an exit, or a kill of a child cut short, while the parent waits for a number below -1; an exit cut short after leaving a result the sleeping parent accepts, or before when no other child can wake it; going to sleep when every child to wait for was cut short |
| `WaitModel.SleepsForeverIff` | Kernel/process/proc.c:650-654 | Unless something else unblocks it, a sleeping parent sleeps on in every later run exactly when it waits for a number below -1, its wake-up was cut short half-way, or no child can still notify it, be it by exiting or by being killed after it was cut short |
| `WaitModel.LosesIff` | Kernel/process/proc.c:861-867 | A result is overwritten exactly when it sits in the spare slot and another child leaves its own without memory |
| `WaitWitness.WaitBelowMinusOne` | Kernel/process/proc.c:650-654 | From start-up: create a child, wait for -2, the child exits; the parent sleeps on in every later run in which nothing else unblocks it |
| `WaitWitness.WaitCutShort` | Kernel/process/proc.c:597-654 | From start-up: create a child, wait for it, the timer takes the CPU from it in proc_exit after it has left its result; the parent sleeps on beside the result in every later run in which nothing else unblocks it |
| `WaitWitness.KillWakes` | Kernel/process/proc.c:333-402 | Cut short before line 209 of proc.c instead, it leaves the parent asleep with no living child until somebody kills it |
| `WaitWitness.ReportedTwice` | Kernel/process/proc.c:646-648 | From start-up: a child cut short between leaving its result and clearing parent_pid, killed, and then reported by two waits |
| `WaitWitness.ResultOverwritten` | Kernel/process/proc.c:861-867 | From start-up: two children exit without memory and the first result is lost |
| `WaitModel.ConsumeFinds` | Kernel/process/proc.c:881-936 | A look for a result finds one exactly when there is an acceptable one, and the queue comes first |
| `WaitModel.WokenIff` | Kernel/process/proc.c:744-771 | A woken parent has something to collect, unless that was overwritten, until exactly this: something else than a child unblocks it with nothing there |
| `WaitExit.Parent.LinkChild` | Kernel/process/proc.c:807-813 | The new child is linked in front |
| `WaitExit.Parent.FindChild` | Kernel/process/proc.c:837-850 | The search over the linked list |
| `WaitExit.Parent.UnlinkChild` | Kernel/process/proc.c:815-835 | The child is unlinked, the others keep their order |
| `WaitExit.Parent.PushResult` | Kernel/process/proc.c:856-879 | The result is appended, or kept in the spare slot |
| `WaitExit.Parent.ConsumeResult` | Kernel/process/proc.c:881-936 | The linked queue gives up the first acceptable result |
| `WaitExit.Parent.NotifyExit` | Kernel/process/proc.c:629-655 | A child's exit seen by its parent |
| `WaitExit.Parent.Wait` | Kernel/process/proc.c:680-742 | proc_wait until it returns or sleeps |
| `WaitExit.Parent.Resume` | Kernel/process/proc.c:744-772 | proc_wait after it has been woken |

## Left out

- Hypotheses of the scheduler theorems: no process re-nices itself (`SchedEvents.NiceKeepsInv` says what happens then), and exit and kill are of processes without living children (Kernel/process/proc.c:956-1015, the cascade in detach_children, is not part of this model).
- The protocols of semaphores, pipes and waits have events for what reaches a process from outside: being killed, its slot being used again, being unblocked by something else. What a wake of theirs does to a process that waits for something else is such an event there. The clients in MVar and SyncCounter keep to waits, posts and kills, on semaphores that have their names, with nobody unblocked from outside and no new process in a victim's slot.
- Spinlocks: on one processor with interrupts off they are never contended, and a section that takes one is atomic here.
- A timer tick inside proc_exit of a process that returned from its entry function (Kernel/process/proc.c:597-626): TableModel has one between any two steps of sem_cleanup_process_handles, the wait model between any two of the steps that concern the parent, PipeCalls at any point of kpipe_close after its first section. None falls within unlink_child, push_wait_result, proc_unblock, a memory call, or the rest of fd_table_destroy; so the descriptors that stay open, the slot that stays in use, and the second release of the file at which a later kill resumes (Kernel/fs/fd.c:167-178) are not modelled.
- Scheduler.Scheduler.ProcBlock: starts from the block found for the pid; the table scan of proc_by_pid, allocate_slot, the foreground terminal and the pid wrap-around are not modelled. The same holds for the other proc_ methods.
- Scheduler.Scheduler.Schedule: every process in the table has a saved frame, so the fallback for a null frame in schedule (Kernel/process/sched.c:171-179) appears as a branch that is never taken; frames are opaque non-zero tokens.
- FirstFit.Heap.Free: an address that is not a header in memory is taken not to carry the magic number; a program that writes a forged header into its own payload is outside the model.
- FirstFit.Heap.CollectStats: the statistics counters are unbounded, where the code has 64 and 32 bits; first_fit_debug_print and first_fit_check_integrity only report.
- SemTable.SemTable.KsemOpen: the second search after the allocation can find nothing while the creation lock is held, and is left out; bucket lists are sequences, because their linking repeats that of the wait queue.
- Semaphores.Semaphore.Wait: when the waiter cannot be allocated the call returns an error, which mvar.c and test_sync.c ignore; their theorems assume it does not happen. Their programs wait and post only through handles they have opened, and nobody unlinks the semaphore under them.
- Pipes.KPipe.Read: the two waiter queues of a pipe are sequences; their linked form repeats that of the semaphore queue. The waiter allocation between the two sections succeeds.
- Descriptors.Descriptors.PipeClose: changes the counts and frees the pipe; the waking it does is Pipes.KPipe.CloseEnd, on one pipe. The pipe table's buckets appear in FdModel only, as sequences, without the second search of kpipe_open, which finds nothing within one kernel entry.
- WaitExit.Parent.Wait: proc_wait looks at the spare slot once more after consume_wait_result has done so; that second look finds nothing and is left out, here and in Resume. A parent's own exit, which drops its results, ends the model.
- fd_table_install, which nothing calls, and the terminal side of descriptors (Kernel/fs/tty.c).
- The buddy allocator (Kernel/mm/buddy_system.c), which the default build does not use, and the disk image tool (Bootloader/BMFS/bmfs.c).
- Drivers, interrupt tables, assembly, module loading, the shell and the small commands.
