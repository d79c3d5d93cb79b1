# Proofs about the operating-systems exercises

A Dafny model of five programs of this repository, and proofs of what they promise or, where they
break their promise, of exactly when. `dafny verify dfyconfig.toml` checks everything.

| part | program | specification and theorems | code, updated in place |
|---|---|---|---|
| MINIX kernel | scheduling/src/kernel | UserQueue, KernelSpec, SendGraph, KernelInvariant, KernelSteps, KernelSignals, KernelRuns, KernelEffects, KernelEvents, KernelTurns, KernelHistory, KernelCases | ProcTable, KernelLinks, KernelMachine |
| bounded buffer | synchronization | MonitorSpec, MonitorSafety, MonitorLiveness, MonitorLost, MonitorProgress | MonitorBuffer |
| memory allocator | memory-management/src/mm | HoleList, MemorySpec, MemoryRuns, MemoryCases | HoleTable, MemoryManager |
| FAT file system | file-system | FatSpec, FatData, FatGrow, FatCases | FileSystem |
| process tree | syscalls | ProcessTree, TreeCount, TreePaths | TreeTraversals |

`Chains` holds the theory of intrusive linked lists (pointers are table indices) that the kernel, the
allocator and the file system share.

In each part the code is a class over arrays with the source's own fields, loops and branches, or for
the process tree a set of methods over arrays. The methods are proved to do what functions on values
say, and the theorems are about those functions and about every run of them.

**Kernel.** `KernelSpec.Kernel` has one column for each field of struct proc and the queues as
sequences. `KernelInvariant.Inv` says: a process is on the ready queue of its class, once, exactly when
`p_flags` is empty; on the caller queue of the process it sends to, once, exactly when SENDING; the
graph of senders has no cycle; nobody waits for a message, an interrupt or a signal that is at hand;
`sig_procs`, PENDING, SIG_PENDING and `p_pendcount` agree; tasks and servers carry only SENDING and
RECEIVING; and `proc_ptr` is the head of the highest queue that is not empty. `KernelRuns.OpKeeps`
proves it for every operation and `KernelMachine.Machine.Step` for the process table itself.
`Proper` lists what callers must keep to. The source asserts part of it (who may be signalled,
forked, killed) and relies on the rest: no task or server sends to itself, and a request that makes a
process ready comes from the system task, so that TASK_Q is not empty.

What an operation does, and not only what it keeps, is said by columns of the table in `KernelEffects`
and `KernelEvents`: who loses or gains which flag, who is on which queue afterwards, who runs. From
this follows over any run that an accepted message is not lost (`KernelEffects.MessageArrives`,
`KernelEvents.QueuedUntilTaken`), nor an interrupt (`KernelEvents.InterruptNoted`, `OnRecordUntilTaken`,
`HeldUntilFlush`); and over any number of quanta that user processes are served in turn
(`KernelTurns.UserIsServed`, `GroupIsServed`).

`KernelHistory` keeps books over a run: for each process, how many signals `inform` has handed to MM and
how many ends MM has reported since the slot was last forked or cleared. A run may report an end only
while the second number is below the first; then `p_pendcount` is the signals still pending plus the
difference of the two, in every run.

**Buffer.** Threads take atomic steps, one for each semaphore operation, in any interleaving. The
monitor has no queue for signallers: `signal` hands the baton to the waiter and the signaller enters
again like anybody else. In every run, what consumers took and what the buffer holds is in order what
was given to `putA` and `putB` (`MonitorSafety.ValuesArrive`). A wake-up can be lost, but only one of a
B-producer: in every run of any threads nobody is left waiting on A or C for what holds
(`MonitorProgress.OnlyBIsLost`), so a lost wake-up never brings the system to rest while both a producer
A and a consumer have calls left (`MonitorProgress.RunsToTheEnd`).

**Allocator.** A hole list is canonical when it is sorted and no two holes overlap or touch. Memory is
a set of clicks split between holes and live blocks. The state may have a swap area: holes at or
above `swap_base`, of which the click below belongs to nobody. Memory starts without one, and `swap_on`
may add it at any time of a run (`MemoryRuns.SwapRunKeeps`).

**File system.** `FatData.Volume` says that every block that is not free is on the chain of exactly
one live file and that chains are long enough; `Contents()` is then a map from names to byte strings.

**Process tree.** `ProcessTree.Down` gives the generation of a process below a root for any parent
array, cycles included.

## What the code does not do

Each of these is a lemma or a method's contract with the exact condition; the code is modelled as it
stands.

- `mini_send` lets a task or server send to itself and so closes a cycle (`KernelSteps.SelfSendOnly`).
- `do_fork` copies the parent's queue head over the child's: right exactly when the parent is not
  sending and neither slot has callers (`KernelRuns.ForkExactly`). A server that sends to a user which
  then dies is such a caller, in a run from boot (`KernelCases.ForkLosesCaller`).
- `do_endsig` loses count exactly when told of the end of a signal MM does not know
  (`KernelSignals.EndSigExactly`; after boot and one signal, `KernelCases.EndsigMiscounts`).
- The monitor buffer loses a wake-up exactly when at least two threads call `putB` and `putA` is called at
  least four times (`MonitorLost.WakesUpExactly`).
- `swap_in` may put out again a process that it has just brought in, to make room for the next in the
  queue; that process has then left the queue, and is on swap. It can happen to a process exactly when
  its flags, but for ONSWAP and SWAPIN, let `swap_out` take it (`MemoryCases.OutAgainExactly`; the run
  `MemoryCases.OutAgain`), and all other entries that left the queue are in memory
  (`MemoryManager.Manager.SwapInAll`).
- `create` with a negative size leaves the file's first block marked free
  (`FileSystem.FileSystem.Create`, `FatCases.CreateNegative`).
- `delete_` moves all descriptors up from the first one, so it is right exactly for the first file
  (`FatData.DeleteExactly`). It means to close the slots open on the file, but its loop counts up while
  its bound counts down: no slot is left open exactly when none was, or slot 0 alone, on that file
  (`FileSystem.AllClosedExactly`); one left open denotes another file afterwards, or none
  (`FileSystem.FileSystem.Delete`, `FatCases.DeleteLeavesOpen`, `FatCases.DeleteSpoilsOpens`).
- A `write` of no bytes at the very end of a full chain reports that it exceeds the file
  (`FileSystem.FileSystem.WriteSlot`, `FatCases.WriteNothing`).
- The rollback after a `write` without space ends the file's chain at its first block: the allocation
  table still has a chain for each file and nothing else exactly when the file had a single block
  (`FatGrow.RollbackExactly`, `FatCases.RollbackOrphans`). It also takes a block number for a size, so
  all is as before exactly when the size was that one, too (`FileSystem.FileSystem.MakeRoom`).
- `read` and `write` index the table of open files with the number of the descriptor, so they work on
  the file named exactly when the slot of that number is open on it (`FileSystem.FileSystem.Read`,
  `FileSystem.FileSystem.Write`, `FatCases.ReadsAnotherFile`).
- `countDescendantsRecursive` counts too many exactly when the root is its own descendant
  (`TreeCount.RecursionCountsExactly`; two processes, each the other's parent, `TreeCount.CountsTheRoot`).
- Five operations of the file system read past the end of a table, each exactly in one case: `open` of a
  file when all 8 slots are in use, `close` of a name no slot is open on, `read` and `write` of a file
  whose index is 8 or more, and `delete_` of a file when there are 16. The result `overrun` of each
  method says so (`FileSystem.FileSystem.Open`, `Close`, `Read`, `Write`, `Delete`).

Where comments and code differ the model follows the code: `alloc_mem` is first fit or worst fit
(memory-management/src/mm/alloc.c:75-80 speaks of first fit only), and `ready` puts users at the front
of their queue (scheduling/src/kernel/proc.c:336-340 speaks of the end).

## Model

| member | source | states |
|---|---|---|
| UserQueue.SchedRefinesTurn | scheduling/src/kernel/proc.c:434-482 | sched on the user queue is one turn of three FIFO queues: the head goes to the back of its own group, the next group present is up, the list is only permuted |
| UserQueue.SchedTimesRefines | scheduling/src/kernel/proc.c:434-482 | any number of calls of sched is as many turns of the three queues |
| UserQueue.GroupTurns | scheduling/src/kernel/proc.c:448-479 | after n calls of sched a group present is up exactly when n is the number of groups ahead of it, modulo the number of groups present |
| UserQueue.UpOnceInEach | scheduling/src/kernel/proc.c:448-479 | in every window of c consecutive calls, c the number of groups present, a group present is up after exactly one |
| UserQueue.BoundedWaiting | scheduling/src/kernel/proc.c:448-479 | a process at place k of its group is at the head after exactly Wait calls, not before, and Wait is below c * (k + 1) |
| KernelLinks.RoundEnds | scheduling/src/kernel/proc.c:456-479 | a round of the do/while either brings the right process to the head, and the queue is as sched leaves it, or passes a group with no entry |
| KernelLinks.NoFourthRound | scheduling/src/kernel/proc.c:456-479 | three rounds are never all in vain |
| SendGraph.EdgeClosesCycle | scheduling/src/kernel/proc.c:198-224 | a new edge keeps the graph of senders acyclic exactly when its end does not lead back to its start |
| SendGraph.WalkEnds | scheduling/src/kernel/proc.c:200-207 | without cycles the deadlock walk ends within the size of the table |
| KernelSteps.LockedExactly | scheduling/src/kernel/proc.c:173-208 | mini_send returns ELOCKED exactly when the call is legal and its edge would close a cycle through another process |
| KernelSteps.SelfSendOnly | scheduling/src/kernel/proc.c:198-234 | after mini_send the graph is acyclic exactly when the call was not a task or server sending to itself |
| KernelSteps.DeliverKeeps | scheduling/src/kernel/proc.c:210-218 | handing a message to a waiting process keeps the invariant |
| KernelSteps.QueuedKeeps | scheduling/src/kernel/proc.c:219-235 | blocking the caller and queueing it at its destination keeps the invariant |
| KernelSteps.SendKeeps | scheduling/src/kernel/proc.c:158-237 | mini_send keeps the invariant, whichever way it goes |
| KernelSteps.ReceiveKeeps | scheduling/src/kernel/proc.c:258-273 | taking the message of a queued sender and letting it go keeps the invariant |
| KernelSteps.WaitKeeps | scheduling/src/kernel/proc.c:285-295 | blocking in mini_rec when nothing is at hand keeps the invariant but for signals MM has still to be told of |
| KernelSteps.RecKeeps | scheduling/src/kernel/proc.c:242-297 | mini_rec keeps the invariant, informing MM of signals when it is MM that waits |
| KernelSteps.InformDelivers | scheduling/src/kernel/system.c:1153-1158 | inform's message to MM is delivered at once, so its panic cannot happen |
| KernelSteps.InformKeeps | scheduling/src/kernel/system.c:1139-1164 | inform restores the whole invariant, and the best process is picked |
| KernelSignals.CauseSigKeeps | scheduling/src/kernel/system.c:1098-1133 | cause_sig keeps the invariant: counts, flags, sig_procs, and no signal untold while MM waits |
| KernelSignals.EndSigKeeps | scheduling/src/kernel/system.c:711-729 | do_endsig keeps the invariant when MM had been told of the signal |
| KernelSignals.EndSigExactly | scheduling/src/kernel/system.c:711-729 | do_endsig keeps the invariant exactly when nothing is pending and unfinished or MM owes the end of a signal |
| KernelSignals.InterruptIs | scheduling/src/kernel/proc.c:90-115 | the in-line ready of interrupt is ready itself, because a task waiting for an interrupt has no other flag |
| KernelSignals.InterruptKeeps | scheduling/src/kernel/proc.c:51-116 | interrupt keeps the invariant, held up or not |
| KernelSignals.UnholdKeeps | scheduling/src/kernel/proc.c:555-574 | unhold repeats every held interrupt, leaves none, and keeps the invariant |
| KernelSignals.ExitKeeps | scheduling/src/kernel/system.c:444-505 | do_xit keeps the invariant whatever the dying process was doing |
| KernelSignals.NewMapKeeps | scheduling/src/kernel/system.c:325-359 | do_newmap keeps the invariant |
| KernelSignals.SetGroupKeeps | scheduling/src/kernel/system.c:229-245 | do_setGroup keeps the invariant, every group staying in 0..2 |
| KernelSignals.RescheduledKeeps | scheduling/src/kernel/proc.c:434-482 | sched keeps the invariant |
| KernelRuns.Running | scheduling/src/kernel/proc.c:121-139 | the process that traps is runnable and heads the highest queue that is not empty |
| KernelRuns.SysCallKeeps | scheduling/src/kernel/proc.c:121-153 | sys_call keeps the invariant for every function, source or destination and address |
| KernelRuns.UserTrapKeeps | scheduling/src/kernel/proc.c:121-153 | a user whose sendrec is accepted waits for the answer, and another process is picked |
| KernelRuns.ForkExactly | scheduling/src/kernel/system.c:274-319 | do_fork keeps the invariant exactly when the parent is not sending and neither slot has callers |
| KernelRuns.OpKeeps | scheduling/src/kernel/proc.c:51-574 | every operation keeps the whole invariant |
| KernelRuns.BootInv | scheduling/src/kernel/main.c:63-136 | the state main leaves satisfies the invariant |
| KernelEffects.PickProcEffect | scheduling/src/kernel/proc.c:302-328 | the head of the highest queue that is not empty runs, or IDLE; users and IDLE are billed, and nothing else changes |
| KernelEffects.SendEffect | scheduling/src/kernel/proc.c:158-237 | the status of mini_send; on a refusal nothing changes; if the destination waits for the caller or for anybody it loses just RECEIVING, joining its ready queue if that was its last flag; otherwise the caller is SENDING, last in the destination's queue and off its ready queue |
| KernelEffects.RecEffect | scheduling/src/kernel/proc.c:242-297 | mini_rec takes the first acceptable sender's message, and that sender loses SENDING; or else an interrupt on record; or else the caller is RECEIVING and off its ready queue, and MM is told of signals |
| KernelEffects.InformEffect | scheduling/src/kernel/system.c:1139-1164 | nothing without signals to tell; otherwise the first process with PENDING loses it and its pending signals, and MM loses RECEIVING |
| KernelEffects.TrapEffect | scheduling/src/kernel/proc.c:121-153 | the status of sys_call for every function, source or destination and address, and what a call accepted does; one refused changes nothing |
| KernelEffects.MessageArrives | scheduling/src/kernel/proc.c:198-235 | over an accepted SEND or BOTH the message is with a destination that waited for it, which is on its ready queue unless held back otherwise, or its sender is last in the destination's queue |
| KernelEvents.InterruptEffect | scheduling/src/kernel/proc.c:51-116 | a competing interrupt is held, once; one for a task that does not wait for it is put on record; a task that waits for it goes on, at the tail of TASK_Q |
| KernelEvents.InterruptNoted | scheduling/src/kernel/proc.c:78-115 | after an interrupt its task is held, or has it on record, or has stopped waiting and is on TASK_Q |
| KernelEvents.UnholdEffect | scheduling/src/kernel/proc.c:555-574 | each held task that waited is at the tail of TASK_Q, in the order the interrupts came; for the others held it is on record; nothing is held, and nobody else is touched |
| KernelEvents.CauseSigEffect | scheduling/src/kernel/system.c:1098-1133 | a signal already pending is ignored, a further one recorded and counted, a first one takes the process off its queue; MM is told at once if it waits for anybody |
| KernelEvents.EndSigEffect | scheduling/src/kernel/system.c:711-729 | one signal is counted off; with the last the process loses SIG_PENDING, and is ready if that was all; an empty slot is refused |
| KernelEvents.NewMapEffect | scheduling/src/kernel/system.c:350-358 | NO_MAP is gone, and a process with no other flag is on its ready queue |
| KernelEvents.SetGroupEffect | scheduling/src/kernel/system.c:229-245 | accepted exactly for a group in 0..2 and a pid in use; then the group of the first slot with that pid is set and nothing else; otherwise nothing changes |
| KernelEvents.ExitEffect | scheduling/src/kernel/system.c:444-505 | the slot is empty; the process is off the ready queues and the one caller queue it was in; sig_procs counts one less if it had signals untold |
| KernelEvents.ForkEffect | scheduling/src/kernel/system.c:274-319 | the child has the parent's class, SENDING, RECEIVING, partners and callers, waits for its map, and has no signals and group 0; no other slot and no ready queue changes |
| KernelEvents.RecordStays | scheduling/src/kernel/proc.c:276-282 | over any operation an interrupt on record stays so, but for the receive by which its task takes it |
| KernelEvents.HeldStays | scheduling/src/kernel/proc.c:78-84 | over any operation but unhold an interrupt held stays held |
| KernelEvents.SenderStays | scheduling/src/kernel/proc.c:219-273 | over any operation a sender goes on sending, in its destination's queue, unless its message is taken or it dies |
| KernelTurns.QuantumTurn | scheduling/src/kernel/proc.c:434-482 | sched is one turn of the groups of the user queue, and leaves the other queues and columns; the best process runs |
| KernelTurns.QuantaAreTurns | scheduling/src/kernel/proc.c:434-482 | n calls of sched are n turns |
| KernelTurns.UserIsServed | scheduling/src/kernel/proc.c:448-479 | the user at place i of its group heads the user queue after exactly Wait calls of sched, below c * (i + 1), and runs then if no task or server is ready |
| KernelTurns.GroupIsServed | scheduling/src/kernel/proc.c:448-479 | in each c consecutive calls of sched, c the number of groups present, each of these groups has a user at the head exactly once |
| KernelHistory.OpOwes | scheduling/src/kernel/system.c:1098-1164 | over any operation, p_pendcount less the signals pending grows by what inform hands to MM in it, cause_sig and the receives of MM alone calling inform, falls by one with do_endsig, and is zero after a fork or exit |
| KernelHistory.NextBalanced | scheduling/src/kernel/system.c:711-729 | every operation keeps the invariant and the equation of the counts, if MM reports the end only of signals it was told of more often than it has reported |
| KernelHistory.SignalsCounted | scheduling/src/kernel/proc.h:58-58 | in every run that starts with no signal outstanding, p_pendcount is the signals pending plus those told to MM less those reported finished; SIG_PENDING is set exactly while there are any; and such a process is on no ready queue |
| KernelHistory.Reachable | scheduling/src/kernel/proc.c:198-207 | in every reachable state: the deadlock walk ends; a process is on its ready queue exactly when its flags are empty; one with signals pending or told and unfinished is on none; sig_procs counts the PENDING; proc_ptr is the best process |
| KernelHistory.FromBoot | scheduling/src/kernel/main.c:63-136 | all of that holds in every run from boot |
| KernelEvents.OnRecordUntilTaken | scheduling/src/kernel/proc.c:90-95 | in every run an interrupt on record stays so until its task takes it by a receive |
| KernelEvents.HeldUntilFlush | scheduling/src/kernel/proc.c:78-84 | in every run an interrupt held stays held until unhold |
| KernelEvents.QueuedUntilTaken | scheduling/src/kernel/proc.c:219-273 | in every run a sender stays in its destination's queue until that receives its message or it dies |
| KernelCases.ForkLosesCaller | scheduling/src/kernel/system.c:274-319 | a run of four operations from boot after which do_fork breaks the invariant |
| KernelCases.EndsigMiscounts | scheduling/src/kernel/system.c:711-729 | a run of one operation from boot after which do_endsig would break the invariant |
| KernelMachine.Machine.constructor | scheduling/src/kernel/main.c:45-52 | a cleared table, no list in use |
| KernelMachine.Machine.PickProc | scheduling/src/kernel/proc.c:302-328 | the head of the highest queue that is not empty runs; users and idle are billed |
| KernelMachine.Machine.Ready | scheduling/src/kernel/proc.c:333-371 | tasks and servers to the tail of their queue, users to the head, by pointer assignments |
| KernelMachine.Machine.Unready | scheduling/src/kernel/proc.c:376-429 | takes one process out of its queue by a walk along the links, mends the tail pointer, picks anew when the head goes |
| KernelMachine.Machine.RotateUsers | scheduling/src/kernel/proc.c:450-454 | the four assignments move the head of the user queue to its tail |
| KernelMachine.Machine.BringUp | scheduling/src/kernel/proc.c:459-477 | moves the group's first process to the head by relinking |
| KernelMachine.Machine.Sched | scheduling/src/kernel/proc.c:434-482 | the linked user queue has taken one turn of the groups, as SchedRefinesTurn has it, nothing else has changed, and the best process runs |
| KernelMachine.Machine.NextUp | scheduling/src/kernel/proc.c:456-479 | the do/while ends with the next group that has an entry brought to the head |
| KernelMachine.Machine.WouldLock | scheduling/src/kernel/proc.c:198-208 | the walk ends and finds the caller exactly when it is reached from the destination |
| KernelMachine.Machine.QueueCaller | scheduling/src/kernel/proc.c:226-234 | walks to the end of the caller queue and links the caller in |
| KernelMachine.Machine.DropCaller | scheduling/src/kernel/proc.c:266-269 | unlinks a sender from the caller queue |
| KernelMachine.Machine.MiniSend | scheduling/src/kernel/proc.c:158-237 | on the linked table, the state and status that SendEffect describes |
| KernelMachine.Machine.MiniRec | scheduling/src/kernel/proc.c:242-297 | on the linked table, its search of the caller queue included, the state that RecEffect describes |
| KernelMachine.Machine.SysCall | scheduling/src/kernel/proc.c:121-153 | the same for sys_call, and the invariant holds again |
| KernelMachine.Machine.Interrupt | scheduling/src/kernel/proc.c:51-116 | on the linked table, the state that InterruptEffect describes |
| KernelMachine.Machine.HoldInterrupt | scheduling/src/kernel/proc.c:78-84 | appends to the list of held interrupts |
| KernelMachine.Machine.Unhold | scheduling/src/kernel/proc.c:555-574 | the loop ends and has repeated all held interrupts, oldest first |
| KernelMachine.Machine.Inform | scheduling/src/kernel/system.c:1139-1164 | finds the first process with PENDING from MM's slot on and tells MM |
| KernelMachine.Machine.CauseSig | scheduling/src/kernel/system.c:1098-1133 | records the signal and holds the process back |
| KernelMachine.Machine.DoEndsig | scheduling/src/kernel/system.c:711-729 | counts one signal as finished; the last one lets the process go |
| KernelMachine.Machine.DoNewmap | scheduling/src/kernel/system.c:325-359 | clears NO_MAP and makes the process ready if that was all |
| KernelMachine.Machine.FindProcDescriptor | scheduling/src/kernel/system.c:202-214 | the first slot with this pid |
| KernelMachine.Machine.DoSetGroup | scheduling/src/kernel/system.c:229-245 | sets the group, or refuses |
| KernelMachine.Machine.SearchQueue | scheduling/src/kernel/system.c:477-492 | takes a process out of one caller queue, if it is there |
| KernelMachine.Machine.LeaveCallerQueue | scheduling/src/kernel/system.c:474-494 | the scan over all slots takes the dying process out of the one queue it is in |
| KernelMachine.Machine.DoXit | scheduling/src/kernel/system.c:444-505 | the slot is cleared and no queue holds it |
| KernelMachine.Machine.DoFork | scheduling/src/kernel/system.c:274-319 | the slot copied and corrected |
| KernelMachine.Machine.Boot | scheduling/src/kernel/main.c:63-136 | makes all processes but IDLE and HARDWARE ready; the invariant holds |
| KernelMachine.Machine.Step | scheduling/src/kernel/proc.c:51-574 | any operation takes the linked table from one state that satisfies the invariant to the next |
| MonitorSafety.InitialInv | synchronization/monitors/buffer.cpp:105-168 | before any thread starts the invariant holds |
| MonitorSafety.Alone | synchronization/utils/monitor.h:111-132 | a thread inside is alone and no semaphore holds the baton |
| MonitorSafety.StepBaton | synchronization/utils/monitor.h:111-132 | monitor semaphore + condition semaphores + threads inside stays 1 |
| MonitorSafety.StepCounted | synchronization/utils/monitor.h:83-132 | for each condition: threads past ++waitingCount and not through w.p() = waitingCount + semaphore value |
| MonitorSafety.StepActsSoundly | synchronization/monitors/buffer.cpp:47-102 | a thread about to push or pop, and a waiter on its way in, have their own predicate true |
| MonitorSafety.StepFifo | synchronization/monitors/buffer.cpp:47-102 | what was pushed = what was popped, then the buffer |
| MonitorSafety.StepKeeps | synchronization/monitors/buffer.cpp:47-102 | every step of every thread keeps all of this, and none pops an empty buffer |
| MonitorSafety.SingleIfSuffices | synchronization/monitors/buffer.cpp:47-102 | in every run of any number of threads a single if before the wait is enough; size stays in 0..9; mutual exclusion; FIFO order |
| MonitorSafety.ValuesArrive | synchronization/monitors/buffer.cpp:47-102 | in every run the values popped and then those in the buffer are the arguments of putA and putB, in the order of the pushes; consumers have popped as many as they took steps past their wait |
| MonitorSafety.OncePerCall | synchronization/monitors/buffer.cpp:47-102 | in every run a thread pushes or pops once for each of its calls |
| MonitorLiveness.Acts | synchronization/monitors/buffer.cpp:32-45 | after a push or pop at most the waiters about to be signalled have their wish, and what they then find is as handed over |
| MonitorLiveness.StepNoneLost | synchronization/monitors/buffer.cpp:47-102 | with at most one B-producer a step leaves nobody registered on a condition that holds once the monitor is free |
| MonitorLiveness.NoLostWakeup | synchronization/monitors/buffer.cpp:47-102 | no run loses a wake-up, with at most one B-producer or at most three calls of putA |
| MonitorLost.LostWakeup | synchronization/monitors/buffer.cpp:47-85 | otherwise some run does |
| MonitorLost.WakesUpExactly | synchronization/monitors/buffer.cpp:47-102 | no interleaving loses a wake-up if and only if at most one thread calls putB or putA is called at most three times |
| MonitorProgress.StepNoneLostAC | synchronization/monitors/buffer.cpp:47-102 | whatever the threads, every step leaves nobody waiting on A or C for what holds |
| MonitorProgress.OnlyBIsLost | synchronization/monitors/buffer.cpp:47-102 | in every run of any threads, whenever the monitor is free nobody is registered on A or C whose condition holds |
| MonitorProgress.AtRest | synchronization/monitors/buffer.cpp:47-102 | when nobody can step, a producer A left faces five values or more, a consumer left an empty buffer |
| MonitorProgress.NotStuck | synchronization/monitors/buffer.cpp:47-102 | with calls of putA and of get left, some thread can take a step |
| MonitorProgress.RunsEnd | synchronization/monitors/buffer.cpp:47-102 | a run takes at most ten steps for each call |
| MonitorProgress.RunsToTheEnd | synchronization/monitors/buffer.cpp:105-168 | whatever the threads, a run has at most ten steps a call, and the system rests only with all producers A or all consumers done: a producer A left means at least five values, a consumer left means none |
| MonitorBuffer.Semaphore.P | synchronization/utils/monitor.h:43-51 | one less |
| MonitorBuffer.Semaphore.V | synchronization/utils/monitor.h:53-61 | one more |
| MonitorBuffer.Condition.Signal | synchronization/utils/monitor.h:88-98 | wakes a waiter if one is counted, and says so |
| MonitorBuffer.Buffer.Test | synchronization/monitors/buffer.cpp:51-51 | the if before the wait: go on, or be counted and leave |
| MonitorBuffer.Buffer.SignalTo | synchronization/utils/monitor.h:128-132 | signals if the predicate holds; the signaller goes outside only if it woke somebody |
| MonitorBuffer.Buffer.PushOrPop | synchronization/monitors/buffer.cpp:53-90 | pushes the argument at the back, or erases at the front |
| MonitorBuffer.Buffer.Step | synchronization/monitors/buffer.cpp:47-102 | a thread's next step on the objects is the step of the specification, and the invariant holds again |
| HoleList.BeyondSwapBase | memory-management/src/mm/alloc.c:91-107 | the scan may stop at swap_base: no hole beyond can be used |
| HoleList.TakeCanonical | memory-management/src/mm/alloc.c:94-99 | biting a block off keeps the list sorted and coalesced |
| HoleList.TakeCovers | memory-management/src/mm/alloc.c:94-99 | exactly the block's clicks stop being free |
| HoleList.FreeCanonical | memory-management/src/mm/alloc.c:133-231 | free_mem with merge keeps the list sorted and coalesced |
| HoleList.FreeCovers | memory-management/src/mm/alloc.c:133-231 | exactly the block's clicks become free |
| HoleList.CanonicalUnique | memory-management/src/mm/alloc.c:198-231 | two sorted coalesced lists of the same clicks are the same list |
| HoleList.FreeUndoesTake | memory-management/src/mm/alloc.c:72-174 | freeing what was just allocated restores the very same list |
| HoleList.FreeOrderIrrelevant | memory-management/src/mm/alloc.c:133-231 | disjoint blocks freed in any order give the same list |
| HoleTable.Table.constructor | memory-management/src/mm/alloc.c:254-258 | all slots unused, linked in order |
| HoleTable.Table.DelSlot | memory-management/src/mm/alloc.c:179-196 | unlinks a hole and puts its slot on the unused list; the two lists still partition the table |
| HoleTable.Table.Bite | memory-management/src/mm/alloc.c:93-102 | takes a block off a hole, deleting it when used up |
| HoleTable.Table.FindFirst | memory-management/src/mm/alloc.c:90-107 | the first hole below swap_base that is big enough, or none is |
| HoleTable.Table.FindBiggestHole | memory-management/src/mm/alloc.c:52-70 | the biggest hole below swap_base, the lowest of equals, if it is big enough, or none is |
| HoleTable.Table.FindSwapHole | memory-management/src/mm/alloc.c:433-437 | the first hole of the swap area that is big enough, or none is |
| HoleTable.Table.AbsorbNext | memory-management/src/mm/alloc.c:215-219 | a hole takes over its successor if they touch |
| HoleTable.Table.MergeFrom | memory-management/src/mm/alloc.c:201-231 | merge on the linked table is merge on the list |
| HoleTable.Table.LinkIn | memory-management/src/mm/alloc.c:146-172 | takes an unused slot and links it in |
| HoleTable.Table.FindPlace | memory-management/src/mm/alloc.c:156-168 | where the block belongs in address order |
| HoleTable.Table.FreeMem | memory-management/src/mm/alloc.c:133-174 | free_mem on the linked table is free_mem on the list; full exactly when no slot is unused |
| MemorySpec.AllocKeeps | memory-management/src/mm/alloc.c:72-128 | free and allocated clicks still partition memory after an allocation |
| MemorySpec.FreeKeeps | memory-management/src/mm/alloc.c:133-174 | and after a block is freed |
| MemorySpec.MoveKeeps | memory-management/src/mm/alloc.c:438-451 | and after a process's block is moved |
| MemorySpec.HoleBound | memory-management/src/mm/alloc.c:24-24 | no more holes than live blocks and ends of stretches of memory |
| MemoryRuns.NoStraddle | memory-management/src/mm/alloc.c:278-281 | no hole reaches across swap_base |
| MemoryRuns.SwapOnKeeps | memory-management/src/mm/alloc.c:288-304 | turning swapping on keeps the invariant, with the swap area as memory, and makes one separate hole behind all others |
| MemoryRuns.EventKeeps | memory-management/src/mm/alloc.c:72-459 | every event keeps the invariant: partition, separate swap area, ONSWAP exactly above swap_base |
| MemoryRuns.RunKeeps | memory-management/src/mm/alloc.c:72-459 | every run keeps it |
| MemoryRuns.SwapRunKeeps | memory-management/src/mm/alloc.c:278-304 | any run, swapping turned on, any run: the invariant holds |
| MemoryRuns.AllocIsFresh | memory-management/src/mm/alloc.c:91-102 | a block returned at any time lies below swap_base and meets no live block |
| MemoryRuns.SwapOutShrinks | memory-management/src/mm/alloc.c:407-459 | each successful swap_out leaves one process fewer in memory |
| MemoryRuns.LastVictimIsLast | memory-management/src/mm/alloc.c:418-451 | the process swapped out is the last to be considered again: it is not the next victim while another may go |
| MemoryRuns.SwapRun | memory-management/src/mm/alloc.c:362-459 | over a run of swaps a process keeps its size and its other flags; it still wants in exactly when it did and has not come in, and is on swap exactly when its last move was out |
| MemoryRuns.TableNeverFull | memory-management/src/mm/alloc.c:145-146 | in no run is the table full while it has a slot for each live block and each end |
| MemoryCases.OutAgain | memory-management/src/mm/alloc.c:362-459 | for any flags swap_out may take, a run in which swap_in brings a process with these flags in and puts it out again for the next one |
| MemoryCases.OutAgainExactly | memory-management/src/mm/alloc.c:362-459 | a process that wants in can come in and be put out again in a run of swaps if and only if swap_out may take one with its other flags |
| MemoryManager.NotMovedOut | memory-management/src/mm/alloc.c:422-425 | a process swap_out would not touch is not put out again in a run of swaps |
| MemoryManager.Manager.MemInit | memory-management/src/mm/alloc.c:236-283 | the holes are exactly the chunks and swap_base lies above them all |
| MemoryManager.Manager.SwapOn | memory-management/src/mm/alloc.c:288-304 | the swap area is a hole above memory, or the table of holes was full |
| MemoryManager.Manager.FreeBlock | memory-management/src/mm/alloc.c:133-174 | free_mem of a block handed out; full only when the table is crowded |
| MemoryManager.Manager.FindVictim | memory-management/src/mm/alloc.c:418-437 | goes round the process table and finds the first process after the last victim that may go and fits the swap area, or there is none |
| MemoryManager.Manager.SwapOutOne | memory-management/src/mm/alloc.c:407-459 | moves that process's data to the swap area, or nobody can go |
| MemoryManager.Manager.AllocMem | memory-management/src/mm/alloc.c:72-128 | the loop ends; a base is the chosen hole's after the swaps made; NO_MEM only when nothing fits and nobody can be swapped out |
| MemoryManager.Manager.Dequeue | memory-management/src/mm/alloc.c:379-398 | unlinks a process from the swap-in queue |
| MemoryManager.Manager.BringIn | memory-management/src/mm/alloc.c:382-397 | brings one process in, or no memory for it is left |
| MemoryManager.Manager.ServeOne | memory-management/src/mm/alloc.c:373-401 | one round of swap_in: an entry that still wants in found no hole big enough below swap_base and nobody who could be swapped out; one that came in lies below swap_base, not on swap |
| MemoryManager.Manager.SwapInAll | memory-management/src/mm/alloc.c:362-402 | the loop ends; the queue then holds, in order, those still wanting in, and each of them was refused memory at some time of the run; each of the others that wanted in came in, and lies below swap_base exactly when it was not put out again |
| FatSpec.ChainReplaced | file-system/fs.cpp:237-250 | the partition of blocks into chains survives the change of one chain |
| FatSpec.ChainAdded | file-system/fs.cpp:70-90 | and a new chain on free blocks |
| FatSpec.ChainFreed | file-system/fs.cpp:309-315 | and the freeing of a chain |
| FatSpec.OnChain | file-system/fs.cpp:178-195 | a walk along a chain stays on blocks in use and ends at the last one, and only there |
| FatData.AddrInjective | file-system/fs.cpp:182-182 | no two bytes of a file share a place in memory |
| FatData.WriteStep | file-system/fs.cpp:276-282 | one memcpy extends what has been written and touches nothing else |
| FatData.WriteEnds | file-system/fs.cpp:257-291 | the file's bytes are the old ones with the data spliced in at the offset |
| FatData.WriteElsewhere | file-system/fs.cpp:257-291 | every other file's bytes are unchanged |
| FatData.FilesShifted | file-system/fs.cpp:317-322 | moving the descriptors up after the first file goes removes just that file |
| FatData.DeleteExactly | file-system/fs.cpp:299-335 | after delete_ the table is in order if and only if the file was the first |
| FatGrow.GrowMore | file-system/fs.cpp:229-251 | a free block linked in behind the last extends the chain |
| FatGrow.GrownVolume | file-system/fs.cpp:226-254 | a file given the blocks its new size needs leaves the volume in order |
| FatGrow.RollbackExactly | file-system/repair.cpp:32-49 | after the rollback the allocation table is as it was, and can be read as one chain for each file and nothing else, if and only if the file had one block |
| FatGrow.WroteFiles | file-system/fs.cpp:202-297 | a write replaces exactly its range of one file, which grows if need be |
| FileSystem.FileSystem.constructor | file-system/fs.cpp:15-35 | an empty file system |
| FileSystem.FileSystem.DuplicateName | file-system/misc.cpp:4-12 | whether a descriptor has the name |
| FileSystem.FileSystem.CountFreeBlocks | file-system/misc.cpp:14-23 | the number of free blocks |
| FileSystem.FileSystem.FirstFreeBlock | file-system/misc.cpp:25-33 | the first free block, or none |
| FileSystem.FileSystem.FindFileIndexByName | file-system/misc.cpp:40-49 | the file's index, or -1 |
| FileSystem.FileSystem.FindOpenFileIndexByName | file-system/misc.cpp:51-62 | the first slot open on the name; reads past the table if and only if there is none |
| FileSystem.FileSystem.FindOpenFileFreeSlot | file-system/misc.cpp:64-73 | the first free slot; reads past the table if and only if there is none |
| FileSystem.FileSystem.AllocateChain | file-system/fs.cpp:70-90 | as many free blocks as the size needs, at least one, linked and ended |
| FileSystem.FileSystem.Create | file-system/fs.cpp:41-100 | each refusal exactly when due, and then nothing changes; a file of that size under that name and no other change; in order exactly when the size is not negative |
| FileSystem.FileSystem.Open | file-system/fs.cpp:102-121 | the first free slot denotes the file, offset 0; the limit on open files is never met; reads past the table if and only if the file exists and no slot is free |
| FileSystem.FileSystem.Close | file-system/fs.cpp:123-139 | the first slot open on the name is freed; reads past the table if and only if there is none |
| FileSystem.FileSystem.CopyOut | file-system/fs.cpp:164-195 | exactly the bytes asked for, block by block; the chain never ends early |
| FileSystem.FileSystem.Read | file-system/fs.cpp:141-200 | reads past the table if and only if the file's index is 8 or more; otherwise min(size, rest) bytes from the slot's offset, of the file named if and only if the slot of that file's number is open on it; end of file is never reported; every offset stays within its file unless moved below 0 |
| FileSystem.FileSystem.ReadSlot | file-system/fs.cpp:151-199 | the bytes are those of the file the slot is open on; the end-of-file branch is dead |
| FileSystem.FileSystem.Grow | file-system/fs.cpp:229-251 | adds the blocks needed, if there are as many |
| FileSystem.FileSystem.FindLast | file-system/fs.cpp:237-239 | the walk ends at the chain's last block |
| FileSystem.FileSystem.TransactionRollback | file-system/repair.cpp:32-49 | what the rollback makes of the table and the size |
| FileSystem.FileSystem.MakeRoom | file-system/fs.cpp:215-255 | the file has room and the volume is in order; or space ran out, and the volume is in order if and only if the file has one block, unchanged if and only if its size is the one set, too |
| FileSystem.FileSystem.CopyIn | file-system/fs.cpp:257-291 | writes exactly the data; reports an exceeded size exactly at the end of a full chain |
| FileSystem.FileSystem.WriteSlot | file-system/fs.cpp:212-296 | status, contents, open table; after no space the volume is in order if and only if the file has one block |
| FileSystem.FileSystem.Write | file-system/fs.cpp:202-297 | reads past the table if and only if the file's index is 8 or more; otherwise the status is exact, and on success one file has the data spliced in at its offset and nothing else changes; it is the file named if and only if the slot of that file's number is open on it |
| FileSystem.FileSystem.FreeBlocks | file-system/fs.cpp:309-315 | the loop ends and exactly the chain's blocks are free |
| FileSystem.FileSystem.MoveUp | file-system/fs.cpp:317-322 | all descriptors move up by one, or the table was full and the loop reads past it |
| FileSystem.FileSystem.Erase | file-system/fs.cpp:305-322 | blocks freed and descriptors moved: in order exactly when it was the first file, and then just that file is gone |
| FileSystem.FileSystem.CloseSlots | file-system/fs.cpp:324-329 | exactly the slots open on the file are closed that come early enough: slot number plus hits before it below the number of open slots |
| FileSystem.FileSystem.Delete | file-system/fs.cpp:299-335 | reads past the table if and only if the file exists and the table is full; otherwise in order exactly when the first file goes, and then just that file is gone; no slot left open exactly when none was or slot 0 alone on that file; the open table in order exactly when each slot left open is within the file that moved to its index; a slot left open denotes another file |
| FileSystem.AllClosedExactly | file-system/fs.cpp:324-329 | delete_ leaves no slot open if and only if none was open, or slot 0 alone, on that file |
| FileSystem.HalfIsClosed | file-system/fs.cpp:324-329 | with the first n slots open on the file and no other slot in use, exactly the slots i with 2 * i < n are closed |
| FatCases.DeleteLeavesOpen | file-system/fs.cpp:317-329 | two slots open on the deleted file: slot 1 stays open and denotes the next file |
| FatCases.DeleteSpoilsOpens | file-system/fs.cpp:317-329 | a slot open on the other of two files denotes none after the first is deleted |
| FatCases.ReadsAnotherFile | file-system/fs.cpp:143-152 | with the second file opened first, reading from the first gives the byte of the second |
| FatCases.RollbackOrphans | file-system/repair.cpp:32-49 | a two-block file and too few free blocks: after the rollback the second block is in use, on no chain |
| FatCases.CreateNegative | file-system/fs.cpp:41-100 | on an empty file system, create with size -1 succeeds and leaves the volume out of order |
| FatCases.WriteNothing | file-system/fs.cpp:257-268 | create, open and read of one full block, then a write of no bytes: said to exceed the file |
| ProcessTree.DownUnique | syscalls/dummy/misc_dummy.c:215-215 | a process has one generation below a root, for any parent array |
| ProcessTree.DownBound | syscalls/dummy/misc_dummy.c:198-198 | no generation lies deeper than the table is long |
| ProcessTree.RecursiveExactly | syscalls/dummy/misc_dummy.c:356-376 | the recursion that leaves out each process itself and the one that leaves out the root agree if and only if the root is not its own descendant within N generations |
| TreeCount.IsNew | syscalls/dummy/misc_dummy.c:331-348 | a child is met for the first time, so the queue is not full |
| TreeCount.CountIs | syscalls/dummy/misc_dummy.c:320-353 | what the queue counts is the number of descendants down to N generations |
| TreeCount.RootedCounts | syscalls/dummy/misc_dummy.c:301-376 | and so is the recursive count that leaves out the root |
| TreeCount.RecursionCountsExactly | syscalls/dummy/misc_dummy.c:356-376 | countDescendantsRecursive is that number if and only if the root is not its own descendant within N generations, and never less |
| TreeCount.CountsTheRoot | syscalls/dummy/misc_dummy.c:356-376 | two processes, each the other's parent: the recursion counts two, one is a descendant |
| TreePaths.LongestUnique | syscalls/minix/src/mm/misc.c:72-117 | there is one longest path length |
| TreePaths.PushFits | syscalls/minix/src/mm/misc.c:65-68 | a child being pushed is not on the stack, so no push is dropped |
| TreePaths.PopVisits | syscalls/minix/src/mm/misc.c:95-96 | a process popped for the first time has its generation as depth |
| TreePaths.SearchEnds | syscalls/minix/src/mm/misc.c:88-116 | with the stack empty the maximum is the longest path to a childless process |
| TreeTraversals.CountDescendants | syscalls/dummy/misc_dummy.c:301-354 | the queue never overruns, and the count is the number of descendants |
| TreeTraversals.CountAllDescendants | syscalls/dummy/misc_dummy.c:193-224 | the same without a limit on generations |
| TreeTraversals.CountDescendantsRecursive | syscalls/dummy/misc_dummy.c:356-376 | the loop and the recursion compute Recursive |
| TreeTraversals.ScoresCount | syscalls/dummy/misc_dummy.c:378-402 | each process's recursive count is its number of descendants if and only if it is not below itself within N generations, and never less |
| TreeTraversals.MaxNDescendants | syscalls/dummy/misc_dummy.c:378-402 | the first process with the highest recursive count, and its pid; never below the number of descendants of any, and that number for processes not below themselves |
| TreeTraversals.PushToStack | syscalls/minix/src/mm/misc.c:16-26 | pushes, or drops on a full stack |
| TreeTraversals.ProcHasChildren | syscalls/minix/src/mm/misc.c:48-58 | whether any process in use has this parent |
| TreeTraversals.PushChildrenToStack | syscalls/minix/src/mm/misc.c:60-70 | pushes every child in use but the one excluded, and drops none |
| TreeTraversals.DeterminePathToChildless | syscalls/minix/src/mm/misc.c:72-117 | ends for any parent array, cycles included, and returns the length of the longest path to a childless process, or -1 |
| TreeTraversals.LongestChildlessChain | syscalls/minix/src/mm/misc.c:119-144 | the maximum over all eligible starts, and the pid of the first that has it |

## Left out

- KernelSteps.SendKeeps: excludes a process that sends to itself; SelfSendOnly covers that call.
- KernelRuns.OpKeeps: excludes what Allowed excludes; ForkExactly, EndSigExactly and SelfSendOnly say what happens there. KernelHistory replaces the condition on do_endsig by one on what MM was told and has reported.
- MemoryManager.Manager.AllocMem: the panic of free_mem inside swap_out is an outcome, with the crowding that causes it, and nothing is said of the state after it.
- 16-bit and 32-bit integers: sizes and offsets in the file system never exceed 2048 in a state in order; `phys_clicks` arithmetic is unbounded here, so the wrap-around of `swap_maxsize` (memory-management/src/mm/alloc.c:282) is not modelled.
- The swap file that `swap_on` opens, `swap_off`, and `swap_inqueue`: file handling, and a queue that may hold a stale entry of a process that died (memory-management/src/mm/alloc.c:288-357).
- FileSystem.FileSystem.Delete: says nothing of the state after an overrun, nor do Open, Close, Read and Write but for what they leave unchanged.
- System calls that cannot fail here: `sys_newmap`, `rw_seg`, `lseek`, `sys_copy`, and `check_pending` after a swap-in.
- Message bodies, address checks, memory maps, segments, stack guards: the address check of `mini_send` is a parameter.
- `do_exec`, `do_trace`, `do_sysctl`, `do_getGroup`, `do_setQuants` and the clock task's accounting of quanta; `sched` is an operation that may come at any time.
- Interrupts that come while `unhold` has interrupts enabled, and the `switching` flag: whether an interrupt competes is a parameter.
- struct proc is a value in an array: assignment to one field is an update of that slot. Links are slot numbers, and the three cases of `unready`, which differ only in their queue, are one.
- `synchronization/semaphores/buffer.cpp`: `putA` releases the mutex twice.
- Saving to disk, restoring, `repair` at start-up, and the malfunction flag of the file system; names and bytes are characters.
- `maxDescendantsInBounds`: its test `A <= descendants <= B` is no range test in C. `do_longestChildlessChain` calls a function this file does not define (syscalls/minix/src/mm/misc.c:152).
- `do_hole_map`, `do_worst_fit`: plumbing.
