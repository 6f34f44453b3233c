# The ZeOS process and memory manager, and its neighbours

A model of the ZeOS teaching kernel (directory `zeos/`) as one state machine over boot, fork, exit, block, unblock, clock
interrupt and tick, system call entry and exit, stores of processes and of the kernel on their behalf, TLB fills and
evictions, with theorems about every reachable state and every run; and of the fork server in `sockets/` as an interleaved admission protocol.

## How it is built

| layer | files |
|---|---|
| constants as parameters, with what the code needs of them, and the shipped values | `Params.dfy` |
| sequences of task numbers; the round-robin policy; its ranking function; its laws of dispatch | `TaskQueues.dfy`, `RoundRobin.dfy`, `BoundedWaiting.dfy`, `ReadyLine.dfy` |
| frame map; page tables, CR3, TLB, memory bytes; tick accounting | `Frames.dfy`, `Memory.dfy`, `Ticks.dfy` |
| the kernel as a state machine, its invariant and its runs | `Kernel.dfy`, `KernelRuns.dfy` |
| theorems about every run: capacity, isolation, PIDs; address spaces; order of service; time; the wrap of `CPU_QUANTUM`; the shipped kernel | `KernelTheorems.dfy`, `AddressSpaces.dfy`, `Service.dfy`, `Accounting.dfy`, `Blocking.dfy`, `Lives.dfy`, `IdleWrap.dfy`, `Zeos.dfy` |
| the code itself: pointers, arrays, loops, proved to be the steps above | `Lists.dfy`, `Mmu.dfy`, `Statistics.dfy`, `Machine.dfy`, `Terminal.dfy` |
| kernel stack and `entry.S`; `do_div`; `itoa`; the server | `KernelStack.dfy`, `Division.dfy`, `Libc.dfy`, `Server.dfy` |

The imperative layer is a class per structure that the source updates in place. Its methods are proved equal to step functions
on values (`ensures Valid() && Abs() == ForkStep(old(Abs()), clk)`), and what the kernel promises is proved about those step
functions and their runs, so every theorem about runs is a theorem about the methods. `Machine.PowerOn` builds a machine from
nothing and boots it, for any valid configuration.

A state carries the frame map, one page table per PCB, CR3, the TLB, the bytes of every frame, the lists, `CPU_QUANTUM`, the
quanta, the PCBs and `PID_MAX`. `NR_TASKS`, the page counts and the first quantum are parameters (`Params.Config`); every
theorem holds for all values that satisfy `Config.Valid`, and `Zeos.dfy` draws the conclusions for the shipped ones.

## What the model assumes

- System calls and the clock routine run with interrupts off (interrupt gates, `zeos/interrupt.c:66-69`), so each is atomic
  but for the switches it makes itself.
- The clock routine (`zeos/interrupt.c:116-137`, a file in ISO 8859-1), under the round-robin policy, is two steps. Interrupt:
  charge user time. Tick: decrement `CPU_QUANTUM`, and if it is used up put the running process, but not idle, at the end of
  the ready list and schedule. Between the two it calls the console emulation, which is in a library without source; all it
  can do to the state of the model is to call `unblock_process`, any number of times. If the quantum is used up that takes
  the processor away in the middle of the routine, and the tick follows when its task runs again: the model has such tasks
  (`FromConsole`) and these runs. Idle gets into the ready list only this way.
- `sys_read` and the policy switch are in libraries as well; they reach the scheduler only through `block_process` and
  `unblock_process`, on any number of blocking queues. `CPU_QUANTUM` starts at 0, as static data does.
- Idle never calls fork, exit or block. `PID_MAX` has not reached `INT_MAX` when fork is called.
- Directory i points to table i (`zeos/mm.c:39-53`); `current()` and `list_entry` are the bijection between stacks, nodes and
  task numbers. PCBs live apart from the frame bytes; the bytes of kernel pages are arbitrary.
- Every `get_ticks()` result is an arbitrary 32-bit word.
- A C function keeps its frame pointer in ebp and, from there up, writes only its own arguments.
- An access to an address that is not mapped is a page fault and has no other effect; the kernel does not come back from one.
- In the server `waitpid` restarts after a signal, children are never stopped, and the handler stays installed.

## Where the code is not what one would expect

- `block_process` assigns `system_ticks` (`zeos/sched.c:399`): the accumulated value is lost, and what is left is the time from
  the last reading to the switch (`BlockCharges`). The conservation law carries the exact amount (`Ledger.discarded`), which over
  every run is the system time that the process had at each of its blocks (`CountersOverRun`), and the gaps between paired
  clock reads (`Ledger.gaps`).
- `set_ini_stats` leaves `ready_ticks` (`zeos/sched.c:203-214`): a child inherits its parent's (`Ledger.inherited`); it also
  inherits the quantum (`NewProcess`).
- `ret_from_fork` charges the child's first wait to system time, counts no switch and leaves the state `ST_READY` while the
  child runs (`FirstWaitIsSystemTime`).
- No PCB is ever seen in state `ST_BLOCKED` between steps: the switch overwrites it (`TimeIsConserved`).
- A fork that finds a free PCB but no room for the data leaves the parent's PID in that PCB. A step leaves the free PCBs
  with PID -1 if and only if it is not such a fork (`FreePidsStayClean`). The shortcut of `sys_get_stats` agrees with the scan
  if and only if no such PCB precedes the running process's (`ShortcutAgrees`), and when memory is too small for all PCBs
  a run from boot makes them disagree (`ShortcutCanDisagree`). With the shipped constants none of this happens
  (`ForkNeverRunsOut`); in general -ENOMEM is unreachable if and only if `NUM_PAG_CODE + NUM_PAG_DATA * (NR_TASKS - 1)` fits in
  the frames `alloc_frame` can hand out (`NoMemoryFailure`, `CapacityIsNecessary`).
- Rollback restores the frame map if and only if frame 256 was in use or nothing was asked for: `free_frame` never frees it
  (`RollbackIsExact`).
- Fork maps the code pages writable. In every run a process can store to a code page if and only if its PID is not 1, and
  every live process then reads what it stored (`CodePagesOverRuns`, `CodeStore`); from boot, the first child can overwrite the
  code of the initial process (`ChildOverwritesInit`). Data pages are safe: over every run in which a process does not run they
  read the same (`DataIsUntouched`).
- On an idle machine `CPU_QUANTUM` falls by one per tick and is never reloaded, until it wraps (`IdleTicks`, `Wraps`). A bound
  on it survives a step if and only if the step is not that tick (`QuantumBoundKept`). A process that is woken after the wrap
  gets the processor 2^31 - 1 ticks later and not before, if only the clock schedules (`IdleWrapStarves`); from boot, this is
  what happens to the initial process if it blocks for 2^31 + 1 ticks (`InitStarves`).
- The pointer test of `sys_get_stats` lets through records that end past the last data page, where the kernel faults
  (`SysGetStats` says exactly when); and it lets the kernel store to the code pages, even of the initial process.
- `sys_write` does not look at the buffer's pages: it prints the chunks before the first one that is not all mapped and then
  faults (`SysWrite`).
- The parameters of a system call are the slots in which `SAVE_ALL` saved ebx, ecx and edx. What a routine assigns to them --
  `sys_write` assigns `size` -- is what the user finds in these registers (`SystemCallReturns`).
- The server's counter never undercounts, but every SIGCHLD that coalesces with a pending one, and every decrement that an
  interrupted increment overwrites, takes a slot away for good (`SlotsAreLostForEver`); all slots but one can go that way (`AllSlotsButOneCanBeLost`).
- `itoa` writes the empty string for a negative number.

## Model

| member | source | states |
|---|---|---|
| `Params.ZeosIsValid` | zeos/include/mm_address.h:6-13 | the shipped constants meet every inequality that the general theorems need, capacity included |
| `RoundRobin.NextKeepsPartition` | zeos/sched.c:219-249 | every scheduling event keeps the partition: each PCB runs, or stands once in one list, or is idle and parked |
| `RoundRobin.NextKeepsQuantum` | zeos/sched.c:219-266 | quanta stay 32-bit and non-negative; `CPU_QUANTUM` is negative only while idle runs and nothing is ready |
| `BoundedWaiting.TickRank` | zeos/sched.c:219-266 | the rank of a waiting task drops by exactly 1 on a tick that does not dispatch it, and the task is dispatched exactly when the rank is 1 |
| `BoundedWaiting.StepRank` | zeos/sched.c:391-421 | no event raises the rank of a waiting task: it is dispatched, or waits on with a rank no larger -- smaller by at least 1 after a tick or an unblock that takes the processor away |
| `BoundedWaiting.WaitsInOrder` | zeos/sched.c:219-239 | over every run, a task not yet dispatched is still in the list with its predecessors a suffix of those it had, and its rank plus the ticks and preempting unblocks so far is at most the rank it had |
| `BoundedWaiting.GetsTheProcessor` | zeos/sched.c:219-239 | in every run with as many ticks and preempting unblocks as its rank, a ready task is dispatched |
| `BoundedWaiting.RankBound` | zeos/sched.c:219-239 | the rank of the task at index k is at most Q * (k + 1) when no quantum exceeds Q |
| `BoundedWaiting.TicksOnlyIsExact` | zeos/sched.c:219-266 | when only ticks schedule, the task is dispatched at exactly the tick its rank names |
| `BoundedWaiting.NoOvertaking` | zeos/sched.c:219-249 | in no run is a ready task dispatched before one that stood ahead of it |
| `BoundedWaiting.QuantumBoundKept` | zeos/sched.c:263-266 | a bound on `CPU_QUANTUM` survives a step if and only if the step is not the tick that wraps it |
| `ReadyLine.DispatchLaw` | zeos/sched.c:219-266 | when the kernel chooses, the foremost of the ready tasks and those who line up gets the processor and its own whole quantum, or, if there is nobody, idle gets it and `CPU_QUANTUM` runs on; otherwise the running task keeps both |
| `ReadyLine.WakeLaw` | zeos/sched.c:405-421 | a woken task lines up, and in front of the task that it preempts |
| `ReadyLine.WokenRunsAtOnce` | zeos/sched.c:405-421 | woken with an empty ready list and a used-up quantum, a task has the processor at once |
| `ReadyLine.OtherLists` | zeos/sched.c:244-249 | who leaves stands last in the free list or the blocking queue, fork takes the foremost free PCB, a wake-up leaves the order of the others |
| `ReadyLine.Quanta` | zeos/sys.c:153 | a child gets its parent's quantum, no other quantum changes |
| `ReadyLine.FirstInFirstOut` | zeos/sched.c:219-249 | over every run, those who got the processor followed by those still waiting are those who waited followed by those who lined up, in order |
| `Frames.FirstFree` | zeos/mm.c:217-230 | the least free frame of the even-spaced ones from the start, or -1 exactly when there is none |
| `Frames.AllocFramesSpec` | zeos/sys.c:173-183 | n requests give min(n, free) frames, all free before and distinct, mark exactly those, and lower the free count by as many |
| `Frames.AllocFromBoot` | zeos/mm.c:79-104 | from the boot map the frames come out as 256, 258, ... |
| `Frames.FreeAllCount` | zeos/sys.c:234-238 | freeing distinct used frames raises the free count by exactly their number |
| `Frames.RollbackIsExact` | zeos/sys.c:176-178 | after any number of successful requests and one failed, the release loop restores the map if and only if frame 256 was used or nothing was asked for; freeing unsigned -1 does nothing |
| `Frames.InitFrames` | zeos/mm.c:201-213 | the two loops mark exactly the kernel's frames |
| `Frames.AllocFrame` | zeos/mm.c:217-230 | the loop returns and marks the least free frame of the even-spaced ones, or returns -1 and changes nothing |
| `Frames.FreeFrame` | zeos/mm.c:245-250 | frees the given frame if it lies strictly above 256 and below the end, nothing else |
| `Frames.Rollback` | zeos/sys.c:177-178 | the downward loop frees exactly the requested frames |
| `Frames.ReserveFrames` | zeos/sys.c:173-183 | all frames or none: it succeeds exactly when enough are free, and a failure leaves the map as it was |
| `Ticks.UserToKernel` | zeos/sched.c:279-289 | keeps the conservation law |
| `Ticks.KernelToUser` | zeos/sched.c:292-319 | keeps the conservation law |
| `Ticks.ReadyToKernel` | zeos/sched.c:322-334 | keeps the conservation law |
| `Ticks.EnterBlocked` | zeos/sched.c:399-400 | the system time is the interval that ends, modulo 2^32, whatever it was before, and what it was before is counted as discarded; keeps the conservation law |
| `Ticks.LeaveBlocked` | zeos/sched.c:414-415 | keeps the conservation law |
| `Ticks.Birth` | zeos/sched.c:203-214 | user, system and blocked time and the switches are 0, the remaining ticks the first quantum, the ready time the copied one, counted as inherited; establishes the conservation law |
| `Ticks.OneBucket` | zeos/sched.c:279-334 | each routine puts the interval it ends into its own bucket and no other, only a dispatch counts a switch, and the next interval starts at the second reading |
| `Ticks.OneHistory` | zeos/sched.c:399-400 | only blocking discards system time, and exactly what there was |
| `Ticks.BucketsSplitTheLife` | zeos/sched.c:279-334 | for every history, each bucket holds exactly the intervals that ended in its own transition, modulo 2^32, less what blocking discarded |
| `Memory.ForkSucceedsIff` | zeos/sys.c:173-183 | fork gets its frames exactly when the data of one more process fits |
| `Memory.FailedForkKeeps` | zeos/sys.c:173-183 | a fork without memory leaves frame map, bytes and every table but the dead one exactly as they were |
| `Memory.ForkForks` | zeos/sys.c:165-200 | a successful fork: fresh distinct frames become the child's data and hold the parent's bytes, no other byte and no other table differs, the parent's window is unmapped again, the TLB is empty |
| `Memory.ForkSuccessKeeps` | zeos/sys.c:165-200 | fork keeps the memory invariant: ownership, disjointness, count, coherence |
| `Memory.ForkChildView` | zeos/sys.c:184-198 | through translation the child reads at every user address what the parent read |
| `Memory.ForkOtherViews` | zeos/sys.c:184-200 | every process that was live keeps its table and reads what it read |
| `Memory.ExitKeeps` | zeos/sys.c:231-238 | exit gives up exactly the leaver's frames; the invariant holds with the stale table among the dead |
| `Memory.MeetOnlyInCode` | zeos/sys.c:167-189 | two address spaces share a frame only at the same code page |
| `Memory.PagesApart` | zeos/sys.c:167-189 | within one address space no two pages share a frame |
| `Memory.DataStoreIsPrivate` | zeos/sys.c:184-189 | a store to a data page, by a process or by the kernel for it, changes nothing that another live process reads |
| `Memory.CodeStoreIsPublic` | zeos/sys.c:167-171 | a store to a code page, by a process or by the kernel for it, is read by every live process |
| `Memory.WriteKeeps` | zeos/mm.c:252-261 | a store through the TLB keeps the invariant and is what the process then reads |
| `Memory.StoreIsOneByte` | zeos/mm.c:252-261 | in the writer's own user pages a store changes exactly the byte at its address |
| `Memory.BootOk` | zeos/mm.c:79-104 | memory is in order after boot |
| `Kernel.NextKeepsInv` | zeos/sys.c:131-242 | every step keeps the kernel invariant: partition, PIDs, directories, accounts, frame ownership and count, isolation, TLB coherence, CR3 of the running task |
| `Kernel.ForkOutcome` | zeos/sys.c:141-183 | fork's return value is decided by the free list and by whether one more process fits |
| `Kernel.ForkEnomemKeeps` | zeos/sys.c:176-182 | the failed fork keeps lists, frames, bytes and `PID_MAX`, and leaves the parent's PID in the free PCB |
| `KernelRuns.BootInv` | zeos/system.c:79-92 | the state after boot satisfies the invariant and its free PCBs hold PID -1 |
| `KernelRuns.After` | zeos/sys.c:131-242 | the invariant holds after every run |
| `KernelRuns.RunProjects` | zeos/sched.c:391-421 | every kernel run is a run of the scheduler alone, with the same outcome |
| `KernelRuns.InterruptsAreBeats` | zeos/sched.c:405-421 | over every run the clock interrupts are at most the ticks and preempting unblocks, but for the one whose handling is pending |
| `KernelRuns.ReadyTaskRuns` | zeos/sched.c:219-266 | bounded waiting over kernel runs: at position k of the ready list, dispatched before as many ticks, and before as many handled clock interrupts, as its rank, which is at most Q * (k + 1) |
| `KernelRuns.ClockAloneIsExact` | zeos/sched.c:219-266 | over kernel runs in which only the clock schedules, dispatched at exactly the tick its rank names |
| `KernelRuns.ReadyIsFifo` | zeos/sched.c:219-249 | over kernel runs the ready list is served in order |
| `KernelTheorems.NoMemoryFailure` | zeos/sys.c:158-183 | with room for every PCB both -ENOMEM paths are dead in every reachable state |
| `KernelTheorems.CapacityIsNecessary` | zeos/sys.c:173-183 | without that room, a task that keeps forking reaches -ENOMEM with a PCB still free |
| `KernelTheorems.LiveCount` | zeos/sys.c:141-148 | live processes and free PCBs add up to all PCBs but idle |
| `KernelTheorems.FramesInUse` | zeos/mm.c:201-250 | in every reachable state the used frames past the kernel are exactly the code frames and those owned by live processes, all even-spaced, and code + data * live in number |
| `KernelTheorems.Isolated` | zeos/sys.c:165-189 | two live processes map the same frame exactly at equal code pages, and never a kernel frame |
| `KernelTheorems.InstalledIsLive` | zeos/sched.c:162-178 | CR3 is the running task's own directory, never a dead one's; a user task has exactly its code and data pages mapped past the kernel, idle none |
| `KernelTheorems.KernelPages` | zeos/mm.c:65-72 | every table maps the kernel's pages onto themselves, writable and closed to user mode, and nothing at page 0 |
| `KernelTheorems.TranslationIsExact` | zeos/mm.c:106-110 | between steps every translation the processor may use is the one in the running task's table |
| `KernelTheorems.ForkDuplicates` | zeos/sys.c:147-200 | after a successful fork the child reads what the parent read, at every user address, and all live processes keep table and view |
| `KernelTheorems.PlacedOnce` | zeos/sched.c:219-249 | each PCB has exactly one place |
| `KernelTheorems.FreePidsStayClean` | zeos/sys.c:176-181 | free PCBs keep PID -1 after a step if and only if the step is not a fork with a free PCB and no room for the data of one more process |
| `KernelTheorems.FreePidsCleanOverRuns` | zeos/sys.c:239-241 | with capacity they do over every run |
| `KernelTheorems.PidNamesOne` | zeos/sched.c:361-377 | a non-negative PID is in at most one PCB, and that one is not free |
| `KernelTheorems.FirstWithPid` | zeos/sched.c:361-377 | the least PCB with the PID, or none exactly when no PCB has it |
| `KernelTheorems.LookupFindsTheOwner` | zeos/sched.c:361-377 | with clean free PCBs the scan finds t exactly when t is not free and has the PID |
| `KernelTheorems.ShortcutAgrees` | zeos/sys.c:261-270 | the shortcut for the running process and the scan name the same PCB if and only if no earlier free PCB holds its PID |
| `KernelTheorems.ShortcutCanDisagree` | zeos/sys.c:261-270 | without room for every PCB, a run of forks from boot after which the scan for the running process's PID stops at a free PCB |
| `KernelTheorems.OnlyOwner` | zeos/sched.c:361-377 | with clean free PCBs, a PCB with a non-negative PID is not free and the only one with it |
| `KernelTheorems.PidsNeverReused` | zeos/sys.c:202-204 | over every run, a live process is the one it was, or has a PID larger than any given out before |
| `KernelTheorems.TimeIsConserved` | zeos/sched.c:279-334 | over every run each PCB's buckets add up with the exact deficit, and no PCB is seen in ST_BLOCKED |
| `Accounting.WaitingIsUntouched` | zeos/sched.c:219-239 | over every run, a ready task that does not get the processor stays ready with its PCB unchanged |
| `Accounting.ReadyTimeIsTheWait` | zeos/sched.c:308-334 | from a preemption -- by a tick or by an unblock -- to the next dispatch, over any run in between, ready time grows by exactly the wait, system time by the stretches in the kernel at both ends, user and blocked time not at all, and one switch is counted |
| `Accounting.FirstWaitIsSystemTime` | zeos/sys.c:105-109 | a new process's first wait goes to system time, with no switch counted |
| `Blocking.BlockCharges` | zeos/sched.c:391-403 | after a block the task stands last in its queue, and its system time is the time from its last reading to the switch, whatever it was before |
| `Blocking.BlockedIsUntouched` | zeos/sched.c:391-421 | over every run, a task in a blocking queue stays there with its PCB unchanged until it is woken |
| `Blocking.UnblockCharges` | zeos/sched.c:405-421 | waking charges the sleep to the blocked time, and to the ready time only what passes until a dispatch in the same step |
| `Blocking.BlockedTimeIsTheSleep` | zeos/sched.c:391-421 | from block to wake-up, over any run in between, blocked time grows by exactly the sleep and user time not at all |
| `Blocking.SleepersOverRuns` | zeos/sched.c:318 | over every run, a task in a blocking queue is in state ready, in the middle of a call |
| `Blocking.WokenRunsAtOnce` | zeos/sched.c:405-421 | a wake-up on an idle machine: the woken task runs at once with its own quantum, idle stands in the ready list |
| `Service.KernelDispatchLaw` | zeos/sched.c:219-266 | the law of dispatch for every step of the kernel |
| `Service.KernelIsFifo` | zeos/sched.c:219-249 | first in, first out over every run of the kernel |
| `Service.QuantaOverRuns` | zeos/sys.c:153 | over every run all processes keep the quantum that they all had |
| `Service.AloneCycles` | zeos/sched.c:219-266 | a process that runs alone keeps the processor and has its whole quantum again every time that many ticks have gone by |
| `Lives.NewProcess` | zeos/sys.c:202-222 | the PCBs after a successful fork: the child's statistics field by field, its PID, directory, state and quantum; the parent charged its time; nobody else touched |
| `Lives.CallCharged` | zeos/sched.c:279-302 | any other call that does not block charges its caller user time up to its entry and system time up to its return, and nobody else |
| `Lives.CountersOverRun` | zeos/sched.c:322-334 | over every run that a process survives, its switches are its turns but for the very first, its remaining ticks never change, and its discarded time is the system time it had at each of its blocks |
| `Lives.LifeOverRun` | zeos/sched.c:279-334 | over every run that a process survives, its account is the one at the start with the entries that the steps of the run make, in order |
| `Lives.BucketsOverRun` | zeos/sys.c:218-222 | from its birth in a fork, over every run that it survives, each bucket of a process holds exactly the intervals entered in it, and ready time inherited from the parent |
| `AddressSpaces.CodePagesOverRuns` | zeos/sys.c:167-171 | over every run the code pages of a live process are writable if and only if its PID is not 1 |
| `AddressSpaces.BootCodePages` | zeos/mm.c:86-93 | so it is after boot |
| `AddressSpaces.CodeStore` | zeos/sys.c:167-171 | a running process can store to a code page if and only if its PID is not 1, and every live process then reads the byte |
| `AddressSpaces.DataIsUntouched` | zeos/sys.c:165-200 | over every run in which a live process does not get the processor it stays live and its data pages read the same |
| `IdleWrap.IdleTicks` | zeos/sched.c:219-266 | n ticks of an idle machine lower `CPU_QUANTUM` by n and change nothing else of the scheduler |
| `IdleWrap.Wraps` | zeos/sched.c:263-266 | ... until the tick after INT_MIN makes it INT_MAX |
| `IdleWrap.IdleWrapStarves` | zeos/sched.c:254-266 | a process woken after the wrap gets the processor at tick 2^31 - 1 and not before, in every run in which only the clock schedules |
| `Zeos.InitStarves` | zeos/sched.c:254-266 | the run from boot that leads there: the initial process blocks, 2^31 + 1 idle ticks, it is woken |
| `Zeos.ChildOverwritesInit` | zeos/sys.c:167-171 | the run from boot in which the first child stores to any code address and the initial process reads that byte |
| `Zeos.BootLists` | zeos/sched.c:114-126 | the lists, the running task and the quanta with which the shipped kernel enters user mode |
| `Zeos.BootPcbsAre` | zeos/sched.c:64-111 | the PIDs and statistics with which it does |
| `Zeos.InitCycles` | zeos/sched.c:219-266 | the initial process, alone after boot, keeps the processor and has a quantum of 18 again at every 18th tick after the first |
| `Zeos.WokenInitRunsAtOnce` | zeos/sched.c:405-421 | the run from boot in which it blocks and is woken: it runs at once with a quantum of 18, and idle is ready |
| `Zeos.EighteenForEverybody` | zeos/include/sched.h:14-16 | in every run every process has the quantum 18 |
| `Zeos.ForkNeverRunsOut` | zeos/sys.c:141-183 | in every run of the shipped kernel fork fails only with -EAGAIN and only when no PCB is free; used frames past the kernel are 8 + 20 per live process |
| `Zeos.QuantaStayBounded` | zeos/sched.c:219-266 | over every run too short to wrap `CPU_QUANTUM`, no quantum and no `CPU_QUANTUM` exceeds the bound they had |
| `Zeos.EighteenTicksPerPlace` | zeos/include/sched.h:14-16 | in the first 2^31 ticks after boot a process at position k of the ready list runs before 18 * (k + 1) further ticks, and before as many clock interrupts have been handled |
| `Lists.InitListHead` | zeos/list.c:6-10 | a head linked to itself |
| `Lists.LinkBetween` | zeos/list.c:18-26 | the four links, also when both neighbours are the same node |
| `Lists.Bypass` | zeos/list.c:62-66 | the two links, also when both neighbours are the same node |
| `Lists.InsertKeepsRings` | zeos/list.c:18-26 | linking a node in between two neighbours inserts it there in its sequence; every list stays a ring with next and prev inverse |
| `Lists.RemoveKeepsRings` | zeos/list.c:62-79 | bypassing a node removes exactly that element; every list stays a ring |
| `Lists.Pool.ListAdd` | zeos/list.c:36-39 | cons on one list, all others unchanged |
| `Lists.Pool.ListAddTail` | zeos/list.c:50-53 | append on one list, all others unchanged |
| `Lists.Pool.ListDel` | zeos/list.c:74-79 | removes exactly that element from whatever list it is in, and clears its own links |
| `Lists.Pool.ListIsLast` | zeos/list.c:86-90 | true exactly for the last element |
| `Lists.Pool.ListEmpty` | zeos/list.c:96-99 | true exactly for the empty sequence |
| `Lists.Pool.ListFirst` | zeos/include/list.h:127-128 | the first element |
| `Lists.Pool.ForEach` | zeos/include/list.h:110-111 | terminates and visits exactly the sequence, in order |
| `Lists.Pool.DeleteEach` | zeos/include/list.h:119-121 | the safe traversal survives deletion of the visited entry: all visited once, the list ends empty |
| `Lists.Pool.Run` | zeos/list.c:6-99 | any run of operations on any number of lists over one pool gives what the sequence operations give |
| `Mmu.CopiedAt` | zeos/utils.c:6-20 | after the copy the destination reads as the source did |
| `Mmu.KeptOutside` | zeos/utils.c:6-20 | the copy changes no byte of memory outside the destination |
| `Mmu.BlockCopyIsFrameCopy` | zeos/sys.c:191-193 | copying a block of pages through translation copies whole frames and nothing else |
| `Mmu.Memories.SetSsPag` | zeos/mm.c:253-261 | one entry becomes present, user, writable, with the frame cut to 20 bits |
| `Mmu.Memories.DelSsPag` | zeos/mm.c:264-267 | one entry becomes zero |
| `Mmu.Memories.GetFrame` | zeos/mm.c:270-272 | the frame of an entry |
| `Mmu.Memories.SetCr3` | zeos/mm.c:107-110 | installs the directory with an empty, hence coherent, TLB |
| `Mmu.Memories.CopyData` | zeos/utils.c:6-54 | words then bytes, through a coherent TLB, equals the byte-by-byte copy for every size, also non-positive and not a multiple of 4; it faults if and only if a byte is out of reach, with a prefix copied |
| `Mmu.StoredAt` | zeos/utils.c:39-54 | bytes stored from an address on are read back there |
| `Mmu.StoredOutside` | zeos/utils.c:39-54 | ... and no other byte of memory changes |
| `Mmu.UserRecord` | zeos/sys.c:254-259 | a record in user memory is in reach if and only if it ends below the end of the data pages, and its addresses are then different bytes |
| `Mmu.Memories.CopyOut` | zeos/utils.c:39-54 | stores the given bytes, or faults if and only if one of them is out of reach, with a prefix stored |
| `Statistics.StatsRoundTrip` | zeos/include/stats.h:5-14 | the 28 bytes of struct stats decode to the statistics |
| `Statistics.FieldAt` | zeos/include/stats.h:5-14 | the k-th field of the declaration stands at offset 4 * k, least significant byte first |
| `Mmu.Memories.CopyAddressSpace` | zeos/sys.c:184-200 | map into the window, copy, unmap, flush: the frames are copied, the parent's table is as before but for an empty window, every access meets a coherent TLB |
| `Mmu.Memories.ShareCode` | zeos/sys.c:167-171 | the child's code pages become the parent's frames |
| `Mmu.Memories.MapChild` | zeos/sys.c:184-189 | each new frame is mapped in the parent's window and in the child's data |
| `Mmu.Memories.UnmapWindow` | zeos/sys.c:195-198 | exactly the window's entries become zero |
| `Mmu.Memories.InitTablePages` | zeos/mm.c:56-74 | every table: kernel pages onto themselves, page 0 and the rest absent |
| `Machine.Machine.TaskSwitch` | zeos/sched.c:142-186 | refines the switch step: charge, install, resume where the next task stopped |
| `Machine.Machine.SchedNext` | zeos/sched.c:219-239 | the foremost ready task gets the processor and its own quantum, or idle gets it with `CPU_QUANTUM` as it is; refines the choice of the next task on the pointer list |
| `Machine.Machine.ClockEntry` | zeos/sched.c:279-289 | the clock routine up to the console emulation is the interrupt step, and keeps the invariant |
| `Machine.Machine.ClockRest` | zeos/sched.c:219-302 | the rest -- `update_sched_data_rr`, `needs_sched_rr`, `update_current_state_rr` (not for idle), `sched_next_rr` -- is the tick step, and keeps the invariant |
| `Machine.Machine.ClockRoutine` | zeos/sched.c:219-302 | the whole routine, with or without a wake-up by the console emulation in the middle, which may take the processor away |
| `Machine.Machine.BlockProcess` | zeos/sched.c:391-403 | puts the task last in its queue; is the block step, and keeps the invariant |
| `Machine.Machine.UnblockProcess` | zeos/sched.c:405-421 | the woken task lines up, and if the quantum is used up the running one behind it, and the foremost runs; is the unblock step, and keeps the invariant |
| `Machine.Machine.SysExit` | zeos/sys.c:226-242 | puts the PCB last in the free list; is the exit step, and keeps the invariant |
| `Machine.Machine.SysFork` | zeos/sys.c:131-224 | is the fork step on every path with its return value, and keeps the invariant |
| `Machine.Machine.SetUserPages` | zeos/mm.c:79-104 | the two loops build the initial process's table on the first frames |
| `Machine.Machine.Boot` | zeos/system.c:79-92 | establishes the invariant and ends in the boot state |
| `Machine.PowerOn` | zeos/system.c:79-92 | from nothing, for any valid configuration, a machine in the boot state |
| `Machine.Machine.GetStatPid` | zeos/sched.c:361-377 | the loop finds the least PCB with the PID |
| `Machine.Machine.SysGetStats` | zeos/sys.c:244-279 | -EINVAL for a negative PID; else -EFAULT exactly for addresses outside the user pages, the one just past them apart; else -ESRCH exactly for a PID that no PCB has -- all with memory untouched; else 0 if the record lies in the user pages, with the caller then reading at `st` the statistics of a PCB with the PID, of the one live owner when the free PCBs are clean; else a page fault |
| `Machine.Machine.ShippedAnswers` | zeos/sys.c:254-259 | for an existing PID and the shipped kernel: 0 exactly for records within 0x100000 to 0x11BFFF, -EFAULT exactly below 0x100000 and above 0x11C000 |
| `Terminal.Console.WriteConsole` | zeos/devices.c:13-22 | prints exactly the bytes of the buffer in order |
| `Terminal.Console.SysWrite` | zeos/sys.c:33-82 | the three errors print nothing; otherwise the chunks print exactly the first `size` bytes in order and `size` is returned, or, if not all are in reach, exactly the chunks before the first that is not, and a fault; only the kernel buffers' bytes change |
| `KernelStack.SaveAll` | zeos/entry.S:38-52 | what it pushes, RESTORE_ALL pops back into the same registers, nothing above is touched, and the kernel runs on its own data segments |
| `KernelStack.SystemCallReturns` | zeos/entry.S:85-103 | whatever a routine with up to five arguments does below its frame and to its arguments, the user gets back its own context with the result in eax and, of the registers that passed arguments, what the routine left in them |
| `KernelStack.PureCallReturns` | zeos/entry.S:85-103 | a routine that leaves its arguments alone changes only eax |
| `KernelStack.InterruptReturns` | zeos/entry.S:71-83 | after the clock and keyboard handlers the interrupted program has exactly what it had |
| `KernelStack.ForkReturnsTwice` | zeos/sys.c:206-216 | parent and child both return to the same point of the handler and to the same user context, with the PID and 0 in eax; the child gets there from its first dispatch through the dummy ebp and `ret_from_fork` |
| `KernelStack.SwitchRoundTrip` | zeos/sched.c:142-186 | a task that switched away resumes after the call with its ebp, ebx, edi and esi and its stack pointer |
| `KernelStack.Processor.SaveRegisters` | zeos/entry.S:38-52 | the eleven pushes and the segment loads are `SaveAll` |
| `KernelStack.Processor.RestoreRegisters` | zeos/entry.S:54-65 | the eleven pops are `RestoreAll` |
| `KernelStack.Processor.Reject` | zeos/entry.S:92-103 | a call number outside 0..40 gives -38 in eax and everything else back |
| `Division.DoDivDivides` | zeos/utils.c:102-114 | for every 64-bit dividend and nonzero 32-bit base the hardware divide does not fault and the result is quotient and remainder; base 0 faults |
| `Division.TicksAreCycles` | zeos/utils.c:120-131 | the tick count is cycles / 109000 modulo 2^32, monotone until it wraps |
| `Libc.DecimalRoundTrip` | zeos/libc.c:57-79 | for every a >= 0 the string is all digits, without leading zero unless a is 0, and reads back as a |
| `Libc.DigitCount` | zeos/libc.c:64-70 | the number of digits n satisfies 10^(n-1) <= a < 10^n |
| `Libc.AtMostTenDigits` | zeos/libc.c:57-79 | at most ten characters for a 32-bit int |
| `Libc.Itoa` | zeos/libc.c:57-79 | the buffer holds the decimal string and a NUL, and nothing else changed |
| `Libc.Strlen` | zeos/libc.c:107-116 | the index of the first NUL |
| `Libc.Print` | zeos/libc.c:57-116 | strlen after itoa is the number of digits, and the characters before it read back as a |
| `Server.CounterIsExact` | sockets/serverSocket.c:11-18 | in every interleaving the counter is the live children, less one between fork and increment, plus the undelivered signal, plus every coalesced death and lost decrement |
| `Server.NeverTooMany` | sockets/serverSocket.c:74-98 | in every interleaving at most max(1, MAX_CLIENTS) children are live, and the counter never falls below those it knows |
| `Server.ChildrenAddUp` | sockets/serverSocket.c:49-62 | over every run the children forked are those running, those not reaped yet and those reaped |
| `Server.WaitsForAll` | sockets/serverSocket.c:82-89 | the waitpid loop starts when the counter has reached the limit and ends when no child is left |
| `Server.FailureIsFinal` | sockets/serverSocket.c:90-97 | after a failing accept or fork the program forks, reaps and counts no more |
| `Server.SlotsAreLostForEver` | sockets/serverSocket.c:82-89 | from any state on, live children never exceed max(1, MAX_CLIENTS - lost slots) |
| `Server.AllSlotsButOneCanBeLost` | sockets/serverSocket.c:11-18 | for every limit a run ends with no child left, no signal pending and all slots but one gone |
| `Server.StarvedForEver` | sockets/serverSocket.c:82-89 | from there on no run ever has two children |

## Left out

- The FCFS policy, `sys_read`, the console emulation and `init_sched_policy`: their sources are not in the repository.
- `zeos/bootsect.S`, `hardware.c`, `setGdt`, `setTSS`, `setIdt` and the copy of the user image at boot: hardware bring-up. The model starts with memory holding arbitrary bytes.
- `zeos/io.c`: the console is the sequence of bytes printed so far.
- The system call wrappers, `perror` and the other user code in `zeos/libc.c` and `zeos/user.c`; `access_ok`, which nothing calls; `free_user_pages`, which nothing calls; `sys_gettime`, `sys_getpid`: easy members.
- `zeos_ticks` and the keyboard routine: no other state depends on them.
- Machine.Machine.ClockRoutine: one wake-up per interrupt; any number of them are the Interrupt, Unblock and Tick steps of the kernel.
- Terminal.Console.SysWrite: the user's buffer is taken to lie apart from the kernel's own buffers, as user pages do. The tick accounting around it is the EnterKernel and LeaveKernel steps of the kernel.
- KernelStack.ForkReturnsTwice: the stack contents are not part of the kernel state; the two models meet at the PCB's resume field.
- Server.CounterIsExact: the server is a state machine on values, one event per atomic action of the program or the system, because its steps interleave; the service itself and the other server schemes are not modelled.
- `sockets/socketMng.c`, the client, the scripts, the measurements.
