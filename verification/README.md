# Verified model of the Cumulonimbus kernel

Cumulonimbus is a small x86 kernel. This project models five of its parts in Dafny and proves what
they are for:

- **The heap** (`Heap.dfy`): first fit over an address-ordered free list, splitting from the tail of a
  block and merging on both sides. `HeapSpec` works on the list as a sequence of blocks; `KernelHeap`
  is the allocator itself, relinking words of memory.
- **The queues** (`Queue.dfy`): doubly linked, self-ordering lists that share one pool of nodes.
  `QueueSpec` sees each as a sequence; `KernelQueue` is the linked structure.
- **The process life cycle** (`Process*.dfy`): fork, exec, sleep, readc, wait, exit, kill, the clock and the
  serial interrupt as steps of one state machine (`ProcessSpec`), invariants over all its runs
  (`ProcessInv`, `ProcessLife`, `ProcessFamily`, `ProcessOrder`), the turns the dispatcher gives to killed
  processes and the one panic they lead to (`ProcessTurn`, `ProcessOrphan`), what becomes of a killed process
  (`ProcessKill`), the effect of each step on the whole kernel (`ProcessEffect`) and what these come to over
  runs (`ProcessLaws`), and the routines in place on the PCB table and the queue module (`ProcessKernel`).
- **The FAT64 file system** (`Fat*.dfy`): tags and chains (`FatVolume`), on-disk records (`FatCodec`), file
  handles as write-back caches (`FatFile`), directories and removal (`FatDirectory`), whole file systems and
  runs (`FatSystem`), sectors and mkfs (`FatDisk`), and the driver in place (`FatDriver`).
- **The console** (`Console*.dfy`): the number printers, the keyboard ring (`ConsoleRing`) and what the keys put
  in it (`ConsoleKeys`), and the scrolling region.

Types that several parts share are in `Common.dfy`. Code that updates state in place is a class whose methods are
proved against a pure function of the old state; the properties are lemmas about those functions and invariants
over their runs. What a function stores is also stated in plain numbers (`ProcessEffect`, `FatDirectory.Says`,
`FatDisk.EntryPlace`, `ConsoleScroll.TypeEffect`), not through the function itself. Run
`dafny verify dfyconfig.toml` to check everything.

## What the code does not do

Some things the comments or documents promise are false of the code. The model keeps the code as it is,
and a lemma says exactly when the promise holds.

- `fat64_getc` reports the end of a file only to a handle that `fat64_putc` left at the end mark: for one that
  got there by reading, src/drivers/fat64/fat64.c:281 compares where it should assign, and the next byte comes
  from behind the buffer. So docs/drivers/fat64.txt is wrong about EOF. `FatFile.GetcOk` and `FatFile.ReadOk` say
  exactly when EOF is returned, and `FatFile.EndReached` shows both ways to the same end.
- `fat64_touch` looks its slot up in the buffer the handle has, reloads it, and only then saves the new entry;
  `fat64_mkdir` never reloads. A second creation through the same handle can take the same slot: the first file
  loses its entry, and its cluster is leaked (`FatDirectory.TouchTwice`). With no free cluster both file an entry
  for cluster 0xFFFFFFFF, and `fat64_mkdir` also clears the sectors before the partition, as the sector number
  wraps around (`FatDriver.Drive.Mkdir`). They leave a well-formed file system if and only if a cluster was free
  and the slot was unused on disk (`FatDirectory.TouchExact`, `FatDirectory.MkdirExact`, for handles on directories).
  Through a handle on a file, which neither call rejects, they do so if and only if no cluster was free: else the
  new one is leaked (`FatDirectory.TouchInFile`, `FatDirectory.MkdirInFile`).
- `fat64_rm` tests only for a zero cluster. It leaves a well-formed file system if and only if the handle is not the
  root's, is still at the first cluster of its file, and the file, if it is a directory, is empty
  (`FatDirectory.RmExact`). Removing the root, which is what `fat64_open` opens, frees its cluster
  (`FatDirectory.RmRoot`); a handle that has read or written past 4096 bytes leaves the second cluster linked to a
  free one (`FatDirectory.RmMoved`); and what is in a directory is leaked.
- `fat64_putc` adds one to the size whenever the position has passed it. A handle that has read past the size of
  its file and then writes leaves a size that does not cover what was written: it does if and only if it covered
  the position before (`FatFile.WriteCovered`, `FatFile.PutPastSize`).
- mkfs clears neither the tags above the root nor the root directory: it makes an empty file system if and only
  if they were clear before (`FatDisk.MkfsEmpty`), and in any file system that came from mkfs on a zeroed disk
  it leaves every tag and cluster as it was (`FatDisk.MkfsErasesNothing`).
- A request within 3 bytes of the 32-bit maximum rounds up to zero words (`HeapSpec.RequestHolds`).
- Init is not woken when an orphaned zombie is handed to it. `ProcessFamily.InitMissesZombie` says when it goes on
  waiting beside such a zombie, whatever it waits for, and `ProcessFamily.StepNotifiesAll` that no other step
  loses a wake-up.
- kill does not always end its target. For a process other than the caller its queue decides
  (`ProcessKill.KillFate`): on a ready queue it is ended when its turn comes; a sleeper or a reader is made READY
  by its wake-up and lives on; a waiting process or a zombie stays KILLED where it is for good. The caller itself
  is merely requeued, as `_schedule` overwrites KILLED (`ProcessOrder.SelfKillSurvives`).
- A killed process does not hand its children to init when it is cleaned up. If it is gone when one of them is
  killed and has its turn, or exits, the kernel panics for want of a parent (src/kernel/system.c:190-196), and that
  panic has no other cause (`ProcessTurn.NoParentExact`). `ProcessOrphan.OrphanPanics` is a run from boot: fork, tick, fork,
  tick, kill 2, wait 2, tick; now the exit of process 3 panics, and so does, after one more tick, killing it.
- A wait for any child never reports that there is none: without a zombie child it settles on the last PCB, child or
  not, as the index is tested against a bound it never exceeds. So it can take away a stranger's zombie, or block
  without a child (`ProcessTurn.WaitAny`).
- A sleep of n ticks does not last n ticks if time + n passes 2^32, unless the time is the last before the clock
  wraps around: its wake-up time is then behind the clock, and the first tick ends it
  (`ProcessLaws.SleepCutShort`; `ProcessLaws.SleepCallLasts` and `ProcessLaws.SleepAcross` are the other cases).
- A process that yields is on no queue (`ProcessOrder.YieldLosesCaller`).
- Undefined keys are not ignored: src/kernel/c_io.c:615 compares 255 with a char constant that is -1
  (`ConsoleRing.UndefinedKeyStored`).

## Model

| member | source | states |
|---|---|---|
| `HeapSpec.CanonicalUnique` | src/kernel/kheap.c:149-219 | history independence: two ordered, non-touching free lists with the same free words are the same list |
| `HeapSpec.AllocConserves` | src/kernel/kheap.c:83-140 | allocation keeps the list ordered and non-touching and splits the free words exactly into the block and the rest |
| `HeapSpec.ReleaseConserves` | src/kernel/kheap.c:149-219 | freeing a block keeps the list canonical and adds exactly the block's words |
| `HeapSpec.AllocReleaseRoundTrip` | src/kernel/kheap.c:83-219 | freeing what was just allocated restores the very same free list |
| `HeapSpec.AllocComplete` | src/kernel/kheap.c:97-109 | NULL if and only if no run of n + 1 adjacent words is free |
| `HeapSpec.AllocFirstFit` | src/kernel/kheap.c:97-139 | the block is the upper end of the first one in address order that fits: just the words asked for, or the whole of it if at most 2 would be left |
| `HeapSpec.RequestHolds` | src/kernel/kheap.c:91-92 | the rounded-up request covers the byte count, with less than a word to spare, if and only if the 32-bit addition does not wrap; if it does it is zero words |
| `HeapSpec.StepKeepsInv` | src/kernel/kheap.c:83-219 | every call keeps live and free blocks disjoint and their words together equal to the memory |
| `HeapSpec.RunKeepsInv` | src/kernel/kheap.c:83-219 | every run of calls keeps live and free blocks disjoint and their words together equal to the memory |
| `HeapSpec.RunReturnsToStart` | src/kernel/kheap.c:114-218 | a run that ends with everything freed, in whatever order, ends in the initial list |
| `KernelHeap.Heap.Kalloc` | src/kernel/kheap.c:83-140 | in memory words: address or NULL and new list as specified, live memory untouched |
| `KernelHeap.Heap.TakeFirstFit` | src/kernel/kheap.c:94-139 | the search and split relink the list to the specified one and set the block's length |
| `KernelHeap.Heap.Kfree` | src/kernel/kheap.c:149-219 | NULL does nothing; else the block leaves the live set and the list becomes the specified one |
| `KernelHeap.Heap.GiveBack` | src/kernel/kheap.c:161-218 | insertion and both merges in place give the list of the specification |
| `QueueSpec.InsertIsStable` | src/kernel/queue.c:372-451 | insertion into a sorted queue keeps it sorted, behind entries of equal key |
| `QueueSpec.InsertAllSortsStably` | src/kernel/queue.c:372-473 | any arrivals come out sorted by key, those of equal key in order of arrival |
| `QueueSpec.InsertAllPermutes` | src/kernel/queue.c:372-451 | and no arrival is lost or doubled |
| `QueueSpec.Find` | src/kernel/queue.c:241-311 | keyed removal takes the first entry its remove routine accepts |
| `QueueSpec.Place` | src/kernel/queue.c:372-473 | insertion goes before the first larger key, or to the end without a compare routine |
| `QueueSpec.KeyedRemoval` | src/kernel/queue.c:241-311 | keyed removal takes the head without a remove routine, else the first entry with that key, or the first whose key is not past it; it fails exactly if there is none, and then changes nothing |
| `QueueSpec.NodesConserved` | src/kernel/queue.c:57-100 | no operation, failed or not, changes the number of nodes in the pool and on queues |
| `KernelQueue.QueueModule.constructor` | src/kernel/queue.c:112-182 | set-up leaves every queue empty and every node in the pool |
| `KernelQueue.QueueModule.QnodeAlloc` | src/kernel/queue.c:57-77 | takes the first node of the pool and disturbs no queue, or fails on an empty pool |
| `KernelQueue.QueueModule.QnodeFree` | src/kernel/queue.c:87-100 | puts a node back at the front of the pool |
| `KernelQueue.QueueModule.Append` | src/kernel/queue.c:323-362 | in place: the entry goes to the end of one queue, all other queues unchanged, or no node is left |
| `KernelQueue.QueueModule.Insert` | src/kernel/queue.c:372-451 | in place: the entry goes to its place by key |
| `KernelQueue.QueueModule.FindPlace` | src/kernel/queue.c:372-451 | the scan stops at the first node with a larger key |
| `KernelQueue.QueueModule.LinkBefore` | src/kernel/queue.c:372-451 | relinking prev, next, head, tail and length inserts one node before another |
| `KernelQueue.QueueModule.Remove` | src/kernel/queue.c:193-229 | in place: the head is taken, its node goes back to the pool |
| `KernelQueue.QueueModule.RemoveKeyed` | src/kernel/queue.c:241-311 | in place: the first match is taken, or not found |
| `KernelQueue.QueueModule.Unlink` | src/kernel/queue.c:241-311 | relinking takes one node out of the middle, the front or the end |
| `KernelQueue.LinkInChain` | src/kernel/queue.c:372-451 | inserting a node keeps next and prev inverse along the chain |
| `KernelQueue.UnlinkInChain` | src/kernel/queue.c:241-311 | removing a node keeps next and prev inverse along the chain |
| `ProcessSpec.ZombifyLowersKilled` | src/kernel/system.c:175-272 | dealing with a killed process leaves one killed process fewer, so the dispatch loop ends |
| `ProcessSpec.PcbFind` | src/kernel/process.c:121-133 | the first non-free PCB with the pid, if any |
| `ProcessSpec.AnyChild` | src/kernel/syscall.c:519-560 | a wait for any child settles on the first zombie child, else on the last PCB, child or not |
| `ProcessTurn.WaitAny` | src/kernel/syscall.c:515-623 | that is a child if and only if some child is a zombie or the last PCB is a child; a zombie there, even a stranger's, is reaped, else the caller blocks |
| `ProcessInv.InitialGood` | src/kernel/process.c:141-166 | the kernel as initialised satisfies the partition invariant |
| `ProcessInv.StepKeeps` | src/kernel/syscall.c:152-656 | every call and interrupt keeps it: each PCB in one place once, state matching the queue, a stack of its own |
| `ProcessInv.DispatchKeeps` | src/kernel/scheduler.c:87-126 | the dispatcher keeps it and ends with a running process |
| `ProcessInv.ZombifyKeeps` | src/kernel/system.c:175-272 | cleaning up or queueing a terminated process keeps the partition |
| `ProcessInv.ForkKeeps` | src/kernel/syscall.c:188-283 | fork keeps the partition, with or without free PCBs and stacks |
| `ProcessInv.WaitKeeps` | src/kernel/syscall.c:467-623 | wait keeps the partition, even for a process that is no child |
| `ProcessInv.PoolSuffices` | src/kernel/queue.c:24-26 | at least five queue nodes are always free |
| `ProcessInv.StackForEveryPcb` | src/kernel/stack.c:58-78 | while a PCB is free so is a stack |
| `ProcessInv.RunKeeps` | src/kernel/syscall.c:152-656 | every run keeps the invariant |
| `ProcessInv.PartitionHolds` | src/kernel/scheduler.c:58-126 | from boot no run reaches a queue-status, non-ready or wild-pointer panic |
| `ProcessLife.StepNotifies` | src/kernel/syscall.c:467-656 | no step but an exit leaves any process waiting for a child that is a zombie, kill included, and an exit no process but init |
| `ProcessLife.NoWakeupLost` | src/kernel/system.c:203-270 | in every state reachable from boot no process but init waits for a child that is a zombie |
| `ProcessFamily.StepFamily` | src/kernel/syscall.c:188-656 | while nothing is killed and init lives, every step keeps a living parent for every process |
| `ProcessFamily.ParentsLive` | src/kernel/system.c:190-196 | so from boot the missing-parent panic is unreachable |
| `ProcessFamily.InitMissesZombie` | src/kernel/syscall.c:637-650 | beside a zombie handed to it init goes on waiting, whatever it waits for, if and only if it waits for that zombie's pid, or for any child while the dying process is not its own; and the clean-up in the dispatcher does not wake it |
| `ProcessFamily.StepNotifiesAll` | src/kernel/syscall.c:152-656 | with init included, a step loses a wake-up if and only if it is an exit that hands init a zombie it so misses |
| `ProcessOrder.PassLowersKilledReady` | src/kernel/scheduler.c:95-123 | each pass of the loop strictly lowers the killed processes on the ready queues, parent rescheduled or not |
| `ProcessOrder.DispatchChoice` | src/kernel/scheduler.c:87-126 | from the state before alone: the first READY process in the line of the ready queues runs, or the first parent woken by cleaning up the killed ones ahead of it, whose place is behind ready queue 0; and the whole PCB table after |
| `ProcessOrder.WakeSleepersExactly` | src/kernel/clock.c:74-79 | exactly the sleepers due are moved to ready queue 0, in order of wake time and then of going to sleep |
| `ProcessLaws.TickSleeps` | src/kernel/clock.c:51-102 | a tick adds one to the time modulo 2^32, in plain numbers, and takes exactly the sleepers due by then off the sleep queue; those left are strictly in the future, in their old order |
| `ProcessOrder.AlwaysOrderly` | src/kernel/syscall.c:331-365 | in every reachable state sleepers are sorted and nobody waits to read while input is buffered |
| `ProcessOrder.YieldLosesCaller` | src/kernel/syscall.c:658-661 | after yield the caller is on no queue and not current |
| `ProcessOrder.SelfKillSurvives` | src/kernel/syscall.c:450-457 | killing oneself only requeues the caller |
| `ProcessTurn.PassFate` | src/kernel/scheduler.c:95-123 | the turn of a killed process: a panic if and only if its parent's PCB is gone, else it is ended and dispatching goes on |
| `ProcessTurn.TurnFate` | src/kernel/system.c:190-196 | the same for every turn the dispatcher comes to in any step |
| `ProcessTurn.ExitFate` | src/kernel/syscall.c:629-656 | an exit panics before any dispatch if and only if the caller's parent, or init if it is its own, is gone |
| `ProcessTurn.NoParentExact` | src/kernel/system.c:190-196 | a step ends in the missing-parent panic if and only if it is an exit of an orphan or comes to the turn of a killed orphan |
| `ProcessOrphan.OrphanPanics` | src/kernel/system.c:190-196 | both are reached from boot |
| `ProcessKill.KillFate` | src/kernel/syscall.c:425-459 | over every run after a kill the target stays on its queue until a step in which, if the kernel outlives it, it is ended at its turn if that is a ready queue, lives on if it is the sleep or read queue, and which never comes for the other two; its turn panics if and only if its parent is gone |
| `ProcessKill.HeadEnds` | src/kernel/scheduler.c:95-123 | at the head of the line a killed process makes the next dispatch panic if its parent is gone, and is ended by it if not |
| `ProcessKill.SleeperRevived` | src/kernel/clock.c:74-79 | a killed sleeper is made READY when it is due |
| `ProcessKill.ReaderRevived` | src/kernel/sio.c:129-166 | a killed reader is made READY once as many characters have come in as readers are ahead of it, and one more |
| `ProcessEffect.ScheduleStands` | src/kernel/scheduler.c:58-79 | scheduling puts a process last on ready queue k for a priority k below 4 and on queue 3 for all others, READY; no other queue changes |
| `ProcessEffect.ExecEffect` | src/kernel/syscall.c:289-323 | exec stores the low 8 bits of the priority; when the dispatcher starts the caller stands last on the ready queue for them, READY, and nothing else has changed |
| `ProcessEffect.ForkEffect` | src/kernel/syscall.c:188-283 | fork takes the first free PCB and stack, and the child, with the next pid and its parent's priority, stands last on the ready queue for that; nothing else changes, and nothing at all with no PCB free |
| `ProcessEffect.SleepEffect` | src/kernel/syscall.c:152-180 | the caller, SLEEPING, stands on the sleep queue under (time + ticks) mod 2^32, behind all keys not greater and before all greater ones; nothing else changes |
| `ProcessEffect.ReadcTakes` | src/kernel/syscall.c:331-346 | a read takes one from the buffered characters |
| `ProcessEffect.ReadcWaits` | src/kernel/syscall.c:348-363 | with none buffered the caller, still RUNNING, waits among the readers under its pid; nothing else changes |
| `ProcessEffect.WaitFails` | src/kernel/syscall.c:496-503 | a wait for a pid that no process has changes nothing |
| `ProcessEffect.WaitReaps` | src/kernel/syscall.c:570-602 | a wait that settles on a zombie clears its PCB and puts PCB and stack last on the free ones; nothing else changes |
| `ProcessEffect.WaitEffect` | src/kernel/syscall.c:604-621 | else the caller, WAITING, stands among the waiting ones under its own pid and remembers for whom; nothing else changes |
| `ProcessEffect.ExitWakes` | src/kernel/syscall.c:629-656 | an exit for which the parent waits: children go to process 1, PCB and stack are last on the free ones, the parent is READY and last on ready queue 0; nothing else changes |
| `ProcessEffect.ExitLeaves` | src/kernel/system.c:255-270 | an exit for which nobody waits: children go to process 1, and the caller is a ZOMBIE filed under its pid; nothing else changes |
| `ProcessEffect.KillMarks` | src/kernel/syscall.c:425-459 | kill marks another process KILLED and changes nothing else |
| `ProcessEffect.KillSelf` | src/kernel/syscall.c:450-457 | the caller, killed, stands last on the ready queue of its priority, READY |
| `ProcessEffect.SetEffect` | src/kernel/syscall.c:128-146 | settime stores 32 bits, setprio 8, and nothing else changes |
| `ProcessEffect.TickEffect` | src/kernel/clock.c:51-102 | when a tick dispatches the time is (time + 1) mod 2^32, the sleepers due by then stand, READY, last on ready queue 0 in their order, and behind them, on the queue of its priority, the preempted process; all other queues and PCBs are as they were |
| `ProcessEffect.SerialWakes` | src/kernel/sio.c:139-151 | a character with readers waiting makes the first one READY, last on the ready queue of its own priority, and changes nothing else |
| `ProcessEffect.SerialBuffers` | src/kernel/sio.c:152-164 | with none waiting it is buffered if fewer than 2048 are, and else dropped |
| `ProcessEffect.FirstFork` | src/kernel/process.c:141-166 | after boot the first fork makes process 2, child of process 1, priority 0, on PCB 1 and stack 1; the other 28 are free in order |
| `ProcessLaws.PlainDispatch` | src/kernel/scheduler.c:87-126 | with nobody killed the head of the lowest-numbered ready queue that is not empty runs, and nothing else changes |
| `ProcessLaws.ExecYields` | src/kernel/syscall.c:289-323 | with nobody killed the caller of exec runs on if and only if nobody is on a ready queue up to the one it goes to |
| `ProcessLaws.TickYields` | src/kernel/clock.c:51-102 | and a tick leaves the running process running if and only if nobody is on a ready queue up to its own and no sleeper is due |
| `ProcessLaws.SetPrioNext` | src/kernel/syscall.c:128-133 | after setprio and a tick the caller stands last on the ready queue of the new priority |
| `ProcessLaws.StepSleeps` | src/kernel/syscall.c:136-180 | what every step does to the sleep queue and the clock: sleep files one entry, a tick takes off those due, settime sets the time, and no other step touches either |
| `ProcessLaws.ClockCounts` | src/kernel/clock.c:58 | over every run without settime the clock advances by the number of ticks, modulo 2^32 |
| `ProcessLaws.SleepEnds` | src/kernel/clock.c:74-79 | the tick that reaches a sleeper's time takes it off the sleep queue |
| `ProcessLaws.SleepLasts` | src/kernel/clock.c:74-79 | over every run without settime a sleeper stays on the sleep queue, kills and all, until the clock reaches its time |
| `ProcessLaws.SleepCallLasts` | src/kernel/syscall.c:152-180 | a sleep of n ticks with time + n below 2^32 lasts them: over every run without settime the caller stays through its first n - 1 ticks and is taken off by the nth |
| `ProcessLaws.SleepCutShort` | src/kernel/syscall.c:159 | with time + n past 2^32 and the time not the last before the clock wraps, the first tick takes the caller off, in every run without settime |
| `ProcessLaws.SleepAcross` | src/kernel/clock.c:58-79 | at that last time it does sleep through n - 1 ticks and is taken off by the nth |
| `ProcessLaws.InputConserved` | src/kernel/sio.c:129-166 | over every run the characters that reached a reader and those buffered are those received and not dropped |
| `ProcessKernel.System.constructor` | src/kernel/system.c:281-487 | set-up of the modules and the first process gives the initial state |
| `ProcessKernel.System.PcbFind` | src/kernel/process.c:121-133 | the table scan finds what the specification says |
| `ProcessKernel.System.PcbFree` | src/kernel/process.c:103-111 | clears the PCB and appends it to the free ones |
| `ProcessKernel.System.StackFree` | src/kernel/stack.c:70-78 | appends the stack to the free ones |
| `ProcessKernel.System.Schedule` | src/kernel/scheduler.c:58-79 | in place: marks READY and appends to the ready queue of the priority, or to queue 3 if it is past 3 (`ProcessEffect.ScheduleStands`), or panics for want of a node |
| `ProcessKernel.System.FirstReady` | src/kernel/scheduler.c:97-101 | the scan finds the lowest-numbered non-empty ready queue, or none |
| `ProcessKernel.System.Dispatch` | src/kernel/scheduler.c:87-126 | the loop in place picks the specified process or panics as specified, killed ones cleaned up on the way |
| `ProcessKernel.System.Zombify` | src/kernel/system.c:175-272 | in place: a waiting parent is woken and PCB and stack are freed, or the process joins the zombie queue under its pid |
| `ProcessKernel.System.SysFork` | src/kernel/syscall.c:188-283 | in place; returns the next pid, or -1 exactly when no PCB or no stack is free |
| `ProcessKernel.System.SysExec` | src/kernel/syscall.c:289-323 | in place: the low 8 bits of the priority are stored, the caller goes to the end of its ready queue, the dispatcher picks |
| `ProcessKernel.System.SysSleep` | src/kernel/syscall.c:152-180 | in place: the caller sleeps until time + ticks modulo 2^32 (`ProcessEffect.SleepEffect`); if the queue is out of nodes it just goes on |
| `ProcessKernel.System.SysReadc` | src/kernel/syscall.c:331-365 | in place: a buffered character is taken, or the caller joins the readers with its state still RUNNING |
| `ProcessKernel.System.SerialInput` | src/kernel/sio.c:129-166 | in place: the first reader is made ready at its own priority, or the character is counted if there is room |
| `ProcessKernel.System.SysKill` | src/kernel/syscall.c:425-459 | in place: the first process with the pid is marked KILLED; the caller itself is requeued |
| `ProcessKernel.System.AnyChild` | src/kernel/syscall.c:519-560 | the scan loop settles on the specified PCB |
| `ProcessKernel.System.SysWait` | src/kernel/syscall.c:467-623 | in place: unknown pids fail, a zombie is reaped with PCB and stack freed, else the caller waits under its pid |
| `ProcessKernel.System.Reparent` | src/kernel/syscall.c:637-643 | the loop in place hands exactly the caller's children to init |
| `ProcessKernel.System.SysExit` | src/kernel/syscall.c:629-656 | in place: children go to init, the parent is told or a zombie is left, the dispatcher picks |
| `ProcessKernel.System.IsrClock` | src/kernel/clock.c:51-102 | in place: one tick (`ProcessEffect.TickEffect`), those due are woken, the current process goes to the end of its queue, the dispatcher picks |
| `ProcessKernel.System.WakeSleepers` | src/kernel/clock.c:74-79 | the draining loop in place wakes exactly what the specification wakes |
| `FatVolume.ChainsDisjoint` | src/drivers/fat64/fat64.h:25-28 | chains are acyclic and share no cluster |
| `FatVolume.LinksInverse` | src/drivers/fat64/fat64.c:298-324 | on a chain next and prev lead back, and only the ends are marked EOF |
| `FatVolume.FreeIffUnplaced` | src/drivers/fat64/fat64.c:627-631 | the non-free clusters are exactly those on some chain |
| `FatVolume.TagsDetermined` | src/drivers/fat64/fat64.h:25-28 | the tag table is a function of the chains |
| `FatVolume.ChainsDetermined` | src/drivers/fat64/fat64.h:25-28 | and the chains are a function of the tag table |
| `FatVolume.ChainBound` | src/drivers/fat64/fat64.h:25-28 | no chain is longer than the volume |
| `FatVolume.GetFreeExact` | src/drivers/fat64/fat64.c:606-642 | allocation fails exactly when nothing is free, else takes the least free cluster |
| `FatVolume.NewChain` | src/drivers/fat64/fat64.c:422 | a cluster allocated with EOF at both ends is a new chain, all others kept |
| `FatVolume.GrowChain` | src/drivers/fat64/fat64.c:303-313 | linking a free cluster behind the last one lengthens one chain and keeps the others |
| `FatVolume.RemoveChain` | src/drivers/fat64/fat64.c:241-246 | freeing a whole chain keeps the others |
| `FatVolume.RemoveChainCount` | src/drivers/fat64/fat64.c:241-246 | freeing a chain adds exactly as many free clusters as it has |
| `FatCodec.TagUpdate` | src/drivers/fat64/fat64.c:658-675 | a tag written in a sector is read back, and its 31 neighbours are unchanged |
| `FatCodec.ByteOrder` | src/drivers/fat64/fat64.h:25-45 | integers are stored low byte first |
| `FatCodec.TagLayout` | src/drivers/fat64/fat64.h:25-28 | of the 16 bytes of a tag the first 8 hold prev and the last 8 next |
| `FatCodec.EntryRoundTrip` | src/drivers/fat64/fat64.h:30-45 | every directory entry is read back from its 512 bytes |
| `FatCodec.EntryLayout` | src/drivers/fat64/fat64.h:30-45 | the fields of an entry are at bytes 0, 256, 264, 272, 280, 304, 308 and 312 of its 512 |
| `FatCodec.EntryUpdate` | src/drivers/fat64/fat64.c:545-557 | rewriting one slot of a directory changes that slot only |
| `FatFile.SaveEntryOk` | src/drivers/fat64/fat64.c:545-557 | saving a file's entry changes no byte of the file and no other slot |
| `FatFile.SaveOk` | src/drivers/fat64/fat64.c:511-532 | saving the buffer puts the file as the handle sees it on disk and touches no other cluster |
| `FatFile.OpenOk` | src/drivers/fat64/fat64.c:559-565 | opening another cluster of a saved file shows the same bytes |
| `FatFile.StoreOk` | src/drivers/fat64/fat64.c:326-350 | a byte put replaces the byte at the handle's position of the flat file, across a cluster boundary too; the size grows as the position passes it |
| `FatFile.GrowOk` | src/drivers/fat64/fat64.c:303-324 | growth links the least free cluster, keeps all bytes and uses up one cluster |
| `FatFile.PutcOk` | src/drivers/fat64/fat64.c:287-352 | putc writes one byte, or returns EOF exactly at the end of a file on a full volume |
| `FatFile.WriteOk` | src/drivers/fat64/fat64.c:363-370 | a write overwrites the flat file by the bytes that fit, stops only when the volume is full, and touches nothing else |
| `FatFile.WriteSucceeds` | src/drivers/fat64/fat64.c:303-309 | it succeeds if and only if the free clusters cover what the file lacks |
| `FatFile.WriteCovered` | src/drivers/fat64/fat64.c:331-334 | the size covers what was put if and only if it covered the position before |
| `FatFile.PutPastSize` | src/drivers/fat64/fat64.c:251-352 | at the end of a file one getc and one putc leave the size one short |
| `FatFile.GetcOk` | src/drivers/fat64/fat64.c:251-285 | getc returns the byte at the handle's position and moves on by one; it returns EOF exactly at the mark putc leaves |
| `FatFile.ReadOk` | src/drivers/fat64/fat64.c:354-361 | a read returns the bytes from the position on and succeeds if and only if the clusters hold so many; else it returns EOF if putc left the handle at the end, and overruns the buffer if not |
| `FatFile.EndReached` | src/drivers/fat64/fat64.c:251-352 | at the same end of a file a read returns EOF after putc and overruns the buffer after getc |
| `FatDirectory.OpenFile` | src/drivers/fat64/fat64.c:380-405 | a slot opens if and only if it is valid, and a new handle on a file sees the bytes on disk from the start |
| `FatDirectory.OpenExact` | src/drivers/fat64/fat64.c:380-405 | over all slots: exactly a valid one below 8 opens, slot 8 is read past the buffer, all others give EOF; the handle starts at position 0 with the entry on disk |
| `FatDirectory.FreeSlot` | src/drivers/fat64/fat64.c:644-656 | the first unused slot, or EOF if all eight are used |
| `FatDirectory.OwnersDistinct` | src/drivers/fat64/fat64.c:424-430 | two entries of a whole file system never share a chain |
| `FatDirectory.TouchFiles` | src/drivers/fat64/fat64.c:407-436 | whatever the handle's buffer, touch is the filing of an entry of size 0 for the cluster the allocation gives (its fields: `TouchSays`) |
| `FatDirectory.MkdirFiles` | src/drivers/fat64/fat64.c:438-467 | and mkdir the filing of a directory (its fields: `MkdirSays`) |
| `FatDirectory.TouchSays` | src/drivers/fat64/fat64.c:415-433 | on any volume the slot on disk after a touch has the name given and zeros behind it, size 0, the valid flag alone, the cluster, parent and number, and zero in every other byte |
| `FatDirectory.MkdirSays` | src/drivers/fat64/fat64.c:445-464 | and after a mkdir, unless the directory was itself the least free cluster, the same with size 4096 and both flags, and the new cluster is all zeros |
| `FatDirectory.NameRead` | src/drivers/fat64/fat64.c:425 | a name without zero bytes is the C string read from the entry |
| `FatDirectory.RootSays` | src/drivers/fat64/fat64.c:470-481 | the root's entry is "/", its own parent, 4096 bytes, with both flags |
| `FatDirectory.CreateOk` | src/drivers/fat64/fat64.c:407-467 | filing an entry in an unused slot while a cluster is free adds one chain of one cluster and one entry, leaves the file system whole and the rest as it was |
| `FatDirectory.ClearedSlots` | src/drivers/fat64/fat64.c:452 | a new directory has no entries |
| `FatDirectory.TouchExact` | src/drivers/fat64/fat64.c:407-436 | touch through a handle on a directory leaves a file system, under any layout and tree, if and only if a cluster was free and the slot was unused on disk |
| `FatDirectory.MkdirExact` | src/drivers/fat64/fat64.c:438-467 | and so does mkdir through a handle on a directory |
| `FatDirectory.TouchInFile` | src/drivers/fat64/fat64.c:407-436 | touch through a handle on a file leaves a file system if and only if no cluster was free |
| `FatDirectory.MkdirInFile` | src/drivers/fat64/fat64.c:438-467 | and so does mkdir |
| `FatDirectory.TouchTwice` | src/drivers/fat64/fat64.c:411-413 | a second touch through the same handle leaves no file system, and the first file's cluster neither free nor named by an entry |
| `FatDirectory.DirsWithin` | src/drivers/fat64/fat64.c:407-467 | a file system has no directories but those its slots lead to from the root |
| `FatDirectory.UnchainOk` | src/drivers/fat64/fat64.c:241-246 | from cluster i on n turns of rm's loop free the next n clusters of the chain, and it is at EOF exactly after the last |
| `FatDirectory.RmEnds` | src/drivers/fat64/fat64.c:228-249 | through a handle at cluster k the loop ends with exactly the first cluster and those behind k freed |
| `FatDirectory.RmOk` | src/drivers/fat64/fat64.c:228-249 | removal through a fresh handle frees exactly the file's clusters, clears only its slot, and leaves the file system whole |
| `FatDirectory.RmExact` | src/drivers/fat64/fat64.c:228-249 | removal leaves a file system, under any layout and tree, if and only if the handle is not the root's, is at the first cluster of its file, and the file is no directory or an empty one |
| `FatDirectory.RmRoot` | src/drivers/fat64/fat64.c:185-249 | removal through the handle on the root, empty or not, leaves no file system |
| `FatDirectory.RmMoved` | src/drivers/fat64/fat64.c:241-246 | removal through a handle past the first cluster leaves tags that no chains fit |
| `FatSystem.WriteKeepsWhole` | src/drivers/fat64/fat64.c:363-377 | writing and flushing keeps the file system whole however much went in |
| `FatSystem.WriteFileOk` | src/drivers/fat64/fat64.c:363-405 | open, write, flush: when it succeeds, and what it does to the file, its chain and its size |
| `FatSystem.ReadFileOk` | src/drivers/fat64/fat64.c:354-405 | opening and reading gives the bytes of the file's clusters, as many as there are |
| `FatSystem.WriteReadRoundTrip` | src/drivers/fat64/fat64.c:354-405 | bytes that fit, written and flushed, are what a handle opened afterwards reads |
| `FatSystem.OtherFilesKept` | src/drivers/fat64/fat64.c:251-377 | no other file reads differently afterwards, whatever was written |
| `FatSystem.TouchOk` | src/drivers/fat64/fat64.c:407-436 | touch files an empty file of the name given in the slot it looked up, on the least free cluster, and changes nothing else |
| `FatSystem.CreatedNamed` | src/drivers/fat64/fat64.c:363-436 | after a touch, a write of which n bytes go in, and a flush, dir_entry gives a handle whose entry has the name given, size n and the valid flag alone; n is all of them if and only if the free clusters suffice |
| `FatSystem.RemoveUndoesCreate` | src/drivers/fat64/fat64.c:228-436 | touch, any write, flush and rm restore the tag table exactly and every other slot |
| `FatSystem.ResolveOk` | src/drivers/fat64/fat64.c:380-405 | opening slot after slot from the root gives handles at the level of the path's length |
| `FatSystem.EveryFileReached` | src/drivers/fat64/fat64.c:407-467 | the directories form a tree: every chain above the tag table is reached from the root |
| `FatSystem.StepKeepsWhole` | src/drivers/fat64/fat64.c:228-467 | creation, writing and removal through fresh handles keep the file system whole |
| `FatSystem.RunKeepsWhole` | src/drivers/fat64/fat64.c:228-467 | every run of creations, writes and removals keeps the file system whole |
| `FatDisk.TagAddresses` | src/drivers/fat64/fat64.c:567-573 | tag addresses are injective and inside the clusters of the tag table |
| `FatDisk.DataAddresses` | src/drivers/fat64/fat64.c:493-509 | cluster sectors are injective and, from the root on, clear of the tag table |
| `FatDisk.ClusterPlace` | src/drivers/fat64/fat64.c:493-509 | cluster c is the 4096 bytes of the disk from 4096 + 4096 c on |
| `FatDisk.TagPlace` | src/drivers/fat64/fat64.c:567-583 | its tag is the 16 bytes from 8192 + 16 c on, prev and next low byte first |
| `FatDisk.EntryPlace` | src/drivers/fat64/fat64.h:30-45 | entry i of directory d is the 512 bytes from 4096 + 4096 d + 512 i on, each field at its offset |
| `FatDisk.PutTagOk` | src/drivers/fat64/fat64.c:658-675 | rewriting a tag's sector changes that tag of the volume and nothing else |
| `FatDisk.PutClusterOk` | src/drivers/fat64/fat64.c:511-532 | writing eight sectors changes that cluster and nothing else |
| `FatDisk.PutEofOk` | src/drivers/fat64/fat64.c:514-528 | the same for cluster 0xFFFFFFFF lands before the partition and leaves the volume alone |
| `FatDisk.MkfsTable` | src/drivers/fat64/fat64.c:116-132 | mkfs marks the superblock and the root as single clusters and the 1024 of the tag table as one chain, linked both ways, and no other tag |
| `FatDisk.MkfsFree` | src/drivers/fat64/fat64.c:116-132 | after mkfs exactly the clusters above the root are free if and only if they were marked free before |
| `FatDisk.MkfsEmpty` | src/drivers/fat64/fat64.c:82-133 | mkfs leaves an empty whole file system, under any layout, if and only if the tags above the root were free and the root had no entries |
| `FatDisk.MkfsOnZeroedDisk` | src/drivers/fat64/fat64.c:82-133 | on a zeroed disk mkfs makes a whole file system with every cluster above the root free |
| `FatDisk.ReachableWhole` | src/drivers/fat64/fat64.c:82-467 | every volume reachable from mkfs on a zeroed disk is whole: disjoint chains linked both ways, one entry for each |
| `FatDisk.MkfsErasesNothing` | src/drivers/fat64/fat64.c:116-132 | mkfs over any of these leaves the volume exactly as it was |
| `FatDriver.Drive.MarkCluster` | src/drivers/fat64/fat64.c:658-675 | in place: one tag of the volume changes |
| `FatDriver.Drive.LoadClusterTags` | src/drivers/fat64/fat64.c:567-583 | the handle gets the tag of its cluster |
| `FatDriver.Drive.SaveClusterTags` | src/drivers/fat64/fat64.c:585-604 | the tag of the handle's cluster is written to the volume, no other changes |
| `FatDriver.Drive.GetFreeCluster` | src/drivers/fat64/fat64.c:606-642 | the scan by sectors finds the cluster a scan tag by tag would call free |
| `FatDriver.Drive.LoadCluster` | src/drivers/fat64/fat64.c:493-509 | the buffer gets the eight sectors of the cluster |
| `FatDriver.Drive.SaveCluster` | src/drivers/fat64/fat64.c:511-532 | a dirty buffer goes to the disk, a clean one nowhere |
| `FatDriver.Drive.OpenCluster` | src/drivers/fat64/fat64.c:559-565 | the handle gets data and tag of its cluster |
| `FatDriver.Drive.SaveDirEntry` | src/drivers/fat64/fat64.c:545-557 | one slot of the directory on disk changes |
| `FatDriver.Drive.Getc` | src/drivers/fat64/fat64.c:251-285 | volume, handle, byte and status as specified |
| `FatDriver.Drive.Store` | src/drivers/fat64/fat64.c:326-350 | the part of putc after growth: byte, position, size on disk and turn to the next cluster |
| `FatDriver.Drive.Grow` | src/drivers/fat64/fat64.c:303-324 | the growth inside putc: least free cluster linked, old cluster saved, new one opened, or EOF and nothing changed |
| `FatDriver.Drive.Putc` | src/drivers/fat64/fat64.c:287-352 | volume, handle and status as specified |
| `FatDriver.Drive.Read` | src/drivers/fat64/fat64.c:354-361 | the loop fills the caller's buffer with the specified bytes and leaves the rest of it alone |
| `FatDriver.Drive.Write` | src/drivers/fat64/fat64.c:363-370 | the loop does to volume and handle what the specification does |
| `FatDriver.Drive.Flush` | src/drivers/fat64/fat64.c:372-377 | saves a dirty buffer |
| `FatDriver.Drive.DirEntry` | src/drivers/fat64/fat64.c:380-405 | opens a slot in a second handle, which keeps its value if there is nothing to open |
| `FatDriver.Drive.GetFreeDirEntry` | src/drivers/fat64/fat64.c:644-656 | the scan over the handle's buffer finds the first unused slot or EOF |
| `FatDriver.Drive.Touch` | src/drivers/fat64/fat64.c:407-436 | in place, with the slot looked up before the reload; the slot on disk has the name given, size 0 and the valid flag alone |
| `FatDriver.Drive.Mkdir` | src/drivers/fat64/fat64.c:438-467 | in place; the slot on disk has the name given, size 4096 and both flags, and the new cluster is all zeros; on a full volume the sectors before the partition become zero |
| `FatDriver.Drive.Rm` | src/drivers/fat64/fat64.c:228-249 | the loop in place ends and frees what the specification frees |
| `FatDriver.Drive.Mkfs` | src/drivers/fat64/fat64.c:82-152 | boot record, superblock and exactly the tags up to the root are written |
| `FatDriver.Drive.WriteSlot` | src/drivers/fat64/fat64.c:363-405 | dir_entry, write and flush on the disk, as specified |
| `FatDriver.Drive.ReadSlot` | src/drivers/fat64/fat64.c:354-405 | dir_entry and read on the disk, as specified; the volume is left alone |
| `FatDriver.Drive.WriteReadSlot` | src/drivers/fat64/fat64.c:354-405 | the round trip in place: what was written and flushed is what is read after opening again |
| `FatDriver.Drive.CreateWriteRead` | src/drivers/fat64/fat64.c:354-436 | the same for a file touched first, whenever the volume has the clusters; a file system is left |
| `FatDriver.FileCanWrite` | src/drivers/fat64/fat64.c:363-370 | a handle on a file always meets what the in-place write needs |
| `FatDriver.FileCanRead` | src/drivers/fat64/fat64.c:354-361 | a handle on a file meets what the in-place read needs, up to the last byte of the last cluster, and at the end mark for any amount |
| `FatDriver.FileRemovable` | src/drivers/fat64/fat64.c:228-249 | a handle on the root or at any cluster of a file of a whole file system meets what the in-place removal needs |
| `ConsoleNumbers.PrintedRoundTrip` | src/kernel/c_io.c:293-319 | every int is read back from what cvtdec prints, with no leading zeros, in at most 11 characters |
| `ConsoleNumbers.PrintedInjective` | src/kernel/c_io.c:308-319 | different ints print differently |
| `ConsoleNumbers.NumeralRoundTrip` | src/kernel/c_io.c:293-343 | printing then reading gives the number back |
| `ConsoleNumbers.DenotationRoundTrip` | src/kernel/c_io.c:293-343 | reading then printing gives back every numeral without leading zeros |
| `ConsoleNumbers.Cvtdec0` | src/kernel/c_io.c:293-306 | the recursion writes exactly the numeral, the most negative int included |
| `ConsoleNumbers.Cvtdec` | src/kernel/c_io.c:308-319 | sign, numeral and terminator, at most 12 bytes, nothing else written |
| `ConsoleNumbers.HexRoundTrip` | src/kernel/c_io.c:323-343 | every 32-bit pattern is read back from at most eight digits without leading zeros |
| `ConsoleNumbers.Cvthex` | src/kernel/c_io.c:323-343 | the shifting loop writes exactly that numeral and a terminator, at most 9 bytes |
| `ConsoleRing.PendingLength` | src/kernel/c_io.c:670-678 | c_input_queue is the number of characters waiting, and the ring is full at 199 |
| `ConsoleRing.StepKeepsInv` | src/kernel/c_io.c:573-648 | whichever of handler and reader moves next, accepted is returned plus waiting |
| `ConsoleRing.RunKeepsInv` | src/kernel/c_io.c:573-648 | the same over every interleaving of handler and reader |
| `ConsoleRing.NothingLost` | src/kernel/c_io.c:573-678 | over every interleaving c_getchar returns the accepted characters in order, without loss or repetition |
| `ConsoleRing.RefusedWhenFull` | src/kernel/c_io.c:617-625 | a character is refused exactly when 199 are waiting, and then nothing changes |
| `ConsoleRing.UndisturbedRead` | src/kernel/c_io.c:636-648 | a reader left alone gets the oldest character |
| `ConsoleRing.UndefinedKeyStored` | src/kernel/c_io.c:613-625 | an undefined key is stored like any other |
| `ConsoleRing.InputBuffer.InputScanCode` | src/kernel/c_io.c:580-629 | the handler in place, in plain key codes: shift and control after it, and the characters waiting, with the table's entry of that row, low 5 bits under control, added for the press of any other key if fewer than 199 wait |
| `ConsoleRing.InputBuffer.GetChar` | src/kernel/c_io.c:641-642 | the oldest character, removed |
| `ConsoleRing.InputBuffer.InputQueue` | src/kernel/c_io.c:670-678 | the number of characters waiting |
| `ConsoleKeys.ShiftFollowsKeys` | src/kernel/c_io.c:589-598 | over every run shift is on if and only if the last of codes 2a, 36, aa, b6 was 2a or 36, or none came and it was on before |
| `ConsoleKeys.CtrlFollowsKeys` | src/kernel/c_io.c:600-606 | and so is control, of 1d and 9d |
| `ConsoleKeys.PressAccepts` | src/kernel/c_io.c:608-627 | the press of any other key accepts the table's entry of the row that shift selects, modulo 32 under control, if fewer than 199 are waiting, and else changes nothing |
| `ConsoleKeys.OthersAcceptNothing` | src/kernel/c_io.c:589-613 | a release or a modifier accepts nothing |
| `ConsoleKeys.PressAfterRun` | src/kernel/c_io.c:580-629 | after every run of keys and reads the key codes of the run alone decide what a press accepts |
| `ConsoleKeys.LetterKeys` | src/kernel/c_io.c:518-562 | the letter keys of the table give small letters, with shift their capitals, and with control 1 to 26 either way |
| `ConsoleKeys.CapitalA` | src/kernel/c_io.c:580-629 | codes 2a, 1e, aa on a new keyboard give a capital A |
| `ConsoleScroll.RowsAboveKept` | src/kernel/c_io.c:170-207 | no output changes a row above the cursor or loses one |
| `ConsoleScroll.PlainTextStands` | src/kernel/c_io.c:197-204 | plain text stands character by character along the rows from where it began, each as 0x0700 + the character, or the low 16 bits if it has attributes |
| `ConsoleScroll.TypeEffect` | src/kernel/c_io.c:170-207 | each character in numbers: 10 blanks the rest of the row and starts the next, 13 goes to its start, any other is stored and moves on, past the last column to the next row; all other cells are kept |
| `ConsoleScroll.TextReadBack` | src/kernel/c_io.c:98-117 | plain 8-bit text is read back from the low bytes of the cells, whose high bytes are 7 |
| `ConsoleScroll.TextsDiffer` | src/kernel/c_io.c:98-117 | different plain texts of one length leave different cells |
| `ConsoleScroll.FeedScrolls` | src/kernel/c_io.c:174-177 | a new row of paper is a scroll of the window by one |
| `ConsoleScroll.Console.SetScroll` | src/kernel/c_io.c:119-127 | corners off the screen are moved to its last row and column, an end before the start to the start, the cursor to the start |
| `ConsoleScroll.Console.ClearScroll` | src/kernel/c_io.c:232-244 | blanks the region and nothing else |
| `ConsoleScroll.Console.Scroll` | src/kernel/c_io.c:257-291 | the region moves up by so many rows, blank below; the cursor moves only when all is cleared |
| `ConsoleScroll.Console.PutcharAt` | src/kernel/c_io.c:98-117 | one cell on the screen, 0x0700 + the character or the low 16 bits if it has attributes, or nothing off it |
| `ConsoleScroll.Console.Putchar` | src/kernel/c_io.c:170-207 | output on the region refines output on an endless paper seen through the region; cells outside are unchanged and the cursor is in the region or at the start of the line below |
| `ConsoleScroll.Console.ShowsItsRows` | src/kernel/c_io.c:170-207 | whatever is on the screen, the region shows some paper: the one made of its rows |
| `ConsoleScroll.Console.TextShown` | src/kernel/c_io.c:98-207 | of plain text put out on the region what has not scrolled off stands there character by character, in the same numbers |
| `ConsoleScroll.Console.Puts` | src/kernel/c_io.c:223-229 | a string on the region is the string on the paper |

## Left out

- IDE, PCI, UART, PIC, VESA and mouse register traffic; sectors are read and written as values.
- `_kalloc_init` and its memory probing: the heap starts from any well-formed, non-touching free list.
- KernelHeap.Heap.Kfree: not for blocks of length zero, which a request of zero bytes can give: they have no room for a link.
- Contexts, stack contents and the pointer fix-up of fork and exec: a process keeps its stack's identity and the pid it waits for.
- Pids are the id part on one host and never wrap.
- ProcessKernel.System.constructor: init starts out running; in the kernel `_init` prepares it and it is dispatched first. The rest of `_init` is not part of this model.
- ProcessKernel.System.SysWait: the NULL check on the info structure, and what is returned in it, are not modelled, nor are exit statuses.
- ProcessKernel.System.SerialInput: buffered characters are a count; the buffer pointers of src/kernel/sio.c, which never wrap, are not modelled.
- yield is modelled and `YieldLosesCaller` proved, but it is no step of the runs the invariants are about. The terminal and screen calls are left out.
- WildPointer stands for a data pointer that names no PCB; it is proved unreachable. After a panic the state of the in-place model is not specified.
- `_q_reset` of a queue that holds nodes is not modelled; the kernel resets queues only at start.
- FatDriver.Drive.DirEntry: not for slot 8, which src/drivers/fat64/fat64.c:390 lets through and which lies behind the buffer.
- FatDriver.Drive.Touch: only in a directory with an unused slot, as in a full one the entry is written outside the buffer; names have at most 255 bytes before the terminating zero.
- FatDriver.Drive.Mkdir: the same two conditions, and only on volumes with no free cluster below the root, as mkfs makes them.
- FatDriver.Drive.Mkfs: the contents of the boot record and of the superblock are parameters.
- FatDriver.Drive.Rm: not for handles whose tags lead the loop off the volume or round a cycle; by `FileRemovable` no handle on a whole file system is one.
- FatDriver.Drive.Read: for a handle that got to the end by reading, not past the last byte of the last cluster, where the byte behind the buffer would be fetched.
- FatFile.PutcOk: not for a handle that getc left at location 4096, one past the buffer, where putc stores behind it.
- FatFile.StoreOk: the same.
- FatFile.WriteOk: not for a handle at location 4096.
- FatFile.WriteSucceeds: not for a handle at location 4096.
- FatFile.GetcOk: not for a handle at location 4096, where the byte behind the buffer is fetched.
- FatDriver.Drive.Getc: not for a handle at location 4096.
- FatDriver.Drive.Putc: not for a handle at location 4096.
- FatDriver.Drive.Write: not for a handle at location 4096.
- FatDriver.Drive.ReadSlot: not for more bytes than the clusters of the file hold.
- FatDriver.Drive.LoadClusterTags: past the end of the disk, as at the end of rm, the tag is unspecified.
- Transfers of 4 GiB or more, which the 32-bit loop counters of read and write cannot count.
- Two handles on one file at the same time: each has its own buffer, and the properties are about one at a time.
- Times in directory entries, the size as a limit for reading (the code does not check it), `fat64_open` paths, `fat64_close`, `fat64_reopen` and the user copy of the partition data.
- Partitions other than the fixed 1 GiB at sector 8; the boot record and superblock are opaque sectors.
- ConsoleRing.InputBuffer.GetChar: the waiting loop is the Testing step of the reader in the interleaved model; the echo, and rings of other screens, are not modelled.
- Video memory is a two-dimensional array, so row arithmetic on addresses is not modelled; cursor registers, c_moveto and c_putchar_at with a newline are left out.
- cvtoct, the printf argument walk and field padding.
- src/kernel/screen.c, irqs.c, kalloc.c and the message and network code.
