# The kernel's allocators, scheduler, synchronisation and small tools, modelled and proved

A Dafny model of the hard parts of a small C kernel and of the programs around it, with proofs of what
they promise. `dafny verify dfyconfig.toml` checks the whole project.

- `Bits`, `BuddyBlocks`, `BuddyList`, `Buddy`: the buddy allocator. `BuddyBlocks` is the theory of
  aligned blocks that tile the arena; `BuddyList` the circular lists threaded through headers in memory;
  `Buddy` the allocator itself, whose headers live inside the heap it manages. `Buddy.Allocator` keeps a
  ghost map of blocks and a ghost sequence for each list, and every method is proved against them.
- `FreeList`: the other allocator, a circular address-ordered list with first fit, tail carving and
  joining on both sides.
- `Scheduling`, `Scheduler`: the scheduler, once as transitions between values with its laws over runs,
  and once as the linked queue with counters that the C relinks in place; each entry point of the second
  is proved to do what the first says. `Dispatching` tells each entry point by what processes see of it.
- `Signalling`, `Semaphores`: semaphores joined with the scheduler, in the same two forms. System calls
  run with interrupts off, so a call is one step up to the point where it gives the processor away.
  `Waiting` tells each call by its tokens, its waiters and the processes.
- `Piping`, `Pipes`: the bounded buffer between any readers and writers, on top of both. `PipeRuns` tells
  what one read or write does, and that those who wait are served in order.
- `TestSync`, `Philosophers`: two clients of the semaphores, stepped so finely that any process may come
  between any two accesses to shared data. `Crowd` says how many processes the first one is good for;
  `Forks` when the forks of the second are held by one at a time.
- `Bmfs`, `BmfsRuns`: contiguous allocation in the directory of a disk image, one call and whole runs.
- `Numbers`, `Tokenizer`: printing and parsing numbers, and cutting a text into words in place.

A process that blocks inside a call is modelled by two steps: the one that puts it to sleep, and the one
with which it goes on when it runs again. What other processes do in between is unrestricted but for the
conditions named below.

## Where the code does not do what it is meant to

Each of these is a condition of a theorem, stated where it can be checked before the call, and most have
a lemma that shows the failure at an input or after a run that the code can get.

- `mallocCust` of the buddy allocator keeps the request in an `int` and the level in a `uint8_t` that it
  compares with -1; the bound test is `>` for `>=`. With no block left it does not return NULL but pops
  from a list that is not there (`WildPop` in the model): exactly when the size passed the test and no
  level has a block, or the size wrapped to 0. A size that wraps to 1 to 16 gets a block smaller than its
  header (`Buddy.BlockHoldsHeader`).
- The free-list allocator breaks its own invariant in two situations with a list of one node: an exact
  fit of that node, and freeing its left neighbour. Both are stated as exactly the cases in which the
  invariant is lost, and both are reached (`FreeList.WholeArena`, `FreeList.LastNeighbour`). `totalUnits`
  is one unit more than the memory given.
- `sWait` does not check the bound of `blockedPIDs`; a killed waiter stays listed; an outside unblock, or
  the death of a foreground child, wakes a waiter that has no token. `Signalling.KeepsJointIffAllowed`
  names exactly these, and the close of a semaphore with waiters.
- `sOpen` refuses the seventeenth listener with -1 as a 32-bit word, which user space compares with a
  64-bit -1, so the refusal is not noticed. One refused process does no harm. With two, a run may have two
  processes in slowInc, and lose an update, unless one at most adds anything: `Crowd.OneInsideIff` and
  `Crowd.CounterIff` are the exact conditions, `Crowd.LosesUpdate` a run with eighteen processes.
- A philosopher's semaphore starts at 1, so one that is HUNGRY may get through its sWait without EATING. No
  two neighbours are EATING, but they can hold forks at once: that never happens if and only if the
  semaphores start at 0 (`Forks.ForksApartIff`), and `Forks.StepHonest` names the step at which it does.
- A newcomer may sit down between a HUNGRY philosopher and the only neighbour that would have woken it
  (`Philosophers.ServedIffNeverCuts`, `Forks.CutExample`).
- `create` of the disk tool goes on searching among deleted records once no gap fits. Its unsigned
  subtraction wraps exactly when a file of no blocks, which the tool itself does not make, starts where
  another file does (`Bmfs.FindsIffClear`). When it fills the very last record, the directory has no end
  left; once a record is free again it counts no files at all, puts a file at block 1 without looking, and,
  if the free record is the first, ends the directory right behind it (`BmfsRuns.LosesFiles`).
  `BmfsRuns.CreateIsSafe` is the exact condition.

## Model

| member | source | states |
|---|---|---|
| Bits.XorTogglesBit | Kernel/memory_manager/buddy.c:177-184 | exclusive or with one bit, on unbounded words, adds the bit's weight where it was clear and takes it away where it was set |
| Bits.AndNotClearsBit | Kernel/memory_manager/buddy.c:187-197 | and with the complement of one bit clears exactly that bit |
| Bits.PowerOfTwoTest | Kernel/memory_manager/buddy.c:158-159 | the test `b && !(b & (b - 1))` holds exactly of powers of two |
| Bits.Log2 | Kernel/libraries/utils.c:265-276 | the shift loop returns -1 for 0 and otherwise the floor of the logarithm |
| BuddyBlocks.BuddyAndParent | Kernel/memory_manager/buddy.c:177-197 | at an aligned offset the xor gives the other half of the parent and the mask the parent's start, in plain arithmetic |
| BuddyBlocks.BuddyIsSibling | Kernel/memory_manager/buddy.c:177-184 | the buddy is of the same alignment, disjoint, inside the arena, and its buddy is the block itself |
| BuddyBlocks.SiblingIsBlock | Kernel/memory_manager/buddy.c:94-102 | in any tiling the address freeCust reads is the start of a current block, of at most the same level, and never stale data |
| BuddyBlocks.HalveKeepsTiling | Kernel/memory_manager/buddy.c:74-78 | a split keeps the blocks a partition of the arena, each aligned to its size |
| BuddyBlocks.JoinKeepsTiling | Kernel/memory_manager/buddy.c:97-103 | a join keeps the blocks a partition of the arena, each aligned to its size |
| BuddyBlocks.HalveKeepsCoalesced | Kernel/memory_manager/buddy.c:74-78 | a split leaves no two free buddies of one level |
| BuddyBlocks.ReleaseKeepsCoalesced | Kernel/memory_manager/buddy.c:97-105 | filing a block whose buddy is not free leaves no two free buddies of one level |
| BuddyBlocks.AllFreeIsOneBlock | Kernel/memory_manager/buddy.c:85-106 | a coalesced tiling with nothing allocated is the single top-level block |
| BuddyBlocks.LiveDeterminesBlocks | Kernel/memory_manager/buddy.c:85-106 | the allocated blocks alone determine a coalesced tiling, so the order of frees does not matter |
| BuddyList.Headers.ListInit | Kernel/memory_manager/buddyList.c:5-9 | an empty circular list, nothing else touched |
| BuddyList.Headers.IsEmpty | Kernel/memory_manager/buddyList.c:41-44 | true exactly of the empty list |
| BuddyList.Headers.ListPush | Kernel/memory_manager/buddyList.c:11-18 | the list gets the entry at its end; only links of its own nodes change |
| BuddyList.Headers.ListRemove | Kernel/memory_manager/buddyList.c:20-26 | the list loses exactly the entry, found by its links alone |
| BuddyList.Headers.ListPop | Kernel/memory_manager/buddyList.c:28-35 | NULL on the empty list, else the last entry, and the list loses exactly it |
| Buddy.LevelForUnique | Kernel/memory_manager/buddy.c:148-162 | the level of a request is the only one whose block holds it while no lower one does |
| Buddy.FindIdealLevel | Kernel/memory_manager/buddy.c:148-162 | through log2 and the power-of-two test, the least level whose block holds the bytes |
| Buddy.Allocator.constructor | Kernel/memory_manager/buddy.c:31-52 | memInit: every list empty but the top one, which holds the whole arena as one block |
| Buddy.Allocator.GetFirstAvailableLevel | Kernel/memory_manager/buddy.c:164-175 | the first level from minLevel on with a free block, and `levels`, not -1, when there is none |
| Buddy.Allocator.Fragment | Kernel/memory_manager/buddy.c:74-78 | one turn of the split loop: the lower half stays withheld, the upper one is filed, one level down |
| Buddy.Allocator.Carve | Kernel/memory_manager/buddy.c:73-82 | the whole split loop: a block of exactly minLevel is cut out of a free one, and no other block changes |
| Buddy.Allocator.Malloc | Kernel/memory_manager/buddy.c:54-83 | NULL if and only if nothing is asked for, or the low 32 bits of request and header are 2^31 or more, or over the memory by more than a byte; so a request that with its header is below 2^31 and not over the memory by more than a byte is never refused, and one for which a free block is large enough is granted. The block granted is of the least level that holds the request, cut from the block filed last at the least level that has one, without touching the allocated ones; a wild pop exactly when the wrapped size is 0 or no level has a block; the heap invariant is kept. For all requests but those whose wrapped size is 1 to 16 |
| Buddy.SizeTest | Kernel/memory_manager/buddy.c:56-61 | the size test through the int and its conversion to an unsigned word, in plain arithmetic, with the wrapped cases |
| Buddy.LargeEnough | Kernel/memory_manager/buddy.c:56-64 | a request for which some free block is large enough passes the test and finds a block |
| Buddy.Allocator.FreeThenMalloc | Kernel/memory_manager/buddy.c:54-106 | a block freed whose buddy is not free is what the next request of its level gets, and everything is as it was |
| Buddy.BlockHoldsHeader | Kernel/memory_manager/buddy.c:56-63 | those are exactly the requests whose block would be smaller than the header |
| Buddy.SmallBlockExample | Kernel/memory_manager/buddy.c:56-63 | on a 64 MiB heap a request just under 4 GiB passes the size test and is of that kind |
| Buddy.Allocator.Coalesce | Kernel/memory_manager/buddy.c:97-103 | one turn of the coalescing loop on headers and lists is one join of the tiling |
| Buddy.Allocator.Free | Kernel/memory_manager/buddy.c:85-106 | exactly the block freed leaves the allocated ones, and tiling, lists, headers and maximal coalescing are kept; a block that cannot be joined is filed last on the list of its level |
| Buddy.Allocator.OwnerWrites | Kernel/memory_manager/buddy.c:80-83 | whatever an owner writes past the header of its block, the allocator's invariant stands |
| Buddy.Allocator.FreeAll | Kernel/memory_manager/buddy.c:85-106 | freeing all allocated blocks in any order restores the single top-level block memInit made |
| Buddy.GrantedIsExclusive | Kernel/memory_manager/buddy.c:54-83 | a granted block is aligned, inside the arena and clear of every block allocated before |
| Buddy.RequestHeldIffItFits | Kernel/memory_manager/buddy.c:56-63 | the granted block holds request and header exactly when both together fit in an int |
| Buddy.OversizedRequestExample | Kernel/memory_manager/buddy.c:56 | a request just over 4 GiB is cut down to a 32-byte block |
| Buddy.OutOfMemoryExample | Kernel/memory_manager/buddy.c:58-69 | on a fresh 64 MiB heap a request passes the size test though no block holds it, and NULL is not the answer |
| Buddy.FreeUndoesMalloc | Kernel/memory_manager/buddy.c:54-106 | freeing what was granted restores the heap block by block |
| FreeList.Allocator.constructor | Kernel/memory_manager/memoryManager.c:28-35 | memInit: one free piece of exactly the units counted, which reach past the memory given |
| FreeList.Allocator.Search | Kernel/memory_manager/memoryManager.c:43-65 | one trip round the circle ends at the next piece that fits, or shows that none does |
| FreeList.Allocator.Malloc | Kernel/memory_manager/memoryManager.c:38-66 | NULL exactly when nothing is asked for or no free piece is large enough, and then nothing changes; else the next fit from startingNode, of which exactly the last units become the block, the rest staying free, and startingNode is then the predecessor of that piece on the old list; the invariant is kept, except that after an exact fit of the only node it is certainly broken |
| FreeList.Allocator.MallocTwice | Kernel/memory_manager/memoryManager.c:38-66 | two calls: a request that fits what is left of the piece just split gets the end of it, right below the first block |
| FreeList.Allocator.Locate | Kernel/memory_manager/memoryManager.c:81-92 | the walk ends early exactly when the block is on the list already; else it finds the two free neighbours between which the block lies, in address order |
| FreeList.AbsurdOrNot | Kernel/memory_manager/memoryManager.c:94-95 | the last test before joining never fires for an allocated block, and always for the inside of a free piece that is not the last on the list |
| FreeList.Allocator.Free | Kernel/memory_manager/memoryManager.c:68-114 | NULL, pointers outside the arena, and second frees of what is still a free piece or inside one that is not the last change nothing; else exactly the block freed leaves the allocated ones, joined on both sides, and startingNode is the last free piece below it, or the last of all if there is none; the invariant is kept, except that it is certainly broken when the block is the left neighbour of the only node |
| FreeList.Allocator.FreeAll | Kernel/memory_manager/memoryManager.c:68-114 | freeing all allocated blocks in any order that does not come to that corner restores the single piece memInit made |
| FreeList.OffCornerIff | Kernel/memory_manager/memoryManager.c:68-114 | any other order has a block that is the first to come to the corner |
| FreeList.Allocator.FreeIntoCorner | Kernel/memory_manager/memoryManager.c:68-114 | and freeing up to that block breaks the invariant |
| FreeList.WholeArena | Kernel/memory_manager/memoryManager.c:28-66 | a new arena of any size, asked for exactly the memory it was given, breaks its invariant |
| FreeList.LastNeighbour | Kernel/memory_manager/memoryManager.c:28-114 | five calls on a new arena of 96 bytes that end with a free of the left neighbour of the only node and break the invariant |
| FreeList.Allocator.OwnerWrites | Kernel/memory_manager/memoryManager.c:61 | whatever an owner writes past the header of its block, the allocator's invariant stands |
| FreeList.ReleaseIsConsistent | Kernel/memory_manager/memoryManager.c:97-113 | the two joins keep the list circular, in address order, and the free pieces apart |
| FreeList.AllFreeIsOnePiece | Kernel/memory_manager/memoryManager.c:97-113 | with nothing allocated there is one free piece at base, as memInit made it |
| FreeList.LiveDeterminesPieces | Kernel/memory_manager/memoryManager.c:68-114 | the allocated pieces alone determine the free ones |
| FreeList.UnitsHoldRequest | Kernel/memory_manager/memoryManager.c:43 | the units hold request and header with less than a unit to spare, exactly when the rounding does not wrap; when it does, they are one |
| FreeList.AllottedIsExclusive | Kernel/memory_manager/memoryManager.c:50-62 | a piece allotted is inside the arena and clear of every piece allotted before |
| FreeList.FreeUndoesMalloc | Kernel/memory_manager/memoryManager.c:38-114 | freeing what was allotted restores the arena piece by piece |
| Scheduling.LoopPass | Kernel/task_manager/schedule.c:155-167 | one turn of the dequeue loop leaves what the loop ends with unchanged, and comes one nearer to the first READY process |
| Scheduling.StepKeepsInv | Kernel/task_manager/schedule.c:124-500 | every operation keeps process conservation and the bounds on priorities and cycles |
| Scheduling.RunKeepsInv | Kernel/task_manager/schedule.c:124-500 | so does every run |
| Scheduling.EveryProcessOnce | Kernel/task_manager/schedule.c:134-173 | from boot, each process created is current, queued or freed, exactly once in all, over every run |
| Scheduling.TickFreesKilled | Kernel/task_manager/schedule.c:138-161 | whatever a scheduler call frees was KILLED when it was called |
| Scheduling.KilledIsFinal | Kernel/task_manager/schedule.c:300-336 | no operation brings a KILLED process back; it leaves only by being freed |
| Scheduling.TickAdvances | Kernel/task_manager/schedule.c:124-173 | a scheduler call makes a READY process current or shortens its wait |
| Scheduling.StepAdvances | Kernel/task_manager/schedule.c:124-500 | no operation but one aimed at the process itself pushes it back |
| Scheduling.BoundedWaiting | Kernel/task_manager/schedule.c:124-173 | a READY process with k others before it becomes current within (PRIO_CAP + 1) * (k + 1) scheduler calls, whatever is asked for others meanwhile |
| Scheduler.Kernel.constructor | Kernel/task_manager/schedule.c:107-122 | initScheduler: an empty queue and an idle process that is not queued |
| Scheduler.Kernel.ProcessQueue | Kernel/task_manager/schedule.c:467-485 | the node goes last, both counters stay exact, and the chain ends in NULL though the link is not always cleared |
| Scheduler.Kernel.ProcessDequeue | Kernel/task_manager/schedule.c:487-500 | the first node comes off, both counters stay exact |
| Scheduler.Kernel.GetProcessOfPID | Kernel/task_manager/schedule.c:288-298 | the current process, else the first queued one with the pid, else NULL |
| Scheduler.Kernel.SetNewState | Kernel/task_manager/schedule.c:300-323 | the state transition, with readySize following exactly the queued READY processes; a KILLED process is refused |
| Scheduler.Kernel.DequeueReady | Kernel/task_manager/schedule.c:152-168 | the loop never meets NULL, ends, and settles on the first READY process, freeing the KILLED ones and requeueing the BLOCKED ones it passes in order |
| Scheduler.Kernel.Tick | Kernel/task_manager/schedule.c:124-173 | on the linked queue, exactly the transition of Scheduling, with neither the current nor the idle process queued |
| Scheduler.Kernel.KillProcess | Kernel/task_manager/schedule.c:325-336 | exactly the transition, and the value returned |
| Scheduler.Kernel.BlockProcess | Kernel/task_manager/schedule.c:338-345 | exactly the transition, and the value returned |
| Scheduler.Kernel.UnblockProcess | Kernel/task_manager/schedule.c:347-350 | exactly the transition, and the value returned |
| Scheduler.Kernel.SetNewCycle | Kernel/task_manager/schedule.c:395-407 | the priority, clamped to 0 and PRIO_CAP, of the process if there is one |
| Scheduler.Kernel.KillFgProcess | Kernel/task_manager/schedule.c:409-416 | kills the current process if it is READY in the foreground |
| Scheduler.Kernel.Yield | Kernel/task_manager/schedule.c:418-422 | the current process gives up its remaining cycles and the scheduler runs |
| Scheduler.Kernel.WaitForPID | Kernel/task_manager/schedule.c:447-455 | the process becomes a foreground one and the caller blocks, if the pid is known |
| Scheduling.RunKeepsBackground | Kernel/task_manager/schedule.c:209-230 | where nobody is in the foreground, no run of operations other than waitForPID ever brings a process there, whatever is asked for new ones |
| Scheduler.Kernel.AddProcess | Kernel/task_manager/schedule.c:175-207 | where fg is accepted the child is there, READY, with the caller's pid as its parent, in the foreground exactly when asked for from the foreground or before the first tick, and with the priority of that; a foreground child leaves its parent BLOCKED; a refused one still uses up a pid |
| Dispatching.OthersStay | Kernel/task_manager/schedule.c:124-455 | a process that an operation neither names nor is asked by is afterwards as it was, in every field, but for a parent that is READY again when its foreground child ends while it runs |
| Dispatching.ForegroundBlocks | Kernel/task_manager/schedule.c:196-206 | a foreground child of a foreground process leaves its parent BLOCKED, itself READY with priority 2, and the processor to the first READY one in line |
| Dispatching.BackgroundJoins | Kernel/task_manager/schedule.c:209-230 | any other child joins the queue READY, last, and nothing else changes: who it belongs to, whether it is in the foreground and its priority are as computed |
| Dispatching.RefusedTakesPid | Kernel/task_manager/schedule.c:209-216 | a request for neither makes nobody and uses up a pid |
| Dispatching.ForegroundWaits | Kernel/task_manager/schedule.c:138-206 | over every run that does not wake it, the parent of a foreground child stays BLOCKED, and it is READY once such a child is killed while it runs |
| Dispatching.BlockBlocks | Kernel/task_manager/schedule.c:338-345 | the process named is BLOCKED and queued, its other fields as they were |
| Dispatching.UnblockReadies | Kernel/task_manager/schedule.c:347-350 | the process named is READY where it stands, its other fields as they were |
| Dispatching.NiceStores | Kernel/task_manager/schedule.c:395-407 | a priority from 0 to 40 is stored as it is, one below as 0 and one above as 40, at once and without touching the cycles left |
| Dispatching.KillKills | Kernel/task_manager/schedule.c:325-336 | a process past the first two that kills itself is freed, one that is queued is marked, and the current one goes on |
| Dispatching.KillNothing | Kernel/task_manager/schedule.c:325-336 | pids up to 2 and pids of nobody change nothing |
| Dispatching.KillFgEnds | Kernel/task_manager/schedule.c:409-416 | the current process is freed exactly when it is in the foreground and past the first two |
| Dispatching.WaitForBlocks | Kernel/task_manager/schedule.c:447-455 | the process waited for is in the foreground and the caller is BLOCKED, also when they are the same |
| Dispatching.SliceLasts | Kernel/task_manager/schedule.c:124-132 | while cycles are left n calls of the scheduler only take n of them away |
| Dispatching.SliceEnds | Kernel/task_manager/schedule.c:134-172 | with none left, or given away, the first READY process of the queue followed by the current one gets the processor, for as many cycles as its priority says; those behind it come next, then those passed over, in order, but for the KILLED ones, which are freed; if there is no READY one, the idle process runs |
| Dispatching.EndServes | Kernel/task_manager/schedule.c:138-172 | when a process ends, the line that is served is the queue with its waiting parent READY at its place |
| Signalling.StepBlocked | Kernel/task_manager/schedule.c:300-350 | a BLOCKED process stays BLOCKED exactly until it is unblocked, killed, or has its running foreground child killed |
| Signalling.PidsDistinct | Kernel/task_manager/schedule.c:288-298 | no pid is queued twice, and neither the current nor the idle process is queued |
| Signalling.AcquireKeepsInv | Kernel/sync/semaphores.c:67-89 | sWait conserves tokens, and keeps waiters in arrival order and out of a semaphore with a value |
| Signalling.ReleaseKeepsInv | Kernel/sync/semaphores.c:91-113 | sPost conserves tokens modulo the word, and hands them to waiters in arrival order |
| Signalling.KeepsJointIffAllowed | Kernel/sync/semaphores.c:28-137 | an operation of the scheduler or of the semaphores keeps the joint invariant exactly when it wakes or kills no waiter from outside, makes nobody wait for whom blockedPIDs has no place, and frees no semaphore with waiters |
| Signalling.DisallowedExample | Kernel/sync/semaphores.c:67-137 | a run from boot to a state in which an outside unblock, and a close, break the invariant |
| Signalling.NoLostWakeup | Kernel/sync/semaphores.c:67-113 | in every run of such operations from boot, who sleeps on a semaphore is on exactly that semaphore's list once and is BLOCKED in the scheduler, a semaphore with a value has no waiters, and tokens are conserved |
| Signalling.PostGrants | Kernel/sync/semaphores.c:98-107 | a post gives the first waiter its token: it is READY in the queue |
| Signalling.WaiterServed | Kernel/sync/semaphores.c:91-113 | the waiter with k before it has its token by the (k + 1)st post, whatever else happens meanwhile |
| Signalling.WokenRuns | Kernel/sync/semaphores.c:91-113 | a waiter that was handed its token, with j processes queued before it, runs within (PRIO_CAP + 1) * (j + 1) scheduler calls, whatever is asked of semaphores and scheduler meanwhile |
| Signalling.OpenersFit | Kernel/sync/semaphores.c:57-64 | where only openers wait, once each, blockedPIDs has room for every waiter |
| Waiting.WaitDoes | Kernel/sync/semaphores.c:67-89 | sWait takes one token, or puts its caller to sleep BLOCKED and last in the list and gives the processor to the first READY process; every other semaphore stays as it was, and an unknown id changes nothing |
| Waiting.PostDoes | Kernel/sync/semaphores.c:91-113 | sPost adds one token in a 32-bit word, or hands it to the first waiter, which is READY; every other semaphore and the running process stay as they were, and an unknown id changes nothing |
| Waiting.OpenDoes | Kernel/sync/semaphores.c:28-65 | sOpen makes a semaphore with the tokens asked for and one listener, or counts one more listener up to sixteen, and leaves tokens, waiters, processes and every other semaphore alone |
| Waiting.CloseDoes | Kernel/sync/semaphores.c:115-137 | sClose counts one listener less and frees the semaphore exactly with the last; processes and every other semaphore stay as they were |
| Semaphores.Semaphore.Shift | Kernel/sync/semaphores.c:100-103 | the loop takes the first pid off and moves the others up in order |
| Semaphores.Table.FindSem | Kernel/sync/semaphores.c:169-179 | the semaphore with the id, or NULL |
| Semaphores.Table.Open | Kernel/sync/semaphores.c:28-65 | exactly the transition on the linked list, and -1 as a 32-bit word when sixteen have it open |
| Semaphores.Table.Wait | Kernel/sync/semaphores.c:67-89 | on the list, the array and the scheduler's own queue together, exactly the joint transition |
| Semaphores.Table.Post | Kernel/sync/semaphores.c:91-113 | the same for sPost |
| Semaphores.Table.Close | Kernel/sync/semaphores.c:115-137 | the same for sClose in every case; the invariant is lost exactly when a semaphore with waiters goes |
| Piping.EventKeepsInv | Kernel/inter_process_comun/pipes.c:76-132 | a step of readers, writers or anyone else keeps the token counts exactly when it makes nobody wait for whom the lock has no place: unread bytes are the value of lockR and the readers woken, free places the value of lockW and the writers woken |
| Piping.PipeIsFifo | Kernel/inter_process_comun/pipes.c:76-132 | in every run with any readers and writers the bytes read are the first ones written, at most a bufferful is unread and lies in the buffer in order, and each process's bytes are written in the order given |
| Piping.UnreadKept | Kernel/inter_process_comun/pipes.c:114-115 | no step overwrites a byte that is not read yet |
| Piping.NeverStuck | Kernel/inter_process_comun/pipes.c:76-120 | waiting readers mean every unread byte is promised, waiting writers every free place, so somebody can go on |
| Piping.OpenedKeepsInv | Kernel/inter_process_comun/pipes.c:134-154 | a pipe on two new semaphores satisfies the invariant |
| PipeRuns.ReadDoes | Kernel/inter_process_comun/pipes.c:85-92 | a read sleeps exactly when the unread bytes are no more than the readers that were woken, changing nothing but who sleeps and waits; else it takes the oldest byte and serves the first waiting writer |
| PipeRuns.WriteDoes | Kernel/inter_process_comun/pipes.c:112-119 | a write sleeps exactly when the free places are no more than the writers that were woken, changing nothing but who sleeps and waits; else its byte is the last written and the first waiting reader is served |
| PipeRuns.ReaderServed | Kernel/inter_process_comun/pipes.c:76-120 | readers are served in the order in which they went to sleep: one with k others before it, in any run in which more than k bytes are put and at whose end it runs, has gone on by then or can there, with the oldest unread byte |
| PipeRuns.WriterServed | Kernel/inter_process_comun/pipes.c:76-120 | so are writers: one with k others before it, in any run in which more than k bytes are read and at whose end it runs, has put its next byte by then or can there |
| Pipes.OpenPipe.Read | Kernel/inter_process_comun/pipes.c:76-93 | pRead up to its end or its block, on the buffer, the semaphores and the scheduler together, is the step of Piping. It blocks exactly when every unread byte is promised: then its caller sleeps, BLOCKED and last in the list of lockR, and buffer, bytes and tokens are as they were. Else it returns the oldest unread byte and hands its place to the first waiting writer |
| Pipes.OpenPipe.ReadOn | Kernel/inter_process_comun/pipes.c:87-92 | pRead from where it blocked returns the oldest unread byte and hands its place to the first waiting writer |
| Pipes.OpenPipe.PutChar | Kernel/inter_process_comun/pipes.c:108-120 | putCharPipeByIdx up to its end or its block is the step of Piping. It blocks exactly when every free place is promised: then its caller sleeps, BLOCKED and last in the list of lockW, and buffer, bytes and tokens are as they were. Else the byte is the last written, and is handed to the first waiting reader |
| Pipes.OpenPipe.PutCharOn | Kernel/inter_process_comun/pipes.c:114-119 | putCharPipeByIdx from where it blocked: the byte is the last written, and is handed to the first waiting reader |
| Pipes.OpenPipe.PWrite | Kernel/inter_process_comun/pipes.c:95-106 | the loop of pWrite is a run of such steps that nobody comes between; it ends with all bytes written, or asleep on lockW |
| Pipes.OpenLocks | Kernel/inter_process_comun/pipes.c:147-151 | lockR opened with no token and lockW with one for each place |
| TestSync.StepKeepsSync | Userland/SampleCodeModule/testSync/testSync.c:14-46 | a step of any number of inc processes and of everyone else keeps one token at most in use, across closing and making the semaphore anew, exactly when it is not an sOpen that is refused |
| TestSync.CounterIsExact | Userland/SampleCodeModule/testSync/testSync.c:14-46 | in every run in which nobody is refused, or with seventeen processes at most, or with one at most that adds anything: at most one process is in slowInc, and when all are done the counter holds the sum of what they were to add, in 64-bit arithmetic |
| TestSync.WrapIs | Userland/SampleCodeModule/testSync/testSync.c:14-20 | that arithmetic: the number that is the same modulo 2^64 and fits in the signed word |
| TestSync.FewArePlaced | Userland/SampleCodeModule/testSync/testSync.c:26-30 | among up to sixteen processes nobody is refused in any run |
| Crowd.SixteenFit | Userland/SampleCodeModule/testSync/testSync.c:26-43 | with all processes READY at the start, every run keeps the listeners equal to the processes past sOpen if and only if there are sixteen processes at most |
| Crowd.OneInsideIff | Userland/SampleCodeModule/testSync/testSync.c:14-46 | with all processes READY at the start, every run has at most one in slowInc at a time if and only if there are seventeen at most or one at most adds anything |
| Crowd.CounterIff | Userland/SampleCodeModule/testSync/testSync.c:14-46 | in every run in which all of them finish the counter then holds the sum if and only if, again, there are seventeen at most or one at most adds anything, or all that is added is nothing modulo the word |
| Crowd.LosesUpdate | Userland/SampleCodeModule/testSync/testSync.c:14-46 | eighteen processes made from boot, of which two add one each, and a run in which all finish and the counter holds one |
| TestSync.WaitCallable | Userland/SampleCodeModule/testSync/testSync.c:35 | the waits of inc never overrun blockedPIDs, even where one process was refused |
| TestSync.CloseAllowed | Userland/SampleCodeModule/testSync/testSync.c:42 | who frees the semaphore leaves no waiter behind, even where one process was refused |
| Philosophers.EventKeepsInv | Userland/SampleCodeModule/applications/phylo.c:59-84 | every step under the fine-grained interleaving keeps the table invariant |
| Philosophers.DinnerIsSafe | Userland/SampleCodeModule/applications/phylo.c:59-84 | in every run, with philosophers joining at any time and semaphores that start at any value, no two different neighbours are EATING, no semaphore gets more than one above that value, and each has its own id |
| Philosophers.FedGoesOn | Userland/SampleCodeModule/applications/phylo.c:59-84 | in every run, while nobody is at work under the mutex, a philosopher that is EATING is not left asleep: one that has still to wait on its own semaphore gets through without blocking |
| Philosophers.TableHolds | Userland/SampleCodeModule/applications/phylo.c:141-158 | in every run there are at most eight philosophers, although the count is looked at before the mutex is taken |
| Philosophers.EatApart | Userland/SampleCodeModule/applications/phylo.c:77-84 | setting EATING after the test leaves no two neighbours EATING |
| Philosophers.GrowApart | Userland/SampleCodeModule/applications/phylo.c:141-158 | a newcomer between the last and the first brings no two EATING philosophers together |
| Philosophers.HungryBesideEating | Userland/SampleCodeModule/applications/phylo.c:68-84 | while the mutex is free a philosopher is HUNGRY only beside one that is EATING, in every run in which no newcomer cuts one off |
| Philosophers.GrowServes | Userland/SampleCodeModule/applications/phylo.c:141-158 | adding a philosopher breaks that exactly when it cuts a HUNGRY one off from its only EATING neighbour |
| Philosophers.ServedIffNeverCuts | Userland/SampleCodeModule/applications/phylo.c:68-84 | and it holds throughout a run exactly when no newcomer of the run cuts one off |
| Forks.CutExample | Userland/SampleCodeModule/applications/phylo.c:141-158 | a run from the empty table, in which nobody is cut off till then, to a step that does it |
| Forks.StepHonest | Userland/SampleCodeModule/applications/phylo.c:59-75 | where everybody past takeForks is EATING, a step changes that exactly when it takes a HUNGRY philosopher through its own sWait |
| Forks.RunHonest | Userland/SampleCodeModule/applications/phylo.c:59-75 | it stays so throughout a run exactly when no step of the run does that |
| Forks.HonestApart | Userland/SampleCodeModule/applications/phylo.c:59-84 | and then no two different neighbours are past takeForks at once |
| Forks.ForksApartIff | Userland/SampleCodeModule/applications/phylo.c:145-155 | in every run from the empty table everybody past takeForks is EATING, and no two different neighbours are past it at once, if and only if the semaphores start at 0 |
| Forks.TwoSteal | Userland/SampleCodeModule/applications/phylo.c:145-155 | where they start higher, as they do, a run after which two neighbours are both past takeForks, neither of them EATING |
| Bmfs.Disk.FindFile | Bootloader/BMFS/bmfs.c:205-231 | the first live record with the name before the end record |
| Bmfs.Disk.Create | Bootloader/BMFS/bmfs.c:610-719 | on every directory, what the search over the sorted copy leads to; on one that ends, with files in range and apart and none hidden, the lowest block at which the file fits, and when it fits nowhere a refusal exactly when no deleted record misleads the search. The file gets the first record that is not live, and the blocks that hold its size with less than a block to spare, but none for the largest size of all, which wraps; all other records stay as they were, but for the one marked as the new end |
| Bmfs.Disk.Delete | Bootloader/BMFS/bmfs.c:802-821 | exactly the first live record with the name before the end is marked deleted, and keeps its extent |
| Bmfs.QSort | Bootloader/BMFS/bmfs.c:597-608 | any sorting by the comparator: live records by first block, deleted ones last |
| Bmfs.ScanFindsLowest | Bootloader/BMFS/bmfs.c:663-690 | the loop with its unsigned subtraction finds the lowest place, or none exactly when no deleted record misleads it |
| Bmfs.FindsIffClear | Bootloader/BMFS/bmfs.c:658-690 | it does so for every size and every order of ties if and only if no file without blocks starts where a file with blocks does |
| BmfsRuns.CreateKeepsOrder | Bootloader/BMFS/bmfs.c:692-710 | a new file on the disk keeps files in range, apart and of different names exactly when it fits, or when all others are cut off |
| BmfsRuns.CreateFiles | Bootloader/BMFS/bmfs.c:692-710 | create adds exactly one file, and drops all others exactly when the directory had no end and its first record was free |
| BmfsRuns.CreateIsSafe | Bootloader/BMFS/bmfs.c:610-719 | create, however the records are sorted, keeps the directory in order and every file in it if and only if a condition on directory and size holds that can be read off beforehand |
| BmfsRuns.DeleteKeepsOrder | Bootloader/BMFS/bmfs.c:802-821 | delete takes exactly one file away |
| BmfsRuns.DeleteUndoesCreate | Bootloader/BMFS/bmfs.c:610-821 | deleting what was just created restores the files |
| BmfsRuns.RunKeepsOrder | Bootloader/BMFS/bmfs.c:610-821 | over every run of such calls files stay in range and apart, and each stays where it is until it is deleted |
| BmfsRuns.DeletedExample | Bootloader/BMFS/bmfs.c:672-689 | a run of the tool's own requests after which nothing fits, yet a deleted record sends the search onto a live file |
| BmfsRuns.HiddenExample | Bootloader/BMFS/bmfs.c:679-689 | a run with a file of no blocks after which the subtraction wraps and a file is put on top of another, though there was room elsewhere |
| BmfsRuns.LosesFiles | Bootloader/BMFS/bmfs.c:633-710 | sixty-four creates, one delete and one create after which sixty-three files are gone |
| Numbers.NumeralValue | Userland/SampleCodeModule/libraries/utils.c:9-39 | a numeral has only digits of its base and stands for its number |
| Numbers.ReverseInPlace | Userland/SampleCodeModule/libraries/utils.c:26-36 | the two-pointer loop reverses the text in place and touches nothing else |
| Numbers.UintToBase | Userland/SampleCodeModule/libraries/utils.c:9-39 | the buffer holds the number written in the characters 0 to 9 and A to Z, each for its power of the base, with the least number of digits, and a terminator |
| Numbers.UintToBaseWL | Kernel/libraries/utils.c:40-76 | the same, with the least number of digits that is not below the length |
| Numbers.StrToInt | Kernel/libraries/utils.c:161-179 | the number modulo the word, or all ones and an error exactly when some character is not a digit |
| Numbers.ValueFirst | Kernel/libraries/utils.c:161-179 | the value of a string of digits, first digit first: each counts for its power of the base |
| Numbers.DigitsAre | Userland/SampleCodeModule/libraries/utils.c:80-104 | which characters are digits, and of what value: 0 to 9, A to F and a to f |
| Numbers.Pow | Userland/SampleCodeModule/libraries/utils.c:106-114 | the power modulo the word for numbers that fit in an int, and for others what the int that keeps the factor makes of it |
| Numbers.IntExtends | Userland/SampleCodeModule/libraries/utils.c:106-114 | what the int makes of a factor: the same modulo 2^32, and a 32-bit number with its sign in 64 bits |
| Numbers.StrToHex | Userland/SampleCodeModule/libraries/utils.c:80-104 | the number modulo the word, or zero and an error exactly when some character is not a hexadecimal digit |
| Numbers.DecimalRoundTrip | Kernel/libraries/utils.c:7-76 | strToInt undoes uintToBase and uintToBaseWL in base 10 for every 64-bit number, with no overflow on the way |
| Numbers.HexRoundTrip | Userland/SampleCodeModule/libraries/utils.c:80-104 | strToHex undoes uintToBase in base 16 for every 64-bit number |
| Numbers.PrintAndParse | Userland/SampleCodeModule/libraries/utils.c:9-104 | printed into a buffer and parsed from it in base 16, a 64-bit number comes back |
| Numbers.PrintAndParseDecimal | Kernel/libraries/utils.c:7-179 | printed into a buffer by either decimal printer and parsed from it, a 64-bit number comes back |
| Tokenizer.TokenizeBuffer | Userland/SampleCodeModule/libraries/utils.c:430-452 | the pointers are the starts of the first `max` words in order, each reads as exactly its word, and only separators are overwritten |
| Tokenizer.StartsAre | Userland/SampleCodeModule/libraries/utils.c:434-447 | the starts listed are all the word starts, in increasing order |
| Tokenizer.WordMaximal | Userland/SampleCodeModule/libraries/utils.c:437-450 | a word is a longest stretch without separators |
| Tokenizer.InOneWord | Userland/SampleCodeModule/libraries/utils.c:437-450 | every character that is not a separator is in exactly one word |

## Left out

- Buddy.Allocator.Malloc: requests whose wrapped size is 1 to 16 bytes, whose headers the C writes over the neighbour's, are followed no further than `Buddy.BlockHoldsHeader`; left out, too, are heaps whose size gives fewer than 2 or more than 27 levels, for which `1 << x` is not defined.
- Buddy.Allocator.Free: a pointer that is not an allocated block is not modelled; the C does not check.
- FreeList.Allocator.Free: pointers that are not aligned, which are refused, and those into an allocated block or into the last free piece past its start, which are not, are not modelled.
- FreeList.Allocator.FreeIntoCorner: what the calls after the corner do to the list is not followed.
- FreeList.Allocator.constructor: the arena is `totalUnits` units, one more than the memory given; what lies past the end is taken to exist.
- Scheduler.Kernel.AddProcess: no memory for the node, the stack or the arguments is not modelled; stack frames, names, file descriptors and arguments are left out.
- Scheduler.Kernel.DequeueReady: the state of a process is read before its node is freed; the C reads it once more afterwards.
- Scheduler.Kernel.KillProcess: is called with a current process, as the C dereferences it; the same holds of blockProcess and waitForPID.
- Scheduling.BoundedWaiting: counts scheduler calls, not time; the process waited for is neither killed nor blocked meanwhile.
- Waking a parent whose foreground child is killed while queued: the loop never does it, and neither does the model.
- Semaphores.Table.Wait: a seventeenth waiter, for whom the array has no place, is excluded here, as what lies behind the array is not modelled; on values it is what `Signalling.KeepsJointIffAllowed` covers. Pids fit in the words that hold them.
- The mutex inside a semaphore: never contended, as system calls run with interrupts off.
- Pipes.OpenPipe.Read: starts from an open pipe; looking a pipe up by its id, counting its users and closing it are left out, as newPipe returns an id where an index is used.
- Piping.PipeIsFifo: processes other than the pipe's leave its two semaphores alone, and at most sixteen wait on each.
- Crowd.OneInsideIff: where processes are not READY at the start, and so may never run, only the safe half is stated (`TestSync.CounterIsExact`); `inc` without its flag, which is meant to go wrong, is left out. `inc` and `slowInc` are transitions between values, as the yield in them lets every other process in.
- Philosophers.DinnerIsSafe: the scheduler is left out, a blocked process being one that stands in a semaphore's list; sleeping, key presses, the end of the problem and removePhilosopher are left out. The last posts the table mutex without waiting for it and may make neighbours of two that eat. The functions are transitions between values, as others come between their accesses.
- Bmfs.Disk.Create: names fit a record and do not begin with a mark; reading, writing, formatting and all file access are left out.
- Bmfs.QSort: stands for the library's qsort; the comparator's difference of block numbers fits in an int for every disk size.
- Numbers.UintToBase: the buffer is long enough and the base between 2 and 36, as the callers see to.
- Numbers.Pow: exponents below 2^31, beyond which the loop's int overflows; it is the user-space one: pow and strToHex of the kernel, which square repeatedly, and intToStr, whose reversal is off by one, are left out, and so are floating-point conversions.
- Tokenizer.TokenizeBuffer: the separator is not the terminator and there is room for one pointer.
- Dumps, listings, the shell, video, keyboard, clock, interrupt set-up and the boot loader: input, output and hardware.
- staticQueue and memcpy: easy beside the pipe's buffer.
