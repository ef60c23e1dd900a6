# A model of the sysint kernel

This project models the stateful core of sysint, a small i686 kernel, and proves what its data
structures and protocols keep over every run:

- the **red-black tree** with stable handles (`Trees`, `Balance`, `Removal`, `MixedRuns`: the algorithm on
  trees; `TreeMemory`, `RbTree`: the pointer code),
- the **buddy allocator** of page frames (`Frames`, `BuddyTiling`, `BuddyState`, `BuddySteps`,
  `FrameAllocator`, `FrameAccounts`) and the linked rings it shares with the heap (`Lists`, `Rings`),
- the **kernel heap** with boundary tags (`HeapBlocks`, `HeapMemory`, `KernelHeap`,
  `HeapRoundTrip`),
- the **scheduler** (`Processes`, `SchedulerSteps`, `SchedulerRuns`: the state machine;
  `Sleepers`, `Signals`, `VirtualTime`, `WindowLoss`, `Fairness`, `Waitpid`, `WaitpidRun`: what it
  promises; `TreeQueues`: its run queue as a tree; `Scheduler`: the code),
- the **semaphore** and the **mutex** over a spinlock and condition variables, as interleaved steps
  (`Spinlock`, `Semaphore`, `Mutex`),
- **page directories** and who owns their tables and frames (`PageDirectories`),
- the **keyboard ring** (`Keyboard`), **bitmaps** (`Bitmap`) and **integer math** (`IntegerMath`).

Code that works in place is a class whose methods are proved against functions of the old state, and
the promises are lemmas about those functions. `dafny verify dfyconfig.toml` checks everything.

Some properties that one would expect do not hold of the code. For each of these the project gives the
exact condition under which it does hold, and a concrete input or run for which it does not:

- Insertion into the tree recolours in the red-uncle case but does not climb, so a red node can keep a
  red parent (`Balance.InsertedRedBlackIff`, `Balance.AscendingLosesRedBlack`).
- In mixed runs, `erase` can take the sentinel for a node, rotate it upwards and so lose entries of the
  tree (`Removal.ErasedEntries`, `MixedRuns.LosesEntries`). The run queue is such a tree, and can lose
  runnable processes (`TreeQueues.TreeFollows`, `TreeQueues.LosesProcesses`).
- `free_frames` merges at the top order too and then clamps, which loses 1024 pages
  (`FrameAccounts.AllocThenFree`, `FrameAccounts.TopOrderRun`).
- An aligned heap allocation halts when the last block is unused and its payload starts too close to a
  page boundary (`KernelHeaps.KernelHeap.Alloc`, `HeapRoundTrips.AlignedHalt`).
- A signal to a runnable process adds `min_vruntime` to its virtual time once more
  (`VirtualTime.MildIffSafe`, `WindowLoss.LeavesWindow`).
- `waitpid` can delete a live child (`SchedulerRuns.ReapIff`, `Waitpid.FoundDead`,
  `WaitpidRun.LiveChildFound`).
- An interrupted wait in the semaphore or the mutex returns with the spinlock held (`Semaphores.LostIff`,
  `Semaphores.LostForever`, `Semaphores.InterruptLoses`; `Mutexes.LostWhen`, `Mutexes.InterruptLoses`).
- `unlock` of the mutex wakes nobody (`Mutexes.WaitsForever`, `Mutexes.NeverOwner`,
  `Mutexes.UnlockedAsleep`).
- `getch` tests the ring and waits without a lock in between (`Keyboards.Keyboard.Wait`,
  `Keyboards.MissedWakeup`).

Halts (`PANIC`, `ASSERTH`) are a `None` or `false` result where the source can reach them. Time is an
input that does not decrease. Sizes, addresses and clocks are unbounded integers except in
`IntegerMath` and `Bitmap`, where the word width matters. Numbers and default actions of signals come
from a header that is not part of this model: the set of fatal signals and the number of SIGCHLD are
parameters.

## Model

| member | source | states |
|---|---|---|
| Trees.RotatedKeepsInorder | include/lib/rbtree.h:123-138 | a rotation in either direction keeps the in-order sequence of handles and keys, and the set of nodes |
| Balance.FindSeparates | include/lib/rbtree.h:303-312 | the walk from the root ends at the node that holds the key, or at the one empty place with all smaller keys before it and all larger ones after it |
| Balance.FixedKeepsEntries | include/lib/rbtree.h:140-168 | the fix-up after an insertion neither moves nor drops an entry |
| Balance.InsertedEntries | include/lib/rbtree.h:303-322 | insertion is set insertion: a key that is present changes nothing, a new one is spliced into the in-order sequence at its sorted place |
| Balance.InsertedDistinct | include/lib/rbtree.h:303-322 | insertion keeps the handles of all nodes apart and adds exactly the new one |
| Balance.InsertedKeepsInvariant | include/lib/rbtree.h:140-168 | insertion keeps the black height uniform and the root black, and every red node with a red parent has two children, although the red-uncle case does not climb |
| Balance.InsertedRedBlackIff | include/lib/rbtree.h:145-167 | from a red-black tree, insertion gives a red-black tree if and only if it does not recolour a grandparent that itself has a red parent |
| Balance.InsertAllCorrect | include/lib/rbtree.h:303-322 | every run of insertions ends in a sorted tree of uniform black height that holds exactly the old keys and the inserted ones |
| Balance.AscendingLosesRedBlack | include/lib/rbtree.h:147-151 | concrete input: ascending keys lose the red-black property at the eighth insertion |
| Removal.StepKeepsDeficit | include/lib/rbtree.h:181-213 | in a red-black tree, each round of the removal fix-up keeps "one black node is missing below this place" or ends it, and leaves the sentinel black |
| Removal.FixedIsRedBlack | include/lib/rbtree.h:178-215 | from a place in a red-black tree that lacks one black node the fix-up loop ends in a red-black tree |
| Removal.FixedEntries | include/lib/rbtree.h:178-215 | from any place in any tree, with any colour of the sentinel, the fix-up loop ends; it keeps every entry in order if no round rotates the sentinel above a node, and loses entries otherwise |
| Removal.FixedLoses | include/lib/rbtree.h:178-215 | told from the place and the colours before the loop: entries are lost if and only if, going up from the place, a missing sibling is met while the sentinel is red, or a near child is missing under a red sentinel that is then rotated upwards |
| Removal.FixedUnmet | include/lib/rbtree.h:184-193 | from a black sentinel, nothing is lost and the sentinel stays black unless a round meets a missing sibling |
| Removal.LacksMeetsNothing | include/lib/rbtree.h:184-193 | no round meets a missing sibling where the black height was uniform but for one black node |
| Removal.UnlinkedDeficit | include/lib/rbtree.h:331-353 | taking a node out leaves a missing black node exactly when the colour that went missing was black |
| Removal.UnlinkedEntries | include/lib/rbtree.h:331-353 | taking a node out removes its entry and leaves all others in order |
| Removal.UnlinkedDistinct | include/lib/rbtree.h:331-353 | taking a node out keeps the other handles apart |
| Removal.ErasedEntries | include/lib/rbtree.h:324-359 | from any tree, `erase` leaves exactly the other entries, in order and at their handles, if and only if the tree before the call is not one in which the fix-up raises the sentinel (`Loses`) |
| Removal.ErasedRoot | include/lib/rbtree.h:324-359 | unless it loses entries, `erase` leaves a black root, and an empty tree with a black sentinel |
| Removal.ErasedFromUniform | include/lib/rbtree.h:324-359 | it does so from every tree of uniform black height, and leaves the sentinel black |
| Removal.ErasedCorrect | include/lib/rbtree.h:324-359 | erasing from a red-black tree gives a red-black tree |
| MixedRuns.MixedRun | include/lib/rbtree.h:303-359 | over every run of insertions and removals from the empty tree, with whatever colour the sentinel has on the way: the tree is sorted and holds exactly the keys put and not taken, until a removal raises the sentinel, and if one does the run has lost entries |
| MixedRuns.AfterInsertions | include/lib/rbtree.h:303-359 | after every run of insertions the first `erase` is right |
| MixedRuns.Take8 | include/lib/rbtree.h:191-193 | concrete input: a round meets a missing sibling, paints the sentinel red, and nothing is lost |
| MixedRuns.LosesEntries | include/lib/rbtree.h:178-215 | concrete run: after eleven insertions and nine removals the tree is empty, although two keys were never removed |
| TreeMemory.RotatedView | include/lib/rbtree.h:123-138 | the pointer assignments of the rotation macro turn memory that stores a tree, at any place in it, into memory that stores the rotated tree |
| TreeMemory.SplicedView | include/lib/rbtree.h:170-176 | transplanting the only child of a node stores the tree without the node, with the parent pointer of the sentinel set when the child is missing |
| TreeMemory.AdoptedView | include/lib/rbtree.h:337-350 | when the successor has taken over the children of the removed node, memory stores the tree with the successor in its place |
| TreeMemory.TurnedRotates | include/lib/rbtree.h:123-138 | between nodes of a tree the assignments of the macro are a rotation, cell by cell |
| RbTrees.RbTree.Rotate | include/lib/rbtree.h:123-138 | a rotation keeps parent and child links consistent and stores the rotated tree |
| RbTrees.RbTree.Search | include/lib/rbtree.h:306-312 | the search loop stops where the search path ends |
| RbTrees.RbTree.InsertFixup | include/lib/rbtree.h:140-168 | the fix-up loop runs at most once and stores the fixed tree |
| RbTrees.RbTree.Insert | include/lib/rbtree.h:303-322 | for any tree with a black root and any colour of the sentinel: a present key returns its node, leaves the tree alone and leaks the new node; otherwise memory stores the tree with the new node, whose handle is returned; the exact colour of the sentinel afterwards |
| RbTrees.RbTree.FixOnce | include/lib/rbtree.h:184-206 | one round on memory, for any colours, also when it takes the sentinel for the sibling or for its child |
| RbTrees.RbTree.RaiseTwice | include/lib/rbtree.h:184-206 | a round whose sibling is the red sentinel cuts the parent off the tree and hangs it below the sentinel |
| RbTrees.RbTree.RemoveFixup | include/lib/rbtree.h:178-215 | from any place in any tree the loop terminates; memory stores the tree that the rounds lead to, whether entries were lost or not |
| RbTrees.RbTree.Min | include/lib/rbtree.h:45-55 | the leftmost node of a subtree |
| RbTrees.RbTree.Succ | include/lib/rbtree.h:69-80 | the handle of the next entry in key order, or the sentinel after the last |
| RbTrees.RbTree.Begin | include/lib/rbtree.h:256-259 | the handle of the least key |
| RbTrees.RbTree.Unlink | include/lib/rbtree.h:331-353 | relinks nodes without copying keys; memory stores the tree without the node |
| RbTrees.RbTree.Erase | include/lib/rbtree.h:324-359 | from any tree: links stay consistent and exactly the other entries are left, in order and at their handles, if and only if the tree before the call is not one in which the fix-up raises the sentinel; so from every tree of uniform black height; a red-black tree stays one; a null handle changes nothing |
| RbTrees.RbTree.EraseThrough | kernel/proc/proc.cpp:183-185 | erasing while iterating, with the successor taken first, removes exactly the entries up to the limit, in order, if and only if none of these erases loses entries |
| RbTrees.SmoothRedBlack | kernel/proc/proc.cpp:183-185 | from a red-black tree none of them does |
| Rings.Ring.InsertAfter | kernel/include/paging.h:210-216 | linking a node after another one inserts it at that position of the ring |
| Rings.Ring.Remove | kernel/include/paging.h:219-223 | unlinking a node removes exactly it from the ring |
| Rings.InsertedRing | kernel/include/heap.h:52-58 | the four pointer writes of an insertion keep the ring well linked in both directions |
| Rings.RemovedRing | include/lib/linked_list.h:46-50 | the two pointer writes of a removal keep the ring well linked in both directions |
| Frames.BuddyPair | kernel/mem/paging.cpp:45-48 | the buddy relation pairs aligned blocks: it is its own inverse, and the two heads differ by the block size |
| Frames.BuddyHalves | kernel/mem/paging.cpp:45-48 | a block and its buddy are the two halves of one aligned block of the next order |
| BuddyTiling.FreeRunInOneBlock | kernel/mem/paging.cpp:79-97 | if no two free buddies below the top order coexist, every free aligned run of 2^k pages lies inside one free block |
| FrameAllocators.FrameAllocator.constructor | kernel/mem/paging.cpp:459-466 | the block-making loop leaves a valid state in which exactly the managed pages are free |
| FrameAllocators.FrameAllocator.AllocFrames | kernel/mem/paging.cpp:73-108 | keeps the partition, list, order and bitmap invariant; returns null if and only if no aligned run of 2^order pages is free, and otherwise hands out exactly one such run, never page 0; the run is the start of a free block of the least order that can serve |
| FrameAllocators.FrameAllocator.MergeUp | kernel/mem/paging.cpp:124-139 | the merge loop follows free buddies as far as they go |
| FrameAllocators.FrameAllocator.FreeFrames | kernel/mem/paging.cpp:111-151 | keeps the invariant; exactly the pages of the block become free, except the 1024 pages that a merge past the top order drops; returns the number of pages of the merged block; halts on other addresses |
| FrameAllocators.BuddyTest | kernel/mem/paging.cpp:125-130 | the test on order and bitmap tells a free buddy of that order from everything else, whatever stale bits are set |
| FrameAllocators.NothingFits | kernel/mem/paging.cpp:79-82 | when all lists from the requested order on are empty, no aligned run of that size is free |
| FrameAccounts.PagesAddUp | kernel/mem/paging.cpp:73-151 | free, handed-out and lost pages are disjoint and add up to the managed pages |
| FrameAccounts.AllocationMoves | kernel/mem/paging.cpp:73-108 | an allocation moves exactly 2^order pages from free to handed out |
| FrameAccounts.FreeingMoves | kernel/mem/paging.cpp:111-151 | a free takes back exactly the pages of the block, and loses 1024 pages if its merge chain passes the top order and none otherwise |
| FrameAccounts.MergesFrom | kernel/mem/paging.cpp:124-139 | freeing what was just allocated merges past the top order if and only if the aligned run of 2048 pages around it was wholly free before |
| FrameAccounts.RoundTrip | kernel/mem/paging.cpp:73-151 | freeing what was just allocated restores the free pages if and only if that run was not wholly free; otherwise 1024 pages are lost |
| FrameAccounts.AllocThenFree | kernel/mem/paging.cpp:73-151 | the two calls on the allocator itself: the free pages are restored if and only if that run was not wholly free before; otherwise exactly 1024 pages are lost |
| FrameAccounts.TopOrderRun | kernel/mem/paging.cpp:73-151 | concrete run: with the pages 2048 to 4095 managed and free, taking 1024 pages and giving them back loses 1024 pages |
| HeapBlocks.UsedDetermine | kernel/mem/heap.cpp:212-295 | in a heap without neighbouring unused blocks, the used blocks and the end determine every block |
| HeapBlocks.CutInHand | kernel/mem/heap.cpp:155-205 | cutting a block in two keeps the tiling of the heap |
| HeapBlocks.JoinInHand | kernel/mem/heap.cpp:226-262 | joining two neighbours keeps the tiling of the heap |
| KernelHeaps.KernelHeap.constructor | kernel/mem/heap.cpp:297-330 | the initial heap is one unused block and satisfies the invariant |
| KernelHeaps.KernelHeap.InsertList | kernel/mem/heap.cpp:45-57 | the free list stays sorted by size and gains exactly the block |
| KernelHeaps.KernelHeap.FindFit | kernel/mem/heap.cpp:109-124 | the search finds a block that serves if there is one, and then the smallest one; `KernelHeaps.RoomIs` says what serving means |
| KernelHeaps.RoomIs | kernel/mem/heap.cpp:109-124 | a block serves exactly if it is unused and has room from its start, or, for an aligned request, from the first page boundary in it with nothing or a whole block in front |
| KernelHeaps.KernelHeap.Grow | kernel/mem/heap.cpp:126-147 | the new end is page aligned; the last block grows if it is unused, else a new one follows it |
| KernelHeaps.KernelHeap.FrontSplit | kernel/mem/heap.cpp:155-182 | the front of the block becomes an unused block, and the rest starts with an aligned payload |
| KernelHeaps.KernelHeap.TailSplit | kernel/mem/heap.cpp:184-205 | the block keeps what is needed, and the rest becomes an unused block in the list |
| KernelHeaps.KernelHeap.Alloc | kernel/mem/heap.cpp:100-210 | keeps the heap invariant; exactly one block becomes used, all other used blocks are untouched; if some unused block has room, the end stays and the block is cut from one of the least size among these, otherwise the heap grows to the first page boundary that is far enough; the exact place, at the start of that block or at the first page boundary in it, and the exact size; the exact condition for the halt |
| KernelHeaps.KernelHeap.MergeRight | kernel/mem/heap.cpp:226-242 | merges with the right neighbour if and only if it is unused |
| KernelHeaps.KernelHeap.MergeLeft | kernel/mem/heap.cpp:244-262 | merges with the left neighbour, found through its footer, if and only if it is unused |
| KernelHeaps.ReleasedIs | kernel/mem/heap.cpp:264-290 | the end moves exactly if the unused last block starts past the initial heap and is large enough, and it starts on a page or enough is left beyond the least page boundary that leaves room for a block; it moves to the start or to that boundary |
| KernelHeaps.KernelHeap.Release | kernel/mem/heap.cpp:264-290 | moves the end exactly as far as the size thresholds say, keeps it page aligned and not below the initial end, and leaves a well-formed last block |
| KernelHeaps.UsedAccepted | kernel/mem/heap.cpp:217-224 | the tests on magic numbers, the used flag and the footer accept exactly the used blocks, in spite of stale tags |
| KernelHeaps.KernelHeap.Free | kernel/mem/heap.cpp:212-295 | halts exactly on addresses that are not the payload of a used block, after any calls before; otherwise exactly that block becomes unused, the heap stays coalesced; the gap that is left is one unused block, and if it ends with the heap the end moves exactly as `ReleasedIs` says |
| HeapRoundTrips.GapIsSource | kernel/mem/heap.cpp:212-295 | the gap that a freed block leaves is the unused block it was cut from, or the grown last one |
| HeapRoundTrips.AllocFree | kernel/mem/heap.cpp:100-295 | exactly when the request is served, told from the state before; and then allocating and freeing at once leaves every block as it was if and only if, told from the state before: served from the list, the block it is cut from does not qualify for release; grown, the release goes back exactly to the old end |
| HeapRoundTrips.AlignedHalt | kernel/mem/heap.cpp:155-160 | concrete run: after `init`, a request of 4044 bytes and then any aligned request halts |
| SchedulerSteps.AddedInv | kernel/proc/proc.cpp:116-132 | `add_proc_run` moves a process from whatever queue it is in to the run queue and restores the scheduler invariant |
| SchedulerSteps.BlockedInv | kernel/proc/proc.cpp:134-142 | `remove_proc_run` takes a process out of its queue and keeps the invariant for all others |
| SchedulerSteps.RescheduledInv | kernel/proc/proc.cpp:227-290 | charging the running process re-enters it under its new key, so stored keys stay equal to current ones |
| SchedulerSteps.GoneInv | kernel/proc/proc.cpp:521-594 | `exit` deletes dead children, orphans live ones, buries the process, tells the parent, and keeps the invariant |
| SchedulerSteps.WokenStep | kernel/proc/proc.cpp:183-185 | waking a set of processes one by one, in any order, is waking them at once |
| SchedulerSteps.FirstIsLeast | kernel/proc/proc.cpp:298-315 | the process that is picked has the least virtual time, and not less than `min_vruntime` |
| SchedulerRuns.NextInv | kernel/proc/proc.cpp:116-636 | every step - tick, pick, sleep, wait, wake, signal, clone, wait for a child, reap of a dead child, exit - keeps the invariant, and `min_vruntime` does not decrease |
| SchedulerRuns.ReapIff | kernel/proc/proc.cpp:649-717 | deleting a child in `waitpid` keeps the invariant if and only if it is in no queue and has no children, as every dead one |
| Waitpid.FoundDead | kernel/proc/proc.cpp:710-717 | the child that the search of `waitpid` finds is dead if and only if every live child with the awaited pid is older than some dead child |
| Waitpid.LiveChildDeleted | kernel/proc/proc.cpp:705-717 | from every state in which the parent waits for the pid of the current process: that one adds a thread to its parent and exits, and the search of the parent stops at the thread, which is alive, and breaks the invariant |
| WaitpidRun.LiveChildFound | kernel/proc/proc.cpp:705-717 | concrete run from `init` that ends so |
| SchedulerRuns.RunInv | kernel/proc/proc.cpp:116-636 | with queues that behave as sets: over every run each process is in exactly the queue that its tag names, at the node that its handle names and under its current key; `min_vruntime` never decreases and no runnable process is below it |
| SchedulerRuns.InitialInv | kernel/proc/proc.cpp:760-789 | the state that `init` leaves satisfies the invariant |
| SchedulerRuns.WakesExactly | kernel/proc/proc.cpp:178-187 | with queues that behave as sets: a tick makes runnable exactly the sleepers whose wakeup time has passed, and changes no other record |
| TreeQueues.RankOrder | kernel/include/proc.h:198-202 | ranks order tree keys as the run queue orders processes of equal `nice` |
| TreeQueues.OpsFollow | kernel/proc/proc.cpp:116-142 | what a tick, pick, wait or clone does to the runnable processes is what its insertions and removals do to the keys of the run queue |
| TreeQueues.TreeFollows | kernel/proc/proc.cpp:116-298 | over every run of such steps the tree of the run queue is exactly the set of the runnable processes, and loses entries if and only if some removal on the way raises the sentinel |
| TreeQueues.LosesProcesses | kernel/proc/proc.cpp:116-298 | concrete run from `init`, of clones, ticks and waits: two processes are runnable, one of them on the processor, and the tree of the run queue is empty |
| Sleepers.StepLeaves | kernel/proc/proc.cpp:116-636 | a step leaves a waiting process alone unless it signals it, ends a child of it, or is the tick or the wake that it waits for |
| Sleepers.SleepsUntil | kernel/proc/proc.cpp:618-632 | over every run without a signal to the sleeper or an end of a child of it: it sleeps while all ticks are before the time of the call plus the duration, and the next tick makes it runnable if and only if it is not; it comes back as far ahead of `min_vruntime` as it left, and not interrupted |
| Sleepers.WaitsUntil | kernel/proc/proc.cpp:385-428 | over every such run a process waits for its condition variable until a wake of that variable for all or for it, and that makes it runnable |
| Sleepers.AwaitsUntil | kernel/proc/proc.cpp:685-706 | over every run, nothing but a signal or the end of a child ends the wait of `waitpid` |
| Signals.SignalLands | kernel/proc/proc.cpp:430-437 | a signal to a live process is pending and makes it runnable, and marks a wait that it ends as interrupted; nothing else changes |
| Signals.SelfSignalLands | kernel/proc/proc.cpp:723-731 | the same for a signal to itself, after which it has lost the processor |
| Signals.InterruptTold | kernel/proc/proc.cpp:169-175 | a wait that a signal ends is still marked whenever the process checks for it, and the check takes the mark away |
| Signals.PickOutcome | kernel/proc/proc.cpp:292-355 | the picked process has the least virtual time, which becomes `min_vruntime`; without pending signals it runs; otherwise exactly the least one is taken, and it dies or runs as that one is fatal or not |
| Signals.KillDelivers | kernel/proc/proc.cpp:312-349 | over every run a signal stays pending until the process is picked, and a fatal one then kills it if no lower one is pending |
| Signals.ExitOutcome | kernel/proc/proc.cpp:521-570 | the process is dead and in no queue, its dead children are deleted, and its live ones orphaned |
| Signals.ChildEnds | kernel/proc/proc.cpp:572-581 | the parent becomes runnable; if it waits for this child it gets no signal, otherwise the one the child was cloned with or SIGCHLD |
| Signals.TickPreempts | kernel/proc/proc.cpp:245-262 | with n runnable processes, a tick takes the processor from the current one exactly if it has had it for the least time and for 1/n of the scheduling latency, and charges it for all of that |
| Signals.CloneOutcome | kernel/proc/proc.cpp:443-517 | the new process has an unused id, is runnable at `min_vruntime`, and has the parent, group, priority and exit signal that the flags say; all others are as they were |
| VirtualTime.NextWindow | kernel/proc/proc.cpp:125-138 | a step that charges at most B, and signals runnable processes only where that does no harm, keeps every runnable process within B of `min_vruntime` |
| VirtualTime.RunWindow | kernel/proc/proc.cpp:125-315 | over every such run, every runnable process is between `min_vruntime` and `min_vruntime` + B, and a process that waits brings back at most B |
| VirtualTime.InitialWindow | kernel/proc/proc.cpp:760-789 | the processes that `init` makes start in the window |
| VirtualTime.MildIffSafe | kernel/proc/proc.cpp:430-437 | a step within the charge keeps all later quiet runs in the window if and only if each runnable process it signals is at most B from 0, and the one on the processor at 0 |
| WindowLoss.LeavesWindow | kernel/proc/proc.cpp:430-437 | concrete run from `init`: eight steps, of which one signals the current process, leave the window |
| Fairness.TurnShares | kernel/proc/proc.cpp:245-298 | each timer reschedule lowers the share of the process that ran, if it was not ahead, and no other |
| Fairness.BoundFalls | kernel/proc/proc.cpp:245-298 | each reschedule of another process brings a runnable process nearer to its turn |
| Fairness.CalmStart | kernel/proc/proc.cpp:245-298 | the first tick after `init` leads to a state from which this bound applies |
| Fairness.NoStarvation | kernel/proc/proc.cpp:245-298 | from any state without pending signals, while only the timer reschedules, every runnable process is picked within the sum over the others with v_q <= v of floor((v - v_q) / SCHEDULE_MIN_DELTA) + 1 reschedules, plus one if the current process is ahead of it |
| Schedulers.Scheduler.RemoveFromQueue | kernel/proc/proc.cpp:144-157 | the process is in no queue afterwards, its one node is gone, and all other nodes and records are unchanged |
| Schedulers.Scheduler.AddProcRun | kernel/proc/proc.cpp:116-132 | does what the state machine says, and refuses only an interruption of an uninterruptible wait |
| Schedulers.Scheduler.WakeSleepers | kernel/proc/proc.cpp:183-185 | the loop, which takes the successor before each erasure, wakes exactly the due sleepers |
| Schedulers.Scheduler.TimerTick | kernel/proc/proc.cpp:178-187 | is the tick step |
| Schedulers.Scheduler.PickNext | kernel/proc/proc.cpp:292-358 | is the picking half: least key first, `min_vruntime` follows it, the first pending signal is taken, and a fatal one makes the process exit |
| Schedulers.Scheduler.LetGo | kernel/proc/proc.cpp:532-552 | the loop over the children deletes the dead ones and orphans the others |
| Schedulers.Scheduler.Exit | kernel/proc/proc.cpp:521-594 | is the exit step |
| Schedulers.Scheduler.Tkill | kernel/proc/proc.cpp:430-437 | records the signal and makes a waiting process runnable; a zombie or signal 0 changes nothing |
| Schedulers.Scheduler.KillCurrent | kernel/proc/proc.cpp:723-731 | is the step that signals the current process and reschedules |
| Schedulers.Scheduler.Nanosleep | kernel/proc/proc.cpp:618-636 | is the sleep step (`Sleepers.SleepsUntil`); less than 10 ns changes nothing |
| Schedulers.Scheduler.CondWait | kernel/proc/proc.cpp:385-410 | is the queue part of the wait |
| Schedulers.Scheduler.CondWake | kernel/proc/proc.cpp:412-428 | wakes all waiters of the variable or the one named, and tells whether it was found |
| Schedulers.Scheduler.FindChild | kernel/proc/proc.cpp:710-713 | the search finds the newest child that is dead or has the pid, if there is one |
| Schedulers.Scheduler.FinishWait | kernel/proc/proc.cpp:710-717 | deletes the child found and forgets the wait; the invariant holds afterwards if and only if that child is in no queue and has no children; halts if there is none |
| Schedulers.Scheduler.Clone | kernel/proc/proc.cpp:443-517 | a new process with a fresh id joins the run queue at `min_vruntime`; an invalid exit signal is refused |
| Semaphores.NextInv | kernel/include/lib/semaphore.h:38-91 | every step of every process, and every signal, keeps the semaphore invariant |
| Semaphores.Correct | kernel/include/lib/semaphore.h:38-91 | over every interleaving the count is in [0, maxval], two processes are never inside the spinlock, and while nobody is inside the count is the initial one plus completed ups minus completed downs and nobody waits who could go on |
| Semaphores.Served | kernel/include/lib/semaphore.h:38-91 | a call, or a waiter that was woken, that enters the free lock and may go on: whatever all others do meanwhile, after its own steps the count is one up or down, the call has returned 0, the lock is free, and nobody is left on the list that it wakes |
| Semaphores.Refused | kernel/include/lib/semaphore.h:52-58 | a non-blocking call that may not go on returns and changes nothing, whatever the others do |
| Semaphores.Waits | kernel/include/lib/semaphore.h:41-45 | a blocking call that may not go on ends asleep on its list, with the lock free and the count unchanged |
| Semaphores.CallServed | kernel/include/lib/semaphore.h:38-91 | all three, from the call of an idle process |
| Semaphores.Releases | kernel/include/lib/semaphore.h:38-91 | a process that holds the spinlock lets it go within four steps of its own |
| Semaphores.LostIff | kernel/include/lib/semaphore.h:41-45 | a run loses the spinlock if and only if on the way a waiter that was interrupted takes it again; never if no signal reaches a waiter |
| Semaphores.LostForever | kernel/include/lib/semaphore.h:41-45 | once an interrupted wait has returned, the spinlock is never free again and no call ever completes |
| Semaphores.InterruptLoses | kernel/include/lib/semaphore.h:65-77 | concrete input: a signal to one waiting `down` |
| Mutexes.Exclusion | kernel/include/lib/mutex.h:33-70 | over every interleaving at most one process is inside the mutex, and while the spinlock is free it is the one that `lockproc` names |
| Mutexes.OnlyOwnerClears | kernel/include/lib/mutex.h:60-70 | only the owner clears the mutex, in its own `unlock`; nobody takes it over |
| Mutexes.CallEnds | kernel/include/lib/mutex.h:33-70 | a call that finds the spinlock free, whatever all others do meanwhile: `lock` and `try_lock` take a free mutex; `try_lock` of an owned one and `unlock` of another's change nothing; `unlock` by the owner frees it; `lock` of an owned one sleeps |
| Mutexes.WaitsForever | kernel/include/lib/mutex.h:60-70 | only a signal takes a waiter off the wait list: `unlock` wakes nobody |
| Mutexes.NeverOwner | kernel/include/lib/mutex.h:33-45 | a process that has begun to wait in `lock` never becomes the owner, signalled or not |
| Mutexes.LostWhen | kernel/include/lib/mutex.h:36-39 | the spinlock is lost exactly when an interrupted waiter takes it again |
| Mutexes.InterruptLoses | kernel/include/lib/mutex.h:36-39 | from every state with a waiter: a signal to it, and it returns with the spinlock held |
| Mutexes.LostForever | kernel/include/lib/mutex.h:33-70 | and then nobody ever enters or leaves the mutex again |
| Mutexes.UnlockedAsleep | kernel/include/lib/mutex.h:33-70 | concrete run: one locks, the other waits, the first unlocks; the mutex is free and the other asleep |
| Keyboards.Keyboard.ReadScancode | kernel/devices/keyboard.cpp:83-128 | takes the character exactly if the ring has room and it is not zero; unread slots are not overwritten; accepted = delivered + unread |
| Keyboards.Keyboard.Test | kernel/devices/keyboard.cpp:145-146 | tells whether a character is unread |
| Keyboards.Keyboard.Wait | kernel/devices/keyboard.cpp:145-146 | the reader sleeps beside unread characters if and only if one was taken between its test and its wait |
| Keyboards.Keyboard.Take | kernel/devices/keyboard.cpp:148-148 | reads the oldest unread character, which stays valid while the handler runs |
| Keyboards.Keyboard.Advance | kernel/devices/keyboard.cpp:150-151 | returns the character read before; accepted = delivered + unread |
| Keyboards.MissedWakeup | kernel/devices/keyboard.cpp:145-146 | concrete run: a key between the test and the wait leaves the reader asleep with a character in the ring |
| PageDirectories.Paging.CloneTable | kernel/mem/paging.cpp:380-408 | the copy has the flags of every present page, fresh and pairwise different frames with the same contents, and nothing else in memory changes |
| PageDirectories.Paging.FreeTable | kernel/mem/paging.cpp:410-415 | frees every frame of the table once |
| PageDirectories.Paging.Clone | kernel/mem/paging.cpp:309-360 | kernel slots are the kernel's; a present table is linked if and only if the memory is shared and the slot belongs to neither stack, and otherwise copied into a fresh table with fresh frames, equal flags and contents; empty slots stay empty; it halts if and only if a slot of the process holds a 4 MiB page that is not the kernel's |
| PageDirectories.CloneReads | kernel/mem/paging.cpp:309-408 | the clone shows at every page what the parent shows, and the parent still shows it |
| PageDirectories.CloneWrites | kernel/mem/paging.cpp:332-345 | what one of the two writes into a page the other sees if and only if the table is linked |
| PageDirectories.CloneKeepsApart | kernel/mem/paging.cpp:332-345 | a write into a page of its own changes nothing that the parent sees |
| PageDirectories.Paging.FreeTables | kernel/mem/paging.cpp:362-375 | frees exactly the tables that the shared directory does not have, outside of the kernel stack, each once, and clears their slots |
| PageDirectories.Paging.FreeKstackTables | kernel/include/paging.h:162-171 | frees exactly the kernel stack tables and clears their slots |
| PageDirectories.FreesCopies | kernel/mem/paging.cpp:323-374 | for any directories: the two freeing operations free exactly what `clone` copied if and only if no kernel table differs between the kernel and the shared directory |
| PageDirectories.Paging.MakeTable | kernel/mem/paging.cpp:196-215 | makes a missing table, empty and unlike all others, and leaves a present one alone |
| PageDirectories.Paging.InitKernel | kernel/mem/paging.cpp:435-451 | the kernel's directory has no table below the heap, 4 MiB pages for the identity map, and an own empty table in every slot from the heap on |
| PageDirectories.NeverMistaken | kernel/mem/paging.cpp:362-374 | no table of such a kernel directory is freed with a directory that has its tables |
| PageDirectories.CloneMade | kernel/mem/paging.cpp:323-330 | every clone has them |
| PageDirectories.CloneFreed | kernel/mem/paging.cpp:309-375 | so `clone`, `free_kstack_tables` and `free_tables` together free each copied table and frame once and leave the memory as it was |
| PageDirectories.Paging.CloneAndFree | kernel/mem/paging.cpp:309-375 | the three calls on the memory itself; the exact condition for the halt |
| IntegerMath.TableIsLog | kernel/lib/math.cpp:20-25 | every table entry but the first is the binary logarithm of its index |
| IntegerMath.Ilg16 | kernel/lib/math.cpp:28-32 | 2^r <= v < 2^(r+1) for every positive v; 255 for 0 |
| IntegerMath.Ilg32 | kernel/lib/math.cpp:34-39 | 2^r <= v < 2^(r+1) for every positive v; 255 for 0 |
| IntegerMath.Isqrt | kernel/lib/math.cpp:41-57 | r^2 <= v < (r+1)^2 for every 32-bit v, with every intermediate value below 2^32 |
| Bitmaps.Updated | include/lib/bitmap.h:68-73 | setting or clearing a bit of its word changes that bit and no other |
| Bitmaps.Bitmap.Get | include/lib/bitmap.h:62-66 | reads the bit |
| Bitmaps.Bitmap.Set | include/lib/bitmap.h:68-78 | changes exactly one bit |
| Bitmaps.Bitmap.FirstOne | include/lib/bitmap.h:92-103 | the first set bit from a word on, or none, whatever the bits past the end are |
| Bitmaps.Bitmap.FirstZero | include/lib/bitmap.h:80-91 | the first clear bit from a word on, or none, whatever the bits past the end are |

## Left out

- Nodes, headers, footers and process records are entries of maps from address to record, fields of one
  object, instead of objects of their own; aliasing is what the handles in these maps say.
- RbTrees.RbTree.Insert: the root is black, and the sentinel of an empty tree too; that is kept by every
  insertion and by every erase that loses nothing (`Removal.ErasedRoot`). What insertion does after an
  erase that lost entries is not modelled. No logarithmic depth is claimed.
- RbTrees.RbTree.EraseThrough: stops at the first erase that loses entries; what the iteration does after
  that is not modelled.
- SchedulerRuns.RunInv: the queues are maps, so it holds as long as the trees under them behave as sets;
  for the run queue `TreeQueues.TreeFollows` tells how long that is.
- SchedulerRuns.WakesExactly: the same for the sleep queue.
- TreeQueues.TreeFollows: for runs of clones, waits, picks, and ticks at which nobody wakes, without fatal
  signals; what the scheduler does after the tree has lost a process is not modelled.
- The rings of `Rings` and the bitmaps of `Bitmap` are proved on their own: inside of the allocators the
  free lists are sequences and the bitmaps sequences of booleans.
- `rbtree::size`, `lower_bound`, `upper_bound`, `pred` and `max` of the tree.
- FrameAllocators.FrameAllocator.FreeFrames: the address must head a block that is handed out, or never
  have headed one; the source has no other defence against a double free.
- KernelHeaps.KernelHeap.Free: headers and footers are those the heap wrote; payload bytes that imitate
  them are not modelled, and the source cannot tell them from a block.
- The frames and page-table entries behind `sbrk` and `srel`, and 32-bit overflow of sizes.
- Scheduling: registers, FPU state, page directory switches and the kernel stack; `nice` never changes
  (`setnice`); the list of all processes.
- SchedulerRuns.NextInv: the reap step deletes a dead child only; see `SchedulerRuns.ReapIff` for others.
- Schedulers.Scheduler.Clone: with CLONE_PARENT the caller must have a parent, which the source
  dereferences without a test.
- Queue nodes are named by their process and a serial number instead of an address, and the order of
  waiters in a condition variable is not modelled; all of them are woken at once or one by name.
- Semaphores.Correct: fairness among waiters and the wake order are not modelled; waking all waiters is
  one step.
- Keyboards.Keyboard.ReadScancode: the translation of scan codes and the modifier keys are left out, and
  there is one reader.
- PageDirectories.CloneFreed: the parent's directory does not change between the clone and its end.
- PageDirectories.Paging.Clone: running out of frames or of heap is a halt in the source and does not
  happen here; copying of 4 MiB pages is a halt in both.
- Stack pages that `exit` frees before the directory, `brk`, and the mapping of single pages.
- Assembly, interrupt controllers, PCI and AHCI, the file systems, the console, ELF loading, system
  call dispatch and user programs.
