# Glatt: a verified model of the kernel's core

Glatt is a small multiprocessor microkernel.  This project models its hardest parts in Dafny
and proves what they promise: over every input for computations, over every run for data
structures, and over every interleaving for protocols.

| file | models |
|---|---|
| `Btree.dfy` | the binary tree macros, on heap nodes with parent links, refining a sequence |
| `Extents.dfy` | address space allocation as steps on a list of extents, over whole runs |
| `VmIndex.dfy` | the same allocator on its two trees, each call refining a step |
| `Pool.dfy` | the pool allocator: page layout, bitmaps and counters |
| `Scheduler.dfy` | the scheduler: a step machine over any number of CPUs, and the code that takes its steps |
| `PortWait.dfy` | waiting for, sending to and receiving from ports, through condition variable, sleep queue and scheduler |
| `Hokusai.dfy` | the CPU rendezvous, one shared access a step |
| `ShLock.dfy` | the shared/exclusive lock, one shared access a step |
| `Rights.dfy` | port rights: who can come to hold what, and the code of the calls |
| `PageTable.dfy` | page table entries, the three-level table, and the TLB refill handler |
| `PageTree.dfy` | physical page descriptors and the tree they are looked up in |
| `PageQueues.dfy` | reference counts, page queues and mappings |
| `Pages.dfy` | the two together: registering the pages of a region |
| `Options.dfy` | the option closure of the configuration program |
| `Printing.dfy` | number formatting, bounded string output and dotted quads |
| `Common.dfy` | sizes of the machine, queues as sequences and the optional value, for the others |

Each area has a pure part, where a call or an atomic region is a step and the main results are
lemmas over all runs, and where the source changes things in place a class whose methods, with
the source's loops, are proved to take exactly those steps.  Running out of memory is a
parameter (`room`, `supply`, `fits`) so that the exhausted branches are covered.

What is assumed of callers and hardware is written as `requires` or as what enables a step:

- The scheduler: a thread is set up once; only a thread itself goes to sleep or exits; nobody
  wakes an exiting thread.
- Ports: at most one thread waits on a port at a time, as in the property proved.
- The rendezvous: when a round publishes its mask, no CPU of that mask still has an interrupt of
  an earlier round to take, or to test the mask in.  `Hokusai.LateInterruptRunsTwice` is a run
  without this in which a CPU runs a callback twice.
- Address space: ranges are non-empty; an address that is freed is in use; an inserted range is
  clear of the others (`Extents.InsertKeeps` proves this is exactly what is needed, and
  `Extents.LegalExact` that the callers can tell from the calls and their answers).
- Pools: the item size is not zero, which the source divides by, and not above its maximum.
- Physical pages: a lookup compares 32-bit differences of page numbers, so a tree page
  can answer for a page that lies 2^45 bytes past it.  What lookups need of the distances is
  `PageDescriptors.Apart`; `PageTree.LookupExact` and `PageTree.TwoExact` prove it is exactly
  that, `PageTree.TakenForOther` what happens otherwise.  Registering pages asks for none of it.
- Page references: counts below 2^32, and `PageQueues.PageQueues.Map` says when mapping over a
  mapped address loses count.
- Page table: frames are whole pages; those at or above 2^36 lose their high bits, and
  `Pte.FrameRoundTrip` gives the exact condition.

Where the repository's own text and its code disagree the code is followed: port numbers have
32 bits; a right-send to the port itself stops on its own mutex and is not a step; a last single
page of a region is not registered.

## Model

| member | source | states |
|---|---|---|
| `Btree.Tree.constructor` | mk/core/btree.h:23-26 | an initialized root is the empty tree |
| `Btree.Tree.Find` | mk/core/btree.h:40-66 | a walk that follows the comparison ends at a matching node, or at a gap whose left neighbour was tried and whose right neighbour was passed |
| `Btree.Tree.Insert` | mk/core/btree.h:78-108 | the in-order sequence gains exactly the node, at a place its neighbours bear out under the comparison; links stay consistent |
| `Btree.Tree.MinSub` | mk/core/btree.h:110-120 | the leftmost node of a subtree is the first of its in-order sequence |
| `Btree.Tree.MaxSub` | mk/core/btree.h:127-137 | the rightmost node of a subtree is the last of its in-order sequence |
| `Btree.Tree.Min` | mk/core/btree.h:122-125 | the first node in order, or none for an empty tree |
| `Btree.Tree.Max` | mk/core/btree.h:139-142 | the last node in order, or none for an empty tree |
| `Btree.Tree.Next` | mk/core/btree.h:144-161 | the in-order successor, or none at the end, for every member |
| `Btree.Tree.Prev` | mk/core/btree.h:163-180 | the in-order predecessor, or none at the start, for every member |
| `Btree.Tree.Foreach` | mk/core/btree.h:68-76 | MIN followed by NEXT visits every node once, in order, and ends |
| `Btree.Tree.ForeachReverse` | mk/core/btree.h:68-76 | MAX followed by PREV visits every node once, in reverse order, and ends |
| `Btree.Tree.Remove` | mk/core/btree.h:182-228 | removal of any member leaves the old in-order sequence without that node, all parent links consistent and the node loose |
| `Btree.Tree.Splice` | mk/core/btree.h:182-200 | a node with at most one child is replaced by that child |
| `Btree.Tree.GraftAll` | mk/core/btree.h:201-228 | hanging the left subtree under the least node of the right one leaves the order without just the removed node |
| `Btree.OneChild` | mk/core/btree.h:182-200 | replacing a node by its only subtree removes just that node from the order |
| `Btree.TwoChildren` | mk/core/btree.h:201-228 | grafting the left subtree into the right one removes just the node from the order |
| `Btree.Tree.InsertKey` | mk/core/btree.h:78-108 | insertion by key leaves a tree in order of the key so, with the node behind all of no greater key |
| `Btree.Tree.FindKey` | mk/core/btree.h:40-66 | in a tree in order of the key a search finds a node with the key, or no node has it |
| `Btree.Tree.RemoveKey` | mk/core/btree.h:182-228 | removal by key takes out exactly one node with the key, if there is one, and leaves the tree in order of the key |
| `Extents.InsertKeeps` | mk/vm/vm_index.c:148-160 | inserting a range keeps the extents disjoint if and only if it is clear of them, and covers exactly its pages more |
| `Extents.ClaimKeeps` | mk/vm/vm_index.c:162-216 | a claim, complete or cut short for want of an index, keeps the extents disjoint and covers the same pages |
| `Extents.StepKeeps` | mk/vm/vm_index.c:51-216 | every call keeps the extents sorted and disjoint, and covers what was covered plus what it inserts |
| `Extents.RunTiles` | mk/vm/vm_index.c:51-296 | in every run of legal calls the extents exactly tile the ranges inserted so far |
| `Extents.AddsBytes` | mk/vm/vm_index.c:148-160 | an accepted insert adds exactly the pages that its bytes lie in |
| `Extents.GrantsBytes` | mk/vm/vm_index.c:103-118 | an accepted claim of a range grants exactly the pages that its bytes lie in |
| `Extents.FreesBytes` | mk/vm/vm_index.c:121-145 | a call frees the extent that the address's byte lies in |
| `Extents.RunTilesBytes` | mk/vm/vm_index.c:51-296 | in every run of legal calls the extents cover exactly the pages of the bytes inserted so far |
| `Extents.LiveStays` | mk/vm/vm_index.c:51-296 | an allocation stays as it was made until the call that frees it |
| `Extents.AllocFresh` | mk/vm/vm_index.c:51-100 | an allocation succeeds or runs out of indexes if and only if a single free extent is large enough, and takes pages no live allocation holds |
| `Extents.AllocPlaces` | mk/vm/vm_index.c:77-92 | an allocation is made at the front of a free extent, or for the high end at its back |
| `Extents.StepUsed` | mk/vm/vm_index.c:51-216 | a call puts in use exactly the extent it grants, and out of use exactly the one that holds the address it frees |
| `Extents.RunUses` | mk/vm/vm_index.c:51-296 | in every run the extents in use are exactly those granted and not freed since |
| `Extents.LegalExact` | mk/vm/vm_index.c:51-296 | in every run a call is legal if and only if the calls so far and their answers say so: an inserted range is new, a freed address was never inserted or is granted and not freed since |
| `Extents.ProperObeys` | mk/vm/vm_index.c:121-160 | a caller that chooses each call from the calls so far and their answers, and keeps to that, makes only legal calls in every run |
| `Extents.CycleObeys` | mk/vm/vm_index.c:51-145 | such a caller is one that for ever allocates and frees what it was given |
| `Extents.CycleFrees` | mk/vm/vm_index.c:51-145 | a run of it in which the free call puts an extent in use back |
| `VmIndex.Vm.FindIndex` | mk/vm/vm_index.c:219-233 | finds the index that holds an address, if there is one |
| `VmIndex.Vm.InsertIndex` | mk/vm/vm_index.c:251-280 | a new index enters both trees, by base and by size; nothing changes when the pool is exhausted |
| `VmIndex.Vm.UseIndex` | mk/vm/vm_index.c:282-296 | the index leaves the free tree and is marked in use; the base tree is untouched |
| `VmIndex.Vm.FreeIndex` | mk/vm/vm_index.c:235-249 | the index is marked free and enters the free tree at a place its size bears out |
| `VmIndex.Vm.CutLead` | mk/vm/vm_index.c:162-216 | the leader stays in its index and the rest becomes an index of its own, or all is as before |
| `VmIndex.Vm.CutTrail` | mk/vm/vm_index.c:162-216 | what is left behind the claim becomes an index of its own |
| `VmIndex.Vm.CarveLow` | mk/vm/vm_index.c:162-216 | a claim at the start of an index: taken from it, or all as before, exactly by whether an index can be had for the trailer |
| `VmIndex.Vm.CarveMid` | mk/vm/vm_index.c:162-216 | a claim behind a leader needs one new index, or two with a trailer; with only one of two the extent is left cut in two, both free |
| `VmIndex.Vm.ClaimRange` | mk/vm/vm_index.c:162-216 | a claim of aligned addresses is the claim step at the index that holds its start, or fails; it is exhausted exactly when fewer indexes can be had than it takes, with no change if none can be had and the extent cut in two if one of two can |
| `VmIndex.Vm.Scan` | mk/vm/vm_index.c:57-95 | walks the free tree from its small or its large end to the first index that is large enough |
| `VmIndex.Vm.AllocAddress` | mk/vm/vm_index.c:51-100 | the allocation step on the extents, which changes nothing when it fails; low allocations keep the free tree sorted by size and take a smallest index that will do, a high one from a sorted free tree a largest |
| `VmIndex.Vm.AllocRange` | mk/vm/vm_index.c:103-118 | the range claim step on the extents, exhausted exactly as the claim is |
| `VmIndex.Vm.FreeAddress` | mk/vm/vm_index.c:121-145 | the free step on the extents, keeping the free tree sorted by size if it was |
| `VmIndex.Vm.InsertRange` | mk/vm/vm_index.c:148-160 | the insert step on the extents, which fails exactly when no index can be had, keeping the free tree sorted by size if it was |
| `Extents.AscendingShrink` | mk/vm/vm_index.c:185-215 | shrinking a linked index no further than those before it allow keeps the free tree in order of size |
| `VmIndex.Vm.NoFit` | mk/vm/vm_index.c:57-95 | a walk that finds nothing means no free extent is large enough |
| `VmIndex.Vm.BestFit` | mk/vm/vm_index.c:57-95 | with the free tree sorted by size the first that is large enough is a smallest that is |
| `VmIndex.Vm.LargestFit` | mk/vm/vm_index.c:57-95 | from the large end of a sorted free tree the first that is large enough is a largest |
| `VmIndex.Vm.Do` | mk/vm/vm_index.c:51-160 | any one call takes its step, and two indexes are enough for it |
| `VmIndex.Replay` | mk/vm/vm_index.c:51-296 | a caller that chooses each call from the calls before it and their answers, and makes only legal ones, on a new address space with any supply of indexes: the views make a run of the extents; with no high allocation or range claim the free tree is always sorted by size, also after frees, and every allocation is made from a smallest extent that will do |
| `PoolLayout.MaxItems` | mk/core/core_pool.c:139-151 | the largest item count that fits a page with header and bitmap; at least 2 for every legal size |
| `PoolLayout.UtilizationBytes` | mk/core/core_pool.c:37-44 | what a page of items takes: the header, as many words of 64 bits as have a bit for each item, and the items |
| `PoolLayout.MaxAllocExact` | mk/core/core_pool.c:48-49 | two items of the largest size, each with a header and a map word of its own, fill a page |
| `PoolLayout.DatumInside` | mk/core/core_pool.c:273-285 | an item lies in its page, clear of header and bitmap, 8-aligned |
| `PoolLayout.DatumDisjoint` | mk/core/core_pool.c:273-285 | items of one page are disjoint |
| `PoolLayout.DatumInverse` | mk/core/core_pool.c:188-198 | flooring an item address gives its page, and the division on free its index |
| `PoolLayout.ItemsDisjoint` | mk/core/core_pool.c:273-299 | different items of all pages share no byte |
| `Pool.TakeKeeps` | mk/core/core_pool.c:206-241 | taking a free bit and counting it keeps the page's set bits equal to its free items, none past the last |
| `Pool.GiveKeeps` | mk/core/core_pool.c:287-299 | setting a bit on free and uncounting it keeps the same |
| `Pool.LowOnesValue` | mk/core/core_pool.c:243-271 | the partial word of a fresh bitmap has exactly its low bits set |
| `Pool.FillMap` | mk/core/core_pool.c:243-271 | a fresh bitmap has exactly the bits of real items set, whatever the page held before |
| `Pool.Pool.InsertPage` | mk/core/core_pool.c:243-271 | a new page adds all its items to the free count and no live item |
| `Pool.Pool.Search` | mk/core/core_pool.c:206-241 | with free items counted the scan finds the first page with room and its first free item; both unreachable points are unreachable |
| `Pool.SearchMap` | mk/core/core_pool.c:218-236 | the word and bit loops find the lowest set bit, that of a real item, in every page with a free item |
| `Pool.Pool.Get` | mk/core/core_pool.c:206-241 | the first free item of the first page with room becomes live and no other changes |
| `Pool.Pool.Allocate` | mk/core/core_pool.c:63-84 | an item that was not live, or none exactly when no page can be had and nothing is free; a page is added, in front, exactly when nothing is free |
| `Pool.Pool.Free` | mk/core/core_pool.c:86-128 | exactly that item is no longer live; its page leaves the list exactly with its last item, and the free count stays the sum over the linked pages |
| `SchedulerModel.StepKeeps` | mk/core/core_scheduler.c:48-237 | every lock-held region keeps the invariant: running threads are the current ones, queues partition the threads |
| `SchedulerModel.RunKeeps` | mk/core/core_scheduler.c:48-237 | every state of every run on any number of CPUs meets the invariant |
| `SchedulerModel.Meaning` | mk/core/core_scheduler.c:96-237 | a thread runs if and only if it is current on a CPU, on one only; every unfreed thread is in exactly one queue unless a reaper holds it |
| `SchedulerModel.StepFlags` | mk/core/core_scheduler.c:48-210 | exactly a wake makes a thread runnable, its own sleep and exit end that; exactly its own sleep marks it asleep, and a wake ends that; a pin names its caller's CPU |
| `SchedulerModel.RunnableExact` | mk/core/core_scheduler.c:151-210 | in every run a thread is runnable if and only if it was woken and has neither gone to sleep nor exited since |
| `SchedulerModel.SleepingExact` | mk/core/core_scheduler.c:169-210 | in every run a thread is marked asleep if and only if it went to sleep and was not woken since |
| `SchedulerModel.SleepsUntilWoken` | mk/core/core_scheduler.c:199-210 | from its going to sleep to the next wake a thread is not runnable |
| `SchedulerModel.PanicExact` | mk/core/core_scheduler.c:48-210 | the kernel panics exactly on a second pin, sleep or exit, a pin of a thread that could run, and a choice with nothing to run |
| `SchedulerModel.QueueOrder` | mk/core/core_scheduler.c:151-237 | only a switch changes the order of the run queue; what is set up goes last |
| `SchedulerModel.ExitOrder` | mk/core/core_scheduler.c:113-167 | in every run threads wait to be reaped in the order in which they exited |
| `SchedulerModel.StepCalls` | mk/core/core_scheduler.c:96-149 | a call keeps what it was made with through every reap and restart |
| `SchedulerModel.CallRemembers` | mk/core/core_scheduler.c:96-149 | in every run a restarted choice goes by the thread wanted and by whether the caller could run when it called |
| `SchedulerModel.FreedOnce` | mk/core/core_scheduler.c:109-123 | no thread is freed twice, while it runs, or is current afterwards |
| `SchedulerModel.PinnedRuns` | mk/core/core_scheduler.c:48-63 | a thread once pinned runs on no other CPU for the rest of the run |
| `SchedulerModel.PinnedStays` | mk/core/core_scheduler.c:212-237 | switching never changes a pinned thread's CPU |
| `SchedulerModel.PinnedTo` | mk/core/core_scheduler.c:48-63 | a thread pinned by a call on a CPU is current on no other CPU for the rest of the run |
| `SchedulerModel.PinnedExact` | mk/core/core_scheduler.c:48-63 | in every run a thread is pinned if and only if a step pinned it |
| `SchedulerModel.FirstEligibleFacts` | mk/core/core_scheduler.c:125-142 | the choice is eligible and no eligible thread stands ahead of it |
| `SchedulerModel.ChooseExact` | mk/core/core_scheduler.c:112-149 | a choice reaps the first exiting thread that no longer runs, else goes over to the first thread in the queue that is runnable, runs nowhere, may run here and is wanted, else goes on with its own thread, else panics; a switch puts the thread last |
| `SchedulerModel.ChooseWaits` | mk/core/core_scheduler.c:125-142 | a choice that passes over a thread it could have picked brings it one place forward |
| `SchedulerModel.BoundedWaiting` | mk/core/core_scheduler.c:125-142 | a waiting thread runs within as many decisions open to it as threads were ahead of it, and one |
| `SchedulerModel.SwitchEntries` | mk/core/core_scheduler.c:212-237 | a switch changes no flag but running, and no other thread's CPU |
| `Scheduler.Scheduler.constructor` | mk/core/core_scheduler.c:184-197 | no threads, nothing current |
| `Scheduler.Scheduler.ThreadSetup` | mk/core/core_scheduler.c:184-197 | the setup step: a new thread with no flags at the tail of the run queue |
| `Scheduler.Scheduler.CpuPin` | mk/core/core_scheduler.c:48-63 | the pin step, to the caller's CPU, or a panic exactly for a running, runnable or pinned thread |
| `Scheduler.Scheduler.ThreadRunnable` | mk/core/core_scheduler.c:169-182 | the wake step |
| `Scheduler.Scheduler.ThreadSleeping` | mk/core/core_scheduler.c:199-210 | the sleep step, which takes runnable away and marks the thread asleep, or a panic exactly for a sleeping thread |
| `Scheduler.Scheduler.ThreadExiting` | mk/core/core_scheduler.c:151-167 | the exit step, or a panic exactly for an exiting thread |
| `Scheduler.Scheduler.Idle` | mk/core/core_scheduler.c:65-94 | true exactly when no other thread could run here, that is when an unrestricted choice would find none |
| `Scheduler.Scheduler.FindDead` | mk/core/core_scheduler.c:113-123 | the first exiting thread that no longer runs; the assertion on its flag holds |
| `Scheduler.Scheduler.FindEligible` | mk/core/core_scheduler.c:125-142 | the first thread that may run here; the assertion on its flag holds |
| `Scheduler.Scheduler.SwitchTo` | mk/core/core_scheduler.c:212-237 | the switch step |
| `Scheduler.Scheduler.Pick` | mk/core/core_scheduler.c:112-149 | one pass from the restart label: a reap begins, a switch is made, or nothing can run |
| `Scheduler.Scheduler.ScheduleThread` | mk/core/core_scheduler.c:96-149 | the schedule step, with whether the caller can go on running fixed at its start |
| `Scheduler.Scheduler.FreeThread` | mk/core/core_scheduler.c:118-121 | the reaper frees its one victim with the lock dropped |
| `Scheduler.Scheduler.Restart` | mk/core/core_scheduler.c:121-149 | the pass after a reap, on the flags as they are then |
| `Queues.RemoveFacts` | mk/core/queue.h:307-319 | removing an element of a queue without repeats takes out exactly that one |
| `PortWait.NoLostWakeup` | mk/ipc/ipc_port.c:559-611 | in every interleaving with one waiter a port: a message queued and no sender between queueing and signalling means the sleeper runs or can be chosen |
| `PortWait.Woken` | mk/ipc/ipc_port.c:559-611 | the same of any state that meets the invariant, for a waiter anywhere past its check |
| `PortWait.StepKeepsInv` | mk/core/core_sleepq.c:25-73 | every step of any thread, CPU or port keeps the invariant |
| `PortWait.RunInv` | mk/core/core_sleepq.c:25-73 | every state of every run meets the invariant |
| `PortWait.NeverAlreadySleeping` | mk/core/core_scheduler.c:199-210 | the panic for a thread already asleep cannot be reached from a wait |
| `PortWait.RemovesItself` | mk/core/core_sleepq.c:41-46 | a thread that runs again removes its own entry, under the lock |
| `PortWait.ReturnsOnlyWoken` | mk/core/core_sleepq.c:25-73 | in every run a thread leaves its sleep only when it was woken since it was marked asleep |
| `PortWait.Goes` | mk/ipc/ipc_port.c:495-611 | a wait or a send goes through its places in order and skips none; a check ends a wait exactly when there is a message or it may not wait |
| `PortWait.StuckExact` | mk/core/core_cv.c:38-66 | a thread is held up exactly by a lock that another holds, by a port that is missing or has its waiter, or where a CPU would have nothing to run |
| `PortWait.LocksExact` | mk/core/core_cv.c:38-66 | in every run exactly the threads at the places that have them hold a port's mutex and its condition variable's lock |
| `PortWait.Fifo` | mk/ipc/ipc_port.c:183-234 | in every run what was sent on a port is what was received from it, in that order, and then what is queued |
| `PortWait.SchedulerSteps` | mk/core/core_sleepq.c:25-73 | an action takes exactly the step of the scheduler that its place asks for |
| `PortWait.OutsideExact` | mk/core/core_scheduler.c:65-237 | whatever else the scheduler allows can happen at any time |
| `PortWait.WakingKeeps` | mk/core/core_cv.c:38-46 | the signal reaches the one waiter: while a sender holds both locks it can only be asleep in the queue |
| `PortWait.SleepSteps` | mk/core/core_scheduler.c:96-107 | the hand-off inside the sleep, from the condition variable's lock to the scheduler's, loses nothing |
| `PortWait.UnlockingKeeps` | mk/core/core_cv.c:58-66 | the mutex is let go only under the condition variable's lock |
| `PortWait.CheckingKeeps` | mk/ipc/ipc_port.c:589-608 | the waiter goes on only past an empty queue |
| `PortWait.SendingKeeps` | mk/ipc/ipc_port.c:559-566 | a queued message leaves its sender owing a signal |
| `Hokusai.StepKeeps` | mk/core/core_mp_hokusai.c:22-110 | every load, store or atomic step of any CPU keeps the invariant, if a mask is published with no late interrupt among its CPUs |
| `Hokusai.RunInv` | mk/core/core_mp_hokusai.c:22-110 | every state of every run of any number of rounds meets the invariant |
| `Hokusai.CallbackAfterAll` | mk/core/core_mp_hokusai.c:83-104 | a callback runs only in its round, with its argument, on a CPU of the caller's mask, after every target has set its ready bit |
| `Hokusai.ReturnsAfterAll` | mk/core/core_mp_hokusai.c:57-64 | at the unlock every CPU of the mask has run the callback once and no other has |
| `Hokusai.ExactlyOnce` | mk/core/core_mp_hokusai.c:22-65 | once a call has returned that count is final |
| `Hokusai.LeavesAfterAll` | mk/core/core_mp_hokusai.c:91-97 | a handler gets past the second barrier only when every CPU of its round's mask has run the callback |
| `Hokusai.Resumes` | mk/core/core_mp_hokusai.c:99-104 | a handler runs on top of what its CPU was doing, which then goes on with it |
| `Hokusai.Interrupts` | mk/core/core_mp_hokusai.c:106-110 | the leader interrupts every other CPU once before it enters the meeting |
| `Hokusai.SlotFree` | mk/core/core_mp_hokusai.c:46-49 | the assertion that the callback slot is free always holds, and the argument's is free too |
| `Hokusai.RanStays` | mk/core/core_mp_hokusai.c:67-74 | only the round that holds the lock runs callbacks |
| `Hokusai.LateInterruptRunsTwice` | mk/core/core_mp_hokusai.c:99-110 | without that a slow handler of one round answers the next, and then its interrupt again: a run in which a CPU runs a callback twice |
| `ShLock.RunInv` | mk/core/core_shlock.c:15-68 | in every run, with threads moving between CPUs at each retry, the count is the number of shared holders in 64 bits, and one thread at a time has the owner word |
| `ShLock.Exclusion` | mk/core/core_shlock.c:38-68 | an exclusive holder excludes shared holders and other exclusive ones, if fewer than 2^64 shares were held at a time so far |
| `ShLock.OwnEndsExclusive` | mk/core/core_shlock.c:38-61 | in every run a call for the lock is that call still, or has the lock, until its thread is outside again |
| `ShLock.ShareEndsShared` | mk/core/core_shlock.c:15-30 | in every run a call for a share is that call still, or has a share, until its thread is outside again |
| `ShLock.CourseStep` | mk/core/core_shlock.c:15-68 | each step of a call leads on in that call, or ends it with what it was for |
| `ShLock.TryStep` | mk/core/core_shlock.c:15-61 | a compare-and-set succeeds exactly on a free word; a thread that fails, or sees a share, tries again for the CPU it is then on |
| `ShLock.PanicExact` | mk/core/core_shlock.c:18-48 | a thread panics exactly when, having failed, it finds the word taken by the CPU it tried for |
| `ShLock.OwnerExact` | mk/core/core_shlock.c:15-68 | in every run the owner word is free exactly when no thread is inside |
| `ShLock.CheckMeans` | mk/core/core_shlock.c:57-58 | the check admits a thread with no shared holder if and only if fewer than 2^64 hold shares |
| `ShLock.Overflows` | mk/core/core_shlock.c:57-58 | a reachable state in which 2^64 threads hold shares and another is exclusive |
| `ShLock.NoNewHolders` | mk/core/core_shlock.c:15-30 | nobody comes to hold a share while another is exclusive |
| `ShLock.OnlyOwnStepEnds` | mk/core/core_shlock.c:63-68 | only its own unlock ends an exclusive hold |
| `ShLock.CountKeeps` | mk/core/core_shlock.c:27-36 | counting up and down keeps the count equal to the holders |
| `RightsModel.Grows` | mk/ipc/ipc_port.c:683-806 | a call adds a right only by creating the port, by a grant or right-send from a receiver, or by delivering a message that carries it |
| `RightsModel.SendExact` | mk/ipc/ipc_port.c:495-569 | a send is accepted exactly when it is no knock with a page, the sender holds receive on the source, the destination exists, and it is public, the message a knock, or the sender holds receive, send or send-once there; each error exactly in its case |
| `RightsModel.ReceiveExact` | mk/ipc/ipc_port.c:183-215 | a receiver gets the first message, or is told that there is none; others get their errors |
| `RightsModel.GiveExact` | mk/ipc/ipc_port.c:313-385 | a grant or right-send is accepted exactly from a receiver on the source, for an existing destination |
| `RightsModel.OtherExact` | mk/ipc/ipc_port.c:145-311 | when drops and allocations of reserved ports are accepted, and their errors |
| `RightsModel.HeldExact` | mk/ipc/ipc_port.c:683-806 | a call changes exactly the rights it inserts and takes away: inserted unless the port is public and no receive right comes along, taken by a drop or by a send that only a send-once right allows |
| `RightsModel.RightsExact` | mk/ipc/ipc_port.c:683-806 | in every run a task holds exactly the rights that a call inserted for it and no call has taken away since |
| `RightsModel.PortsExact` | mk/ipc/ipc_port.c:105-176 | a port exists from the call that makes it, private or public as that says |
| `RightsModel.MessagesExact` | mk/ipc/ipc_port.c:183-569 | exactly an accepted send puts its message last, and exactly a receive takes the first |
| `RightsModel.MessagesInOrder` | mk/ipc/ipc_port.c:183-569 | in every run the messages accepted for a port are those delivered from it, in that order, and then those queued |
| `RightsModel.QueuedWasSent` | mk/ipc/ipc_port.c:495-569 | every queued message was sent by a task that could then receive from its source |
| `RightsModel.Provenance` | mk/ipc/ipc_port.c:225-234 | every right a task holds comes from creating the port, or from a grant, right-send or message by a task that then held receive on it |
| `RightsModel.ClosedForever` | mk/ipc/ipc_port.c:313-385 | with no receiver on a port and no message in flight that carries a right on it, rights on it never grow |
| `RightsModel.SpentWithinEarned` | mk/ipc/ipc_port.c:718-733 | sends accepted on a send-once right alone, and the right still held, never exceed the send-once rights given |
| `RightsModel.AlwaysFiled` | mk/ipc/ipc_port.c:215-228 | a queued message is for its queue's port and its source exists, so neither assertion nor panic of a receive can fire |
| `Rights.Ports.constructor` | mk/ipc/ipc_port.c:64-68 | no ports, and the first unreserved number next |
| `Rights.Ports.RightInsert` | mk/ipc/ipc_port.c:738-775 | the rights are added to what the task holds, except send rights on a public port |
| `Rights.Ports.ReceiveCheck` | mk/ipc/ipc_port.c:683-709 | exactly a holder of receive passes |
| `Rights.Ports.SendCheck` | mk/ipc/ipc_port.c:683-736 | a holder of receive, send or send-once passes, and only a lone send-once right is used up |
| `Rights.Ports.FindFree` | mk/ipc/ipc_port.c:116-128 | the first number that no port has: every number from the next one up, or past the end and from the first unreserved one up, is taken |
| `Rights.Ports.AllocatePort` | mk/ipc/ipc_port.c:105-143 | a new port under that number with receive for its creator alone, and the search goes on behind it |
| `Rights.Ports.AllocateReservedPort` | mk/ipc/ipc_port.c:145-176 | the same for a reserved number, with its two errors |
| `Rights.Ports.SendMessage` | mk/ipc/ipc_port.c:495-569 | the send step: errors in the source's order, the right used, the message at the tail |
| `Rights.Ports.ReceiveMessage` | mk/ipc/ipc_port.c:183-234 | the receive step: the first message, and the right it carries inserted |
| `Rights.Ports.RightDrop` | mk/ipc/ipc_port.c:290-311 | the drop step |
| `Rights.Ports.RightGrant` | mk/ipc/ipc_port.c:313-339 | the grant step, for a receiver only |
| `Rights.Ports.RightSend` | mk/ipc/ipc_port.c:341-385 | every task that may receive from the destination, and no other, is given the right |
| `Pte.FrameRoundTrip` | mk/cpu/mips/cpu/pte.h:102-108 | a frame survives an entry if and only if it is 4K-aligned and below 2^36 |
| `Pte.FrameStored` | mk/cpu/mips/cpu/pte.h:102-108 | what survives in general is bits 12 to 35 |
| `Pte.SecondHalf` | mk/cpu/mips/cpu/cpu_vector.S:195-200 | the entry plus one TLB page decodes to the second half of the frame with equal flags |
| `Pte.SamePage` | mk/cpu/mips/cpu/cpu_pmap.c:44-60 | in one address space the three indexes determine the page, and the page them |
| `Pte.Parts` | mk/cpu/mips/cpu/cpu_pmap.c:44-60 | an address is its region, its three indexes and its offset |
| `Pte.Offsets` | mk/cpu/mips/cpu/cpu_vector.S:157-186 | the handler's shifts and masks are eight times the C code's indexes |
| `PageTable.Pmap.constructor` | mk/cpu/mips/cpu/cpu_pmap.c:389-407 | an empty address space |
| `PageTable.Pmap.Find` | mk/cpu/mips/cpu/cpu_pmap.c:165-181 | the level 1 page of the address in range, or none |
| `PageTable.Pmap.Extract` | mk/cpu/mips/cpu/cpu_pmap.c:137-163 | a lookup of the page's frame, with direct addresses for the kernel alone and the errors of the source |
| `PageTable.DirectExact` | mk/cpu/mips/cpu/cpu_pmap.c:137-151 | direct addresses are those whose top bits are 10, and their frame is what is below bit 59 |
| `PageTable.Pmap.AllocPte` | mk/cpu/mips/cpu/cpu_pmap.c:311-349 | missing table pages are linked and no entry changes; fails exactly when pages run out |
| `PageTable.Pmap.Map` | mk/cpu/mips/cpu/cpu_pmap.c:207-230 | an update of the map at one page, every other address unchanged, with an entry that is valid, cached, and global exactly for the kernel; panics exactly when pages run out or the frame is already there |
| `PageTable.Pmap.Update` | mk/cpu/mips/cpu/cpu_pmap.c:409-432 | the store that does it, of exactly the frame and the flags |
| `PageTable.Pmap.Unmap` | mk/cpu/mips/cpu/cpu_pmap.c:232-249 | the page is deleted from the map, every other address unchanged |
| `PageTable.Pmap.Store` | mk/cpu/mips/cpu/cpu_pmap.c:409-432 | one entry changes, for the addresses of one page |
| `PageTable.Pmap.Refill` | mk/cpu/mips/cpu/cpu_vector.S:154-200 | the walk in the handler reaches the entry that the C walk reaches, and its pair of registers decodes to the two halves of the frame |
| `PageTable.Pmap.MapRefill` | mk/cpu/mips/cpu/cpu_vector.S:154-200 | after a page is mapped the refill for any address in it loads its two halves with those flags |
| `PageDescriptors.AddressOf` | mk/vm/vm_page.c:68-93 | a descriptor's address is its place in its tree page past that page's |
| `PageDescriptors.CompareIsPlace` | mk/vm/vm_page.c:439-470 | the comparison tells where a page lies if and only if the cut to 32 bits does not land on an entry |
| `PageDescriptors.ApartMeans` | mk/vm/vm_page.c:439-470 | the comparison with a lower tree page passes on every registered page of a higher one if and only if their distance in 32 bits is in bounds |
| `PageDescriptors.WindowCompatible` | mk/vm/vm_page.c:439-470 | tree pages that do not overlap and lie within 2^32 pages of each other are all apart, at any height |
| `PageDescriptors.AddressesDistinct` | mk/vm/vm_page.c:68-93 | distinct descriptors have distinct addresses, whatever the distances |
| `PageTree.LookupExact` | mk/vm/vm_page.c:423-470 | in any tree, every registered page is looked up right if and only if each is apart from the lower tree pages it is compared with on its way |
| `PageTree.AddressInverse` | mk/vm/vm_page.c:68-93 | looking up the address of a registered page gives its descriptor, in a tree of any shape, if the tree pages are apart |
| `PageTree.TwoExact` | mk/vm/vm_page.c:423-470 | for two tree pages, the lower inserted first, lookups are right if and only if they are apart |
| `PageTree.TakenForOther` | mk/vm/vm_page.c:439-470 | if they are not, looking up a registered page of the higher one gives a descriptor of the lower |
| `PageTree.WrapsAt` | mk/vm/vm_page.c:451-467 | so it is for the tree pages of frames 0 and 2^32 |
| `PageTree.WrongPage` | mk/vm/vm_page.c:278-470 | the code itself, on an empty tree, finds that wrong descriptor |
| `PageTree.PageTree.Insert` | mk/vm/vm_page.c:322-323 | a new tree page enters the tree where the insertion by address puts it |
| `PageTree.PageTree.Lookup` | mk/vm/vm_page.c:423-437 | the walk that follows the comparison, on any tree pages |
| `PageTree.PageTree.LookupAddress` | mk/vm/vm_page.c:423-470 | looking up a page's address gives the page, if the tree pages are apart |
| `PageQueues.FreeIsUnused` | mk/vm/vm_page.c:472-496 | a page is free exactly when it is mapped nowhere and owned by nobody, and is then not on the use queue |
| `PageQueues.PageQueues.Insert` | mk/vm/vm_page.c:415-421 | a new page is free with no references, last in the free queue |
| `PageQueues.PageQueues.Hold` | mk/vm/vm_page.c:485-496 | one reference more; with the first the page goes from the free queue to the end of the use queue |
| `PageQueues.PageQueues.Drop` | mk/vm/vm_page.c:472-483 | one reference less; with the last the page goes from the use queue to the end of the free queue |
| `PageQueues.PageQueues.InsertSpan` | mk/vm/vm_page.c:303-321 | the entries of a tree page become free pages in order, but for its own, which is held |
| `PageQueues.PageQueues.Alloc` | mk/vm/vm_page.c:95-114 | the first free page, with one reference that is its owner's |
| `PageQueues.PageQueues.Release` | mk/vm/vm_page.c:374-381 | the owner's reference is the last: the page goes to the end of the free queue |
| `PageQueues.PageQueues.Map` | mk/vm/vm_page.c:335-352 | one mapping and one reference more, or neither; over a mapped address the counts are right afterwards if and only if nothing was mapped there |
| `PageQueues.PageQueues.Unmap` | mk/vm/vm_page.c:383-398 | one mapping and one reference less |
| `PageQueues.PageQueues.MapDirect` | mk/vm/vm_page.c:354-372 | one direct mapping and one reference more |
| `PageQueues.PageQueues.UnmapDirect` | mk/vm/vm_page.c:400-413 | one direct mapping and one reference less |
| `PageQueues.PageQueues.AllocMap` | mk/vm/vm_page.c:136-152 | the first free page with two references, or all counts as before and that page last in the free queue |
| `PageQueues.PageQueues.FreeMap` | mk/vm/vm_page.c:257-276 | unmapped and free |
| `PageQueues.PageQueues.SendPage` | mk/ipc/ipc_port.c:400-425 | the page leaves the address space of a user task with its owner's reference, which the message carries |
| `PageQueues.PageQueues.SendDirect` | mk/ipc/ipc_port.c:403-415 | the same for a kernel task, whose page leaves the direct map |
| `PageQueues.PageQueues.ReceivePage` | mk/ipc/ipc_port.c:245-260 | the receiver gets a mapping and that reference |
| `PageQueues.PageQueues.ReceiveDirect` | mk/ipc/ipc_port.c:268-277 | a kernel task gets a direct mapping and that reference |
| `PageQueues.PageQueues.DiscardPage` | mk/ipc/ipc_port.c:240-244 | a page that is not wanted, or was refused, becomes free |
| `PageQueues.PageQueues.Do` | mk/vm/vm_page.c:95-413 | every operation keeps queues and counts right, and tree pages held |
| `PhysicalPages.Pages.InsertPages` | mk/vm/vm_page.c:278-333 | tree pages that follow each other describe every page of the region but a last single one, at any height; nothing known before changes |
| `PhysicalPages.DescribedAddress` | mk/vm/vm_page.c:292-321 | those descriptors are for registered pages of the region |
| `PhysicalPages.AddressDescribed` | mk/vm/vm_page.c:292-321 | every registered page of the region has one |
| `PhysicalPages.RegionCompatible` | mk/vm/vm_page.c:278-333 | the tree pages of one region of up to 2^32 pages are apart, wherever it lies |
| `PhysicalPages.Pages.TreePagesHeld` | mk/vm/vm_page.c:308-314 | a tree page's own descriptor is never on the free queue |
| `PhysicalPages.Pages.LookupAddress` | mk/vm/vm_page.c:423-470 | for every page with a descriptor, looking its address up gives the descriptor, if the tree pages are apart |
| `PhysicalPages.Pages.Do` | mk/vm/vm_page.c:95-413 | every other operation keeps tree and queues tied: known pages are those counted, and tree pages are never free |
| `OptionsModel.ClosureGrows` | aux/toolchain/mu-config/main.c:388-407 | asking for more enables at least as much, and no more when it was implied |
| `OptionsModel.ParseJoin` | aux/toolchain/mu-config/main.c:205-236 | any list of settings written out with its signs is read back as that list |
| `OptionsModel.ParseOnly` | aux/toolchain/mu-config/main.c:205-236 | what is accepted is names of up to 1024 characters with their signs, of which only a first plus may be missing, and is read with the names in lower case |
| `OptionsModel.ParseEvery` | aux/toolchain/mu-config/main.c:205-236 | every such string is accepted |
| `OptionsModel.FoldIgnoresCase` | aux/toolchain/mu-config/main.c:612-622 | exactly names that differ in case alone are one option |
| `Options.Configuration.MakeOption` | aux/toolchain/mu-config/main.c:455-471 | a new option is off and implies nothing; a known one is left alone |
| `Options.Configuration.MakeRequirement` | aux/toolchain/mu-config/main.c:473-498 | exactly that requirement is added, of whatever kind, and both options exist; refused exactly for an option on itself |
| `Options.Configuration.Scan` | aux/toolchain/mu-config/main.c:395-406 | finds a disabled option that an enabled one implies, or the enabled set is closed |
| `Options.Configuration.Imply` | aux/toolchain/mu-config/main.c:388-407 | ends, with the least closed superset of what was enabled |
| `Options.Configuration.MakeSetting` | aux/toolchain/mu-config/main.c:500-522 | the option's setting is the new one, all others stay; refused exactly for an unknown option |
| `Options.Configuration.ReadSettings` | aux/toolchain/mu-config/main.c:205-236 | the settings are what the string last says of each option; refused exactly where it is malformed or names an unknown option |
| `Options.Configuration.Config` | aux/toolchain/mu-config/main.c:195-255 | the enabled options are the closure of those last given + without those last given - |
| `Options.ConfigBoth` | aux/toolchain/mu-config/main.c:195-255 | two programs with the same options and implications accept the same strings and enable the same options, in whatever order they read them |
| `Options.Load` | aux/toolchain/mu-config/main.c:455-498 | reading the declarations makes exactly their options and requirements |
| `Options.Configure` | aux/toolchain/mu-config/main.c:164-255 | from declarations and string to the options that are on: the closure of what was last asked for without what was last refused; accepted exactly when both can be read and the check holds |
| `Options.Configuration.Check` | aux/toolchain/mu-config/main.c:164-193 | accepted exactly when std is on and nothing that is on lacks what it requires or has what it excludes |
| `Numerals.DigitsValue` | mk/core/core_printf.c:158-164 | the digits' positional value is the number, in every base from 2 to 16 |
| `Numerals.NoLeadingZero` | mk/core/core_printf.c:158-164 | only zero starts with a zero digit |
| `Numerals.DigitsInjective` | mk/core/core_printf.c:158-164 | different numbers print differently |
| `Numerals.DigitsFit` | mk/core/core_printf.c:146-148 | a number of k bits has at most k digits, so the buffer is large enough |
| `Printing.Fill` | mk/core/core_printf.c:158-161 | the buffer holds the digits, lowest first |
| `Printing.Sink.PutChar` | mk/core/core_printf.c:167-176 | a character is put if it fits, and nothing is written past the size |
| `Printing.Sink.PutString` | mk/core/core_printf.c:178-189 | as much of the text as fits is put |
| `Printing.Sink.Format` | mk/core/core_printf.c:142-165 | the number, signed or not, in the given base |
| `Printing.NumeralValue` | mk/core/core_printf.c:142-165 | a 64-bit word prints as the number it stands for, in two's complement if it is signed |
| `Printing.Sink.Print` | mk/core/core_printf.c:15-113 | text, %% and %u come out as the format says |
| `Printing.RenderText` | mk/core/core_printf.c:25-44 | a text with its percent signs doubled comes out as it is, and what follows is rendered after it |
| `Printing.RenderNumber` | mk/core/core_printf.c:90-94 | a number comes out as the digits of its low 32 bits |
| `Printing.PrintString` | mk/core/core_printf.c:125-140 | the text cut to one less than the size, and a terminator |
| `DottedQuad.Format` | mu/servers/netserver/util.c:10-14 | the dotted quad of the address, cut to the buffer |
| `DottedQuad.QuadFits` | mu/servers/netserver/util.c:10-14 | the text of every address has at most 15 characters |
| `DottedQuad.RenderQuad` | mu/servers/netserver/util.c:13 | the format makes the four bytes, highest first, with dots between |
| `DottedQuad.Parse` | mu/servers/netserver/util.c:16-45 | the reading defined byte by byte, with what a failure leaves behind |
| `DottedQuad.ParseExact` | mu/servers/netserver/util.c:16-45 | succeeds exactly on one to four numbers below 256 between dots, an empty one read as 0, and on four with a dot behind; sets one byte for each number before the first that is none, highest first, and leaves the others alone |
| `DottedQuad.FieldsJoin` | mu/servers/netserver/util.c:25-41 | what stands between the dots holds none and, joined by dots, is the text |
| `DottedQuad.OctetReads` | mu/servers/netserver/util.c:25-34 | digits accumulate their value as long as it stays below 256 |
| `DottedQuad.BytesSet` | mu/servers/netserver/util.c:35-37 | four bytes set one by one make the address, whatever it was before |
| `DottedQuad.RoundTrip` | mu/servers/netserver/util.c:16-45 | parsing what formatting writes succeeds and gives the address back, whatever the output held before |
| `DottedQuad.FormatParse` | mu/servers/netserver/util.c:10-45 | formatting any address into 16 characters and parsing the string there succeeds and gives the address |

## Left out

- The order of the free tree by size after high allocations and range claims, which shrink a linked node in place: for these only tiling and membership hold.
- Liveness of the rendezvous: a CPU still in its second barrier can meet the next round's cleared masks.
- Several waiters on one port, and progress of mutexes: a signal can reach an entry that is already signalled.
- The inside of spinlocks, mutexes and atomic operations: they are taken as atomic steps with mutual exclusion.
- Critical-section depth in the exclusive lock's retry loop.
- TLB contents, address space identifiers, wired entries and caches; the TLB invalidation before a store.
- Which thread and address space the refill handler picks before its walk, and its write to the TLB after it.
- The tree by task under a port's rights, and the tree of ports: maps stand for them; the tree itself is modelled in `Btree.dfy`.
- A failed mapping inside a receive: the mapping at the fresh address is taken to succeed.
- The list of a task's rights, which the calls only append to.
- PageQueues.PageQueues.Hold: a reference count of 2^32 - 1, where the source stops on an assertion, is a precondition.
- Rights.Ports.AllocatePort: requires a free number; without one the source's loop does not end.
- Printing.PrintString: the formats of `Printing.Sink.Print` only.
- Printing.Sink.Print: formats of text, %% and %u; the other directives are not modelled.
- Options.Configuration.ReadSettings: the fixed buffer that a name is copied to is not modelled, only the length it accepts.
- Reading CONFIG files, generating makefiles, the `cpu` directive and the listing of options.
- Booting, drivers, consoles, file systems, ELF loading, the user library, its programs, and the PowerPC port.
