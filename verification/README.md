# govinDOS control plane in Dafny

govinDOS is a single-address-space kernel for x86-64. This project models the
state machines of its control plane in Dafny 4.11 and proves what they keep. It
is self-contained; `dfyconfig.toml` lists all its files.

| files | what they model |
|---|---|
| `PageTree`, `PageFlag`, `PageCanon` | the four-level page tree as a value: split, install, merge, `as_flag`; the flat page map it refines; its canonical form |
| `PageMem`, `PageSteps`, `PageFrames` | the same code in place, over page-table frames, with the dirty range (Intel SDM Vol. 3A, sections 4.5 and 4.6) |
| `Shootdown`, `ShootdownProgress`, `ShootdownRace` | `as_flag`, `as_flush_multi`, `tlb_service_local` and `as_switch` interleaved on any number of CPUs (Intel SDM Vol. 3A, section 4.10.5), that a flush can always end, and two runs of it |
| `ThreadProtocol`, `ThreadClaims`, `ThreadPlaces`, `ThreadRuns`, `ThreadResults` | wait, wake, requeue, expiry, dispatch and disposal of threads, interleaved, and what a wait reports |
| `ThreadRace`, `ThreadLate` | the two runs in which that protocol fails, and when they can happen |
| `FutexQueue` | the waiting lines: FIFO wake and requeue loops |
| `Mutex` | the three-state libc mutex on top of it |
| `Timer` | the per-CPU deadline tree, the quantum and the one-shot request |
| `UmemGraph`, `UmemSteps`, `UmemEdges`, `UmemProcs`, `Umem` | the user-memory ownership graph, thread pins, the process tree, and what each page tree grants |
| `UmemBirth` | the three sections of process creation |
| `GrantTree`, `Capability`, `CapabilityRuns` | the capability grant tree with its intrusive sibling lists, and runs of its operations |
| `Ring` | kernel rings over 32-bit indices that wrap: the kernel half and the library half |
| `Vtd`, `VtdMap` | VT-d second-level tables (Intel VT-d specification, section 3.7) |
| `Iommu`, `Endpoints` | DMA mappings by domain and block, and domains by the ring that made them |
| `Dma` | mappings and the ownership graph together: what devices reach |
| `Arith`, `Seqs` | division and powers of two; options and lists without repetition |

## How it is modelled

- Pages are page numbers in the page-tree and VT-d models, byte addresses in the
  ownership graph. Integers are unbounded except where width matters: ring indices
  wrap at 2^32, `umem_view_locked` and `subgrant` refuse sums that reach 2^64, the
  quantum saturates, `KRING_NSLOTS` is a 32-bit shift.
- Red-black trees are maps and sets with floor and lower-bound queries; slab objects
  are identifiers that are never reused; the buddy allocator gives ranges that meet
  no block; a token is genuine or not; bucket hashing is an arbitrary function.
- A critical section under one lock is one step. In the two concurrent models
  (`Shootdown`, `ThreadProtocol`) accesses that race outside a common lock are steps of
  their own, under sequential consistency: for threads the dead test of a dispatch, its
  two stores of `status` and `on_cpu`, the dead test of a wait and its publication, the
  store of `on_cpu` and the load of `status` after a switch, the loads of
  `proc_sys_thread_destroy`, and each claim. The theorems quantify over every run.
- The other classes are lock-held sections; each method keeps the class's `Valid()`.
  `umem_alloc` flags its pages before it takes the lock, so it is two methods, and the
  invariant carries the allocations under way as its exception. `process_create` is
  taken as one step; `UmemBirth` says what its three sections allow. Between two entries of
  a ring's batch, and between two calls of a revocation's retry loop, any operations of
  others may happen.
- Memory exhaustion, channel room, the clock, hardware answers and what a word held
  when it was loaded are parameters.

## Results worth knowing

- **Canonical page trees.** `as_flag` merges only along its two boundary paths. From
  a canonical tree the result is canonical if and only if the call sets a right, or
  is empty, or no PML4 slot strictly inside the range held a table
  (`PageCanon.FlagCanon`); otherwise each such table stays, mapping nothing
  (`PageCanon.FlagLeavesTable`). Ranges within two neighbouring 512 GiB slots always
  qualify. While calls qualify, the tree depends only on the flags each page was last
  given (`PageCanon.RunDetermined`), so a revert restores the exact tree.
- **Flush that returns too early.** "When `as_flush` returns, no CPU caches what I
  changed" is false, in two ways. Another CPU's flush can take the dirty range first, and
  the caller then finds nothing to do and returns while that flush is still waiting for
  acknowledgements (`ShootdownRace.TakenRange`); or the caller finds other pages to flush
  and returns from that, while the first flush still waits for the slot
  (`ShootdownRace.TakenBefore`). It holds if no other CPU took the range between the change
  and the flush (`Shootdown.ChangeThenFlush`). However the call returns, the page is clean
  exactly when no CPU that another flush has yet to reach caches an old translation of it
  (`Shootdown.ReturnExact`).
- **Destroying a thread of one's own process.** `proc_sys_thread_destroy` loads
  `on_cpu`, `status` and `wake_state` one after the other. For a victim that runs on
  another CPU, or is queued there behind threads of live processes, a continuation that
  frees it while it is on a CPU exists if and only if its process is live when the call
  begins (`ThreadRace.DestroyExact`), and such states are reachable
  (`ThreadRace.PoisedReachable`). The theorems on threads
  therefore speak of runs that destroy only threads of dead processes; for those the
  dead test in `futex_sys_wait` is what keeps a victim off the CPUs.
- **Status loaded late.** `scheduler_loop` clears `on_cpu` of the thread it switched out
  and then loads its `status`. If the thread was woken, ran elsewhere and ended in
  between, two CPUs dispose of it or a freed thread is read. A step leads there if and
  only if it ends a thread whose status some CPU has yet to load (`ThreadRuns.EndExact`);
  `ThreadLate.LateStatus` is a run that reaches one. "Freed exactly once" holds on all
  other runs (`ThreadRuns.FreedOnce`).
- **as_switch.** It stores `current_as` before loading CR3, so a CPU between the two
  may be skipped by a scan; its own next statement reloads CR3. `FlushReturns` carries
  that exception.
- **Write-combining.** `PAGE_WC` and `PAGE_WT` share an encoding, so flags read back
  as write-through (`PageFrames.FlagsRoundTrip`).
- **Ring geometry.** `KRING_NSLOTS` is nonzero if and only if the order is at most 26
  (`Ring.Geometry`).
- **Consumed events.** `cqe_consumed` is right for every event not yet acknowledged, and
  afterwards exactly while the acknowledged count is less than 2^31 past it modulo 2^32
  (`Ring.ConsumedExact`, `Ring.Channel.Consumed`).
- **VT-d rollback.** It re-derives leaf sizes from the IOVA alone, which may differ from
  those of the install. Where it then meets a table of small leaves instead of a 2 MiB
  leaf it drops the whole table, which unmaps the same pages, so a failed map leaves the
  IOVA map unchanged for every pair of addresses (`VtdMap.Map`, `VtdMap.RollBack`).
- **VT-d leftovers.** Unmapping clears leaves and keeps their tables, so where a single
  page has come and gone a 2 MiB leaf is refused although nothing is mapped there
  (`VtdMap.LeftoverTable`). `VtdMap.Map` says exactly when a map with enough memory
  succeeds.
- **What devices reach.** A device reaches a page if and only if its domain maps the RAM
  block around it (`Dma.ReachExact`). A block that a device reaches is neither freed nor
  moved, and no device reaches a page of a block that was freed (`Dma.Machine.Free`).
- **Reach and views.** "Devices reach only blocks that their ring's process owns or views"
  is kept by mapping and sharing, but not by ending a share, which does not look at the
  block's mappings: it survives `umem_unshare` and `umem_dropshare` exactly when no domain
  of the viewer maps the block (`Dma.CutConfined`); from any state, mapping a viewed block
  and then ending the share breaks it (`Dma.Machine.Outlive`). Nor does `map_block` look at
  the rights of the view: no condition of `Dma.Machine.MapBlock` names them.
- **Process creation.** The tree is cloned before the process is registered. A
  `map_device` in between misses it: the new tree agrees with the kernel's afterwards
  exactly when the alias of the range did not change (`UmemBirth.CloneOvertaken`). Between
  the registration and the insertion into the parent's children, the assertion of
  `proc_sys_destroy` that the parent has its target as a child holds of every process but
  the new one (`UmemBirth.ChildExact`).

## Model

| member | source | states |
|---|---|---|
| `PageTree.OpenLook` | kernel/archsrc/x86_64/paging.c:204-217 | splitting a huge leaf, or giving an absent entry a table, preserves the translation of every page |
| `PageTree.InstallTrans` | kernel/archsrc/x86_64/paging.c:226-266 | an install changes the translation below the entry it writes and nowhere else |
| `PageTree.InstallLook` | kernel/archsrc/x86_64/paging.c:226-266 | outside the leaf it splits and the entry it writes, an install changes not even a leaf size |
| `PageTree.MergeTrans` | kernel/archsrc/x86_64/paging.c:355-372 | merging along a path preserves every page's translation |
| `PageFlag.FlagRefines` | kernel/archsrc/x86_64/paging.c:516-551 | for every well-formed tree and range, `as_flag` gives the new leaf bits inside the range and the old result everywhere else |
| `PageFlag.FlagLoopRefines` | kernel/archsrc/x86_64/paging.c:529-541 | the maximal-leaf loop alone already is that flat update |
| `PageCanon.CanonUnique` | kernel/archsrc/x86_64/paging.c:298-347 | two trees without collapsible tables that translate alike are equal |
| `PageCanon.MergeCanon` | kernel/archsrc/x86_64/paging.c:355-372 | a path merge makes a tree that was canonical except on that path canonical |
| `PageCanon.FlagCanon` | kernel/archsrc/x86_64/paging.c:516-551 | `as_flag` keeps a tree canonical if and only if it sets rights, is empty, or clears no table in a PML4 slot strictly inside its range |
| `PageCanon.FlagLeavesTable` | kernel/archsrc/x86_64/paging.c:543-551 | in the remaining case every table that stood in such a slot stays behind and maps nothing |
| `PageCanon.FlagRevert` | kernel/archsrc/x86_64/paging.c:516-551 | flagging a range and giving it back what it had restores the exact tree if and only if it ends canonical; after a first call that kept it canonical, if and only if the second sets rights or meets no table strictly inside |
| `PageCanon.BootPages` | kernel/archsrc/x86_64/paging.c:418-438 | the boot tree maps the first 512 GiB pristine and identity, and nothing else |
| `PageCanon.RunRefines` | kernel/archsrc/x86_64/paging.c:516-551 | after any sequence of calls on any well-formed tree each page has the flags of the last call over it |
| `PageCanon.RunCanon` | kernel/archsrc/x86_64/paging.c:298-372 | calls that each set rights or clear no table strictly inside their range keep a tree canonical |
| `PageCanon.RunDetermined` | kernel/archsrc/x86_64/paging.c:298-372 | two such sequences from one canonical tree build the same tree if and only if they have the same flat effect |
| `PageFrames.FlagsRoundTrip` | kernel/archsrc/x86_64/paging.c:116-164 | what the flag conversions lose: WC reads back as WT, an absent page has no cache type; bits are a fixpoint |
| `PageFrames.FlagAccess` | kernel/archsrc/x86_64/paging.c:116-143 | after `as_flag` every page of the range is itself and open to reads, writes and fetches by user and kernel exactly as the flags say, closed to all without the right to read; no other page changes |
| `PageFrames.BootAccess` | kernel/archsrc/x86_64/paging.c:418-438 | in the boot tree the first 512 GiB are open to the kernel for everything and to user code for nothing |
| `PageFrames.AddressSpace.constructor` | kernel/archsrc/x86_64/paging.c:418-438 | a new space spells out the boot tree and is clean: kernel code may do anything in the first 512 GiB, user code nothing, and nothing else is mapped |
| `PageFrames.AddressSpace.SplitHuge` | kernel/archsrc/x86_64/paging.c:204-217 | the 512 entries written mean the split of the huge leaf |
| `PageFrames.AddressSpace.InstallLeaf` | kernel/archsrc/x86_64/paging.c:226-266 | the in-place descent, split, free and store make the tree the installed tree and keep the dirty range covering |
| `PageFrames.AddressSpace.Walk` | kernel/archsrc/x86_64/paging.c:271-283 | the loop returns the leaf the tree translates the page with, or an absent entry if none |
| `PageFrames.AddressSpace.FreeTable` | kernel/archsrc/x86_64/paging.c:402-412 | the frames of exactly the subtree are freed |
| `PageFrames.AddressSpace.TryMergeChild` | kernel/archsrc/x86_64/paging.c:298-347 | one merge attempt replaces the entry by its collapse, and reports whether it did |
| `PageFrames.AddressSpace.TryMergePath` | kernel/archsrc/x86_64/paging.c:355-372 | the bottom-up loop performs the path merge |
| `PageFrames.AddressSpace.Flag` | kernel/archsrc/x86_64/paging.c:516-551 | in place, the tree becomes the flagged tree, each access to each page of the range is allowed exactly as the flags say, other pages keep theirs, frames and slots stay well formed, and every page whose walk changed since the last flush is in the dirty range |
| `PageFrames.AddressSpace.TableCount` | kernel/archsrc/x86_64/paging.c:492-510 | the recursion counts the tree's tables, which are all the frames owned |
| `PageFrames.AddressSpace.TakeDirty` | kernel/archsrc/x86_64/paging.c:655-670 | taking the range widens the union so that all walks met since the last flush differ only inside it |
| `Shootdown.SlotKept` | kernel/archsrc/x86_64/paging.c:672-725 | one request in flight at a time, the slot busy exactly while a CPU owns it, and the request's fields stable while a need bit is set |
| `ShootdownProgress.SlotExact` | kernel/archsrc/x86_64/paging.c:672-725 | in every state of every run the slot is busy if and only if some CPU is between taking and releasing it, and that CPU is the only one |
| `ShootdownProgress.FlushCanReturn` | kernel/archsrc/x86_64/paging.c:598-725 | from every state of every run in which a CPU is inside a flush there is a continuation in which that call returns: no interleaving locks the protocol up |
| `Shootdown.RunInv` | kernel/archsrc/x86_64/paging.c:557-725 | every state of every run keeps slot ownership, coherence and purge bookkeeping |
| `Shootdown.FlushReturns` | kernel/archsrc/x86_64/paging.c:647-725 | when `as_flush_multi` returns, what any CPU caches of a listed space in the range was filled after the range was taken, except on a CPU inside `as_switch` |
| `Shootdown.StaleIsOwed` | kernel/archsrc/x86_64/paging.c:604-725 | a stale cached translation is covered by the dirty range or by an eviction some CPU still owes |
| `Shootdown.QuietIsCoherent` | kernel/archsrc/x86_64/paging.c:557-725 | with nothing dirty or under way, CPUs cache only what the trees say |
| `Shootdown.ChangeThenFlush` | kernel/archsrc/x86_64/paging.c:516-725 | a CPU that changes a page and flushes, with no other take of the space between, returns with no CPU caching a translation of it from before the change, except inside `as_switch` |
| `Shootdown.EarlyMeansTaken` | kernel/archsrc/x86_64/paging.c:655-673 | a flush that returns early after its CPU changed the page was overtaken by another take |
| `Shootdown.ReturnExact` | kernel/archsrc/x86_64/paging.c:655-725 | a call that returns, at once or with all acknowledgements, leaves a page that is not dirty without stale translations if and only if none of the CPUs that still owe an eviction caches one |
| `ShootdownRace.TakenRange` | kernel/archsrc/x86_64/paging.c:655-673 | a run in which `as_flush` finds nothing to do and returns while another CPU still has the translation its caller changed |
| `ShootdownRace.TakenBefore` | kernel/archsrc/x86_64/paging.c:655-725 | a run in which it returns so after a flush of other pages |
| `ThreadRuns.RunsOnce` | kernel/src/scheduler.c:72-166 | in every state of every run that destroys only threads of dead processes, no thread is on two CPUs or in two queues, and a queued thread's save is in flight only on the CPU of that queue |
| `ThreadRuns.DispatchSafe` | kernel/src/scheduler.c:79-135 | from its pop to the store of `on_cpu` a dispatched thread is fully saved, unclaimed and held by nobody else |
| `ThreadRuns.WaitersAccounted` | kernel/src/futex.c:71-197 | a parked or moving thread has exactly its node and, if its wait has a deadline, exactly that entry; a claimed one has exactly one winner, a moving one a mover that alone holds both buckets |
| `ThreadRuns.DeadlineStands` | kernel/src/futex.c:253-379 | the deadline a wait was given stands until the wait is over, through every wake, requeue, expiry and reap |
| `ThreadRuns.NoAssertFires` | kernel/src/futex.c:114-197 | removals find their node, fresh keys are fresh, and `thread_unblock_claimed` finds BLOCKED and CLAIMED, in every such state |
| `ThreadRuns.FreedOnce` | kernel/src/process.c:147-169 | on runs in which no thread ends while a CPU has yet to load its status, a freed thread is off-CPU, in no tree, queue or hand, and stays so in every continuation |
| `ThreadRuns.DisposeFinds` | kernel/src/process.c:147-169 | on those runs the thread disposed of after an exit is not yet freed, off-CPU, and nobody else's |
| `ThreadRuns.EndExact` | kernel/src/scheduler.c:150-166 | a step has a continuation that misuses a freed thread or disposes of another's if and only if it ends a thread whose status some CPU has yet to load |
| `ThreadLate.LateStatus` | kernel/src/scheduler.c:150-166 | a run that reaches such a step |
| `ThreadRace.DestroyExact` | kernel/src/process.c:379-422 | of a victim that runs on another CPU or is queued there behind threads of live processes, a continuation frees it while it is on a CPU if and only if its process was live when the call began |
| `ThreadRace.PoisedReachable` | kernel/src/process.c:379-422 | a run that reaches such a call on a live process's own thread |
| `ThreadRuns.TimeoutIsDue` | kernel/src/timer.c:103-150 | a wait reports a timeout only when it had a deadline and the clock reached it |
| `ThreadResults.WaitTells` | kernel/src/futex.c:145-186 | in every run a released thread's wait reports a timeout if and only if the expiry of its deadline claimed it, and a wake if and only if a wake did, until its next wait |
| `ThreadResults.ClaimedHow` | kernel/src/futex.c:114-197 | a parked thread is claimed by a wake, by an expiry or by its reaper, and by nothing else |
| `ThreadRuns.VictimOff` | kernel/src/process.c:379-422 | once claimed or found REAPABLE, a dead process's thread is off every CPU and nobody else holds it |
| `ThreadRuns.StepInv` | kernel/src/futex.c:71-379 | each step of any CPU that destroys no thread of a live process keeps claims, places, disposal, lock and time invariants |
| `ThreadClaims.DetachKept` | kernel/src/futex.c:114-140 | a wake's claim and removal keeps every node, entry and winner in agreement |
| `ThreadClaims.ExpireKept` | kernel/src/timer.c:103-140 | so does claiming a due entry |
| `ThreadClaims.FinishUnlinkKept` | kernel/src/futex.c:177-186 | the expired waiter's node is still in its bucket when the winner removes it |
| `ThreadClaims.RelinkKept` | kernel/src/futex.c:331-372 | the relink finds the node, meets no collision and leaves the deadline and its entry as they were |
| `ThreadClaims.ReapKept` | kernel/src/futex.c:188-197 | the reaper's removal finds the node, and disposal keeps the rest in agreement |
| `ThreadPlaces.RunnablePlace` | kernel/src/thread.c:54-78 | after the on_cpu spin the thread is BLOCKED, claimed and off-CPU, and moves to one hand |
| `FutexQueue.ClaimableIsKept` | kernel/src/futex.c:114-140 | the seek order over sequence numbers is the parked part of the waiting line |
| `FutexQueue.LineAppend` | kernel/src/instances/llrb_futex.c:5-10 | nodes under later sequence numbers stand behind those already there, in order |
| `FutexQueue.Population` | kernel/src/futex.c:331-372 | a requeue loses no waiter and invents none |
| `FutexQueue.Buckets.Wait` | kernel/src/futex.c:253-295 | a changed word or missing memory leaves lines and states alone; else the thread stands last, parked, with its deadline |
| `FutexQueue.Buckets.DetachBatch` | kernel/src/futex.c:114-140 | takes the first `cap` claimable waiters of the line in arrival order and leaves every other line alone |
| `FutexQueue.Buckets.Wake` | kernel/src/futex.c:145-157 | releases the front of the claimable waiters, in order: no more than `count`, than 16 and than there are, and as many as one of these allows |
| `FutexQueue.Buckets.Requeue` | kernel/src/futex.c:297-379 | as many claimable waiters as a wake would take move, in order, behind the target's line; deadlines, states and population are kept; each refusal changes nothing |
| `Mutex.MutualExclusion` | packages/gdos-libc-dev/source/pthread.c:573-660 | in every run at most one thread holds the mutex, and then the word is nonzero |
| `Mutex.NoLostWakeup` | packages/gdos-libc-dev/source/pthread.c:597-660 | whenever a thread is parked, the word is 2 or another running thread owes a wake or a contended retry |
| `Mutex.ParkedBehindHolder` | packages/gdos-libc-dev/source/pthread.c:597-660 | with nobody inside the library, a parked thread waits for an owner whose unlock will wake |
| `Mutex.UnlockExact` | packages/gdos-libc-dev/source/pthread.c:643-660 | unlock is refused without effect exactly for non-holders; else it returns one level less, and at the last level goes on to free the mutex |
| `Mutex.UnlockReleases` | packages/gdos-libc-dev/source/pthread.c:643-660 | whatever others do in between, with the holder's third access the word is 0, there is no owner and nobody holds the mutex |
| `Mutex.LockMeansHeld` | packages/gdos-libc-dev/source/pthread.c:573-627 | every lock or try call of every run: success if and only if the caller then holds the mutex one level deeper; any other result says what stood in the way (busy, deadlock, depth, time, error) and leaves the mutex alone |
| `Mutex.FreeIsTaken` | packages/gdos-libc-dev/source/pthread.c:573-627 | a call that finds the word free and is left alone succeeds |
| `Mutex.StepInv` | packages/gdos-libc-dev/source/pthread.c:573-660 | every access of any thread keeps exclusion, ownership, the line and the wake obligation |
| `Timer.FiresMonotone` | kernel/src/timer.c:28-43 | a request for an earlier time never fires later |
| `Timer.Cpu.Program` | kernel/src/timer.c:28-43 | one request that serves every deadline and the quantum, none if there is nothing to serve |
| `Timer.Cpu.Dispatch` | kernel/src/timer.c:45-53 | sets a saturated quantum and keeps every obligation served |
| `Timer.Cpu.Idle` | kernel/src/timer.c:55-61 | drops the quantum and keeps parked deadlines served |
| `Timer.Cpu.Arm` | kernel/src/timer.c:63-87 | reprogramming only for a new earliest obligation still serves all of them; no memory changes nothing |
| `Timer.Cpu.Cancel` | kernel/src/timer.c:89-101 | removing an entry needs no new request |
| `Timer.Cpu.Interrupt` | kernel/src/timer.c:103-150 | claims the first 64 due claimable waiters in order, clears an expired quantum, and asks for an immediate shot if due entries are left |
| `UmemGraph.LinkKeeps` | kernel/src/umem.c:93-104 | appending a new edge keeps each pending list exactly the un-notified edges, spelled out by its links |
| `UmemGraph.UnlinkKeeps` | kernel/src/umem.c:106-120 | unlinking an edge anywhere does the same |
| `UmemSteps.UserInside` | kernel/src/umem.c:312-358 | a tree grants user access only inside a block its process owns or views or is just allocating, and other RAM is pristine |
| `UmemSteps.FlownGood` | kernel/src/umem.c:147-196 | flagging fresh pages before the lock is taken keeps the graph consistent, with that range as the exception |
| `UmemSteps.LandGood` | kernel/src/umem.c:197-213 | publishing the block ends the exception, whatever sections ran in between, and the pages are still flagged |
| `UmemSteps.RemoveGood` | kernel/src/umem.c:312-392 | releasing a block keeps every index and leaves it restored in every page tree |
| `UmemEdges.ShareGood` | kernel/src/umem.c:468-489 | a new edge keeps both sharing indexes, the pending list, the page trees and the pins in agreement |
| `UmemEdges.RevokeGood` | kernel/src/umem.c:542-560 | so does removing one |
| `UmemProcs.MoveGood` | kernel/src/umem.c:691-741 | a move, with or without a view at the receiver, keeps the whole graph consistent |
| `UmemProcs.EndGood` | kernel/src/channel.c:289-302 | a registered completion's block is there, owned by the process and pinned when the thread ends |
| `UmemProcs.BuryUnnamed` | kernel/src/process.c:457-468 | a destroyed process is named by no block, edge, view, list, thread or relative |
| `UmemProcs.ReaperExact` | kernel/src/process.c:174-186 | reaper authority is held by exactly the proper ancestors whose child on the way is dead |
| `UmemProcs.DeadExact` | kernel/src/process.c:103-110 | a process is dead if and only if it or one of its ancestors was marked |
| `Umem.Memory.constructor` | kernel/src/process.c:44-66 | the graph with only init is consistent |
| `Umem.Memory.View` | kernel/src/umem.c:73-91 | two floor lookups find a block if and only if some owned or viewed block contains the range |
| `Umem.Memory.AllocFlag` | kernel/src/umem.c:147-196 | the least power-of-two range is open to the owner exactly as asked, and nothing else changed; failure changes nothing |
| `Umem.Memory.AllocPublish` | kernel/src/umem.c:197-213 | the block enters every index, mapped as it was flagged |
| `Umem.Memory.MapDevice` | kernel/src/umem.c:223-294 | each refusal; on success a device block whose owner has the device's rights there, every other tree and the kernel's have the kernel's, and nothing else changed |
| `Umem.Memory.Free` | kernel/src/umem.c:360-392 | refused while pins, shares, DMA or the channel remain; else the block is gone and pristine in every tree, and nothing else changed |
| `Umem.Memory.Protect` | kernel/src/umem.c:398-433 | succeeds exactly for an aligned range inside one unpinned, non-ring block within device rights; the range then grants exactly `prot`, a guard nothing, with the device's cache policy; no other address and no other tree changes |
| `Umem.Memory.Share` | kernel/src/umem.c:435-496 | each refusal; on success one new edge on both sides, pending unless its event was posted; the target's tree grants R, W and X on the block exactly as `prot` does, with U and the device's cache policy; no other address and no other tree changes |
| `Umem.Memory.DropShare` | kernel/src/umem.c:530-561 | removes exactly the target's edge, and the target's user access to exactly that block, or refuses without effect |
| `Umem.Memory.Unshare` | kernel/src/umem.c:563-591 | the same from the owner's side |
| `Umem.Memory.Move` | kernel/src/process.c:471-495 | the parent hands a block to a live child, replacing a view it had, or refuses without effect, in the order of the checks |
| `Umem.MovedRights` | kernel/src/umem.c:724-734 | after a move the receiver may read and write RAM, or use the device as it allows, the giver has the kernel's mapping without user access, and no other tree or address changed |
| `Umem.RevokedUndone` | kernel/src/umem.c:542-560 | revoking one edge takes the target's user access to the block, RAM pristine again, leaves every other edge announced or not as it was, and changes nothing else |
| `Umem.Memory.Replay` | kernel/src/schemes/shares.c:14-36 | announces the pending edges in order until the channel is full and marks exactly those |
| `Umem.Memory.CreateRing` | kernel/src/channel.c:196-255 | only an own, unshared, unpinned RAM block that is no ring becomes one |
| `Umem.Memory.Spawn` | kernel/src/process.c:249-285 | each refusal; a completion registration pins exactly a private, own, writable RAM block that is no ring |
| `Umem.Memory.EndThread` | kernel/src/process.c:147-169 | each ended thread drops its pin exactly once |
| `Umem.Memory.ThreadExited` | kernel/src/process.c:147-169 | the last thread to end takes its process along, which is fatal exactly for init |
| `Umem.Memory.CreateProcess` | kernel/src/process.c:44-66 | a child starts with the kernel's tree and nothing else |
| `UmemBirth.TogetherBorn` | kernel/src/process.c:44-66 | the clone, the registration and the insertion with nothing in between are that step |
| `UmemBirth.CloneExact` | kernel/src/process.c:52-58 | after the registration the trees agree if and only if the clone agrees with the kernel's tree then |
| `UmemBirth.CloneOvertaken` | kernel/src/umem.c:246-259 | with a device mapped between the clone and the registration they agree if and only if its alias was there already |
| `UmemBirth.ChildExact` | kernel/src/process.c:58-63 | between the registration and the insertion every process but the new one is among its parent's children |
| `Umem.Memory.MarkDead` | kernel/src/process.c:103-138 | marks the process and changes nothing else, except that killing init is fatal; death is never undone |
| `Umem.Memory.Destroy` | kernel/src/process.c:424-469 | refused while memory, children, threads or users of the tree remain; at the end nothing names the process |
| `GrantTree.AuthorityWithin` | kernel/src/capability.c:163-212 | a grant's authority is within that of every ancestor |
| `GrantTree.DepthBound` | kernel/src/capability.c:117-135 | depth never exceeds 64 and wildcards are roots |
| `GrantTree.AddChild` | kernel/src/capability.c:117-135 | head insertion keeps parent, child and sibling links in agreement |
| `GrantTree.CutChild` | kernel/src/capability.c:137-148 | removing a leaf anywhere in its list does too |
| `Capability.NarrowAttenuates` | kernel/src/capability.c:163-212 | a request that passes the checks asks for no more than the parent has |
| `Capability.NarrowExact` | kernel/src/capability.c:163-212 | the checks pass if and only if a power exists that carries every parameter asked for, inherits the rest and lies within the parent, and it is that power they give; malformed requests are told from refused ones |
| `Capability.AddCut` | kernel/src/capability.c:137-148 | deleting the grant just added restores the tree and all sibling links exactly |
| `CapabilityRuns.RevokedForever` | kernel/src/capability.c:74-157 | in every run, from the first revoke step of a grant on, no grant of its subtree is live and nothing is added to the subtree |
| `CapabilityRuns.RetryBound` | packages/gdoslib-dev/kring.c:164-176 | whatever is interleaved, a grant takes at most as many revoke steps as its subtree had grants, and with the last of them all are gone |
| `Capability.ShutStays` | kernel/src/capability.c:74-157 | no operation of anybody revives or extends a revoked subtree |
| `Capability.DeleteShuts` | kernel/src/capability.c:150-157 | one revoke step shuts the target's whole subtree and takes one grant of it |
| `Capability.DeadSubtreeFixed` | kernel/src/capability.c:214-230 | nothing can be granted below a grant that is not live |
| `Capability.Index.constructor` | kernel/src/capability.c:275-285 | three live wildcard roots, one of each kind |
| `Capability.Index.Walk` | kernel/src/capability.c:88-94 | the ancestor walk finds liveness, and its depth limit never trips |
| `Capability.Index.Resolve` | kernel/src/capability.c:74-97 | each refusal of token resolution, in order |
| `Capability.Index.Subgrant` | kernel/src/capability.c:163-212 | every refusal by its cause, under a live parent only, and success exactly for what can be asked; a refused one leaves the tree exactly as it was, a granted one has the parameters asked for and else the parent's, is linked as its first child and live |
| `Capability.Index.CreateRoute` | kernel/src/capability.c:294-304 | only under a live wildcard interrupt root |
| `Capability.Index.RevokeStep` | kernel/src/capability.c:150-157 | deletes one leaf of the subtree and nothing else, and no grant of the subtree is live from then on |
| `Capability.Index.RevokeCall` | kernel/src/capability.c:232-240 | a revoke call is one revoke step of a grant that is there, live or not, or is refused |
| `Capability.Index.Revoke` | packages/gdoslib-dev/kring.c:164-176 | with any operations of others between its calls, the retry loop ends after at most as many calls as the subtree had grants, one more if another revoker was faster, and the subtree is gone |
| `Ring.Geometry` | kernel/src/channel_internal.h:32-43 | header and both queues fit the block and slots divide the index space for every order up to 26, beyond which the slot count is zero |
| `Ring.ConsumedExact` | kernel/src/channel_internal.h:50-54 | for any two counts the signed comparison is right if and only if the later is less than 2^31 past the other modulo 2^32 |
| `Ring.Channel.Consumed` | kernel/src/channel_internal.h:50-54 | never says yes of an event not acknowledged, and of an acknowledged one exactly while the count is less than 2^31 past it modulo 2^32 |
| `Ring.Channel.constructor` | kernel/src/channel.c:226-243 | a new ring of any order is empty and consistent |
| `Ring.Channel.Post` | kernel/src/channel.c:36-53 | posts unless that would overwrite an entry not acknowledged, across wraparound |
| `Ring.Channel.Read` | packages/gdoslib-dev/kring.c:75-84 | the k-th entry read is the k-th posted |
| `Ring.Channel.Ack` | packages/gdoslib-dev/kring.c:107-114 | frees exactly what was read |
| `Ring.Channel.Fill` | packages/gdoslib-dev/kring.c:51-58 | hands out a slot unless that would overwrite an entry not executed |
| `Ring.Channel.RunOne` | kernel/src/channel.c:134-154 | one entry is executed and its completion posted, or dropped exactly if the queue is full |
| `Ring.Channel.RunChunk` | kernel/src/channel.c:134-154 | executes the next published entries in order, as many as the budget allows, whatever is posted, read or acknowledged in between; completions stand in order among the posts, and none is dropped if there is room for all |
| `Ring.Channel.Drain` | kernel/src/channel.c:167-190 | a drain executes min(1024, outstanding) entries in order, with a replay after each chunk |
| `Ring.Channel.Submit` | packages/gdoslib-dev/kring.c:60-73 | terminates, with every filled entry executed exactly once and in order |
| `Vtd.SetLook` | kernel/archsrc/x86_64/vtd.c:136-155 | a store changes the walk below its entry and nowhere else |
| `Vtd.SlptEntry` | kernel/archsrc/x86_64/vtd.c:136-155 | finds or makes the entry without changing the IOVA map; without allocation it fails exactly when a table is missing |
| `VtdMap.MappingLeaves` | kernel/archsrc/x86_64/vtd.c:327-340 | the loop computes the leaf count |
| `VtdMap.LeavesSame` | kernel/archsrc/x86_64/vtd.c:327-340 | the count for the IOVA is the number of leaves of an identity map |
| `VtdMap.PutLeaf` | kernel/archsrc/x86_64/vtd.c:353-365 | fills the entry if and only if it is vacant, given memory, and leaves the vacancy of every other entry alone |
| `VtdMap.ClearLeaf` | kernel/archsrc/x86_64/vtd.c:366-376 | clears the entry, a leaf or a whole table, and with it exactly its pages, or finds none |
| `VtdMap.RollBack` | kernel/archsrc/x86_64/vtd.c:366-376 | with leaf sizes taken from the IOVA alone, exactly the pages of a mapped range are unmapped |
| `VtdMap.Map` | kernel/archsrc/x86_64/vtd.c:342-384 | for any physical address, success adds exactly the block with its permissions in as many writes as it has leaves; failure leaves the IOVA map unchanged; with memory for the tables it succeeds if and only if the range is in bounds and every leaf finds its entry vacant |
| `VtdMap.LeftoverTable` | kernel/archsrc/x86_64/vtd.c:342-401 | after one page is mapped and unmapped the IOVA map is as before, and a 2 MiB leaf there is refused with any memory, in any domain |
| `VtdMap.Unmap` | kernel/archsrc/x86_64/vtd.c:386-401 | clears entry after entry up to the first that is missing, succeeds if and only if none is, and always does for a mapped range |
| `VtdMap.UnmapInverts` | kernel/archsrc/x86_64/vtd.c:386-401 | map then unmap is the identity on the IOVA map |
| `Iommu.LinkAgrees` | kernel/src/iommu.c:321-349 | a new mapping keeps domain list, block tree and count in agreement |
| `Iommu.UnlinkAgrees` | kernel/src/iommu.c:352-369 | removing one does too |
| `Iommu.Domains.constructor` | kernel/src/iommu.c:96-102 | no domains, nothing mapped |
| `Iommu.Domains.Find` | kernel/src/iommu.c:275-282 | the list walk finds the block's mapping if and only if there is one |
| `Iommu.Domains.MapBlock` | kernel/src/iommu.c:284-350 | each refusal by its cause, leaving the indexes alone; past the checks success exactly when the tables have room; then exactly one mapping is added and the tables map exactly the domain's blocks |
| `Iommu.Domains.UnmapMapping` | kernel/src/iommu.c:371-378 | the tables give the block up without fail, and every index forgets it |
| `Endpoints.Directories.Create` | kernel/src/iommu.c:132-153 | each refusal by its cause; otherwise one domain per ring and cookie, under a fresh id, that maps nothing |
| `Endpoints.Directories.Remove` | kernel/src/iommu.c:155-171 | refused exactly while devices or mappings remain; otherwise only that domain goes |
| `Endpoints.Directories.MapBlock` | kernel/src/iommu.c:416-419 | the call reaches the ring's own domain of that name or is refused, and then does what `map_block` does |
| `Endpoints.Directories.UnmapBlock` | kernel/src/iommu.c:380-389 | succeeds exactly for a block that the ring's domain maps, and removes only that mapping |
| `Endpoints.Directories.DestroyRing` | kernel/src/iommu.c:433-450 | all domains of the ring go with all their mappings, and no other domain or mapping does |
| `Dma.BlockClear` | kernel/src/umem.c:147-213 | blocks of the ownership graph do not overlap, so a block not yet mapped in a domain meets none of its mappings |
| `Dma.ReachExact` | kernel/src/iommu.c:284-350 | a device reaches a page if and only if its domain maps the block around it |
| `Dma.ReachRights` | kernel/src/iommu.c:284-350 | what it reaches is RAM, at its own address, with the rights of the mapping |
| `Dma.ReachOfBlock` | kernel/src/iommu.c:284-350 | of a block a domain reaches all pages if it maps the block and none otherwise, whoever views it |
| `Dma.CutConfined` | kernel/src/umem.c:530-591 | when a share ends, devices still reach only what their ring's process owns or views if and only if no domain of the viewer maps the block |
| `Dma.Machine.MapBlock` | kernel/src/iommu.c:284-350 | every refusal, also of addresses inside a page and of blocks the caller does not see; success marks the block as mapped and keeps graph, indexes and tables in agreement |
| `Dma.Machine.UnmapBlock` | kernel/src/iommu.c:352-389 | the last mapping of a block takes its mark along |
| `Dma.Machine.RevokeMap` | kernel/src/iommu.c:477-495 | refused without authority over the block; otherwise ends the mapping of any domain, if there is one |
| `Dma.Machine.DestroyRing` | kernel/src/iommu.c:433-450 | keeps graph, indexes and tables in agreement |
| `Dma.Machine.Free` | kernel/src/umem.c:360-392 | refused while a device reaches the block; afterwards no device reaches any of its pages, and the domains of a ring in it are gone |
| `Dma.Machine.Move` | kernel/src/process.c:471-495 | a block changes owner only while no device reaches it |
| `Dma.Machine.MapOwn` | kernel/src/channel.c:171-181 | a map call from the ring's own process keeps its devices within what it owns or views |
| `Dma.Machine.Share` | kernel/src/umem.c:435-496 | so does a share |
| `Dma.Machine.Unshare` | kernel/src/umem.c:563-591 | the view goes, every domain reaches the block as before, and the condition for that is exact |
| `Dma.Machine.DropShare` | kernel/src/umem.c:530-561 | the same from the viewer's side |
| `Dma.Machine.Outlive` | kernel/src/umem.c:563-591 | from any state, after a process maps a block it views and the share ends, its devices reach every page of a block it does not see |

## Left out

- Accessed and dirty bits set by hardware, and any other bit the walker writes: entries change only by the kernel's stores.
- `as_flag` on ranges that reach beyond 2^48, and `pt_alloc` failure, which the source treats as fatal.
- `as_clone`, `as_free` and address-space pins as page-table code: process creation takes the kernel's translation as a whole, and destruction takes the pin count as an answer.
- Weak memory: the concurrent models are sequentially consistent.
- ThreadRuns.FreedOnce: on runs without a late status load and without destruction of live processes' threads; `ThreadRuns.EndExact` and `ThreadRace.DestroyExact` show that it fails on the others.
- ThreadRace.DestroyExact: says nothing of live victims that are parked, or queued behind a thread of a dead process or on the caller's own CPU; the half about dead processes holds of all (`ThreadRuns.VictimOff`).
- ThreadRuns.RunsOnce: idle CPUs, halting and inter-processor wakeups are not modelled; nothing is said about when a queued thread runs.
- ShootdownProgress.FlushCanReturn: says that the return stays possible from every state, not that every fair schedule reaches it.
- FutexQueue.Buckets.DetachBatch: claims do not race inside the loop; races are the subject of ThreadProtocol.
- FutexQueue.Buckets.Wake: the release of the claimed waiters is one step with the claims; the same holds there.
- FutexQueue.Buckets.Requeue: both buckets are held and no claim races inside the loop; the same holds there.
- Mutex.NoLostWakeup: does not extend to mutexes that a condition-variable broadcast requeues waiters onto, where a retry through trylock may set the word to 1.
- Condition variables, read-write locks, barriers and thread creation of the C library.
- Timer.Cpu.Program: the LAPIC's count limit, which only makes a shot earlier, is not modelled.
- Umem.Memory.CreateProcess: takes the three sections of `process_create` as one; the two overlaps that matter are stated in `UmemBirth` and not carried through the invariant.
- Umem.Memory.AllocFlag: zeroing of the block's contents is not modelled.
- Umem.Memory.Free: the flush and the buddy return that follow the critical section are not separate steps.
- Ring anchors, replays other than shares, and the completion word's contents: channels are a set of blocks here.
- At-most-once delivery of child-death events: the source notifies again when the process is already dead.
- Capability tokens as bytes: the MAC is a yes-or-no answer, and identifiers do not run out.
- Ring.Channel.Submit: the ring is not destroyed during a drain, and the producer is the library; a lying tail is refused by the same check but not modelled as a step.
- VtdMap.Map: no page of the range lies under a leaf larger than the one looked for, which `map_block` never asks for; tables are values, so stores through pointers and table reuse after free are not captured. Permissions are not both clear, as `map_block` checks: the entry would count as absent.
- Vtd.SlptEntry: the walk does not meet a leaf above the height it looks for, which the source would take for a table.
- Endpoints.Directories.Create: the list of domains is a map, and domain ids do not run out.
- Device attach, detach and fault reporting of the IOMMU, and the enumeration system calls.
- Assembly, interrupt controllers, ACPI, SMP start, loaders, drivers, packaging, and the vendored tree, slab, buddy and hash code.
