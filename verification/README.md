# Verified models of the gsgpu driver

This project models the concurrent protocols and the list and ring data structures at the heart of the
gsgpu kernel driver, and proves what they keep over every run. Protocols are state machines whose step is one
spinlock section, one atomic operation or one callback; hardware and the kernel's allocators are parameters that
may answer in any way their stated contract allows. Code that updates objects, lists and arrays in place is a
class or an array method, proved equal to the function that the theorems are about.

| files | part of the driver |
|---|---|
| `Bits`, `Seqs`, `Wrappers` | powers of two, masks and wrap-around; distinct sequences; `Option` |
| `FenceRing`, `FenceRefinement`, `FenceRuns`, `FenceDriver` | the hardware fence ring against an unbounded log |
| `SchedModel`, `SchedInv`, `SchedSubmit`, `SchedThread`, `SchedJobs`, `SchedMain`, `SchedOrder`, `SchedNull` | the GPU scheduler |
| `RunQueue` | run queues, round robin, load balancing |
| `BufferModel`, `BufferLife`, `BufferObject` | the life cycle of a TTM buffer and its list reference count |
| `TtmLock`, `TtmLockObject` | the TTM reader, writer, VT and suspend lock |
| `Execbuf` | reserving a buffer list with back-off |
| `PageLayout`, `PageArray`, `PagePool`, `PooledArray`, `DmaRuns` | page pools, huge page recognition, DMA runs |
| `CtxFences` | the fence window of a context |
| `MnTree`, `MnLock` | the MMU notifier's intervals and its recursive read lock |
| `Vmid`, `VmidManager`, `VmidRings`, `VmidTlb` | VMID reuse, and the TLB behind rings that execute on their own |
| `BoList` | buffer lists and their bucket sort |

Places where the code does not do what its comments and names promise, each with the exact condition and, but for
the last, an input or a run on which the promise fails:

- A `gsgpu_fence_process` call that sleeps between its reads and its cmpxchg while a multiple of 2^32 fences
  goes by signals fences the hardware has not reached (`StaleCallSignalsEarly`, `ExchangeRefinesIff`). The ring
  set-up also accepts 0 and 2^31 submissions, for which mask and slots do not fit (`InitUsableIff`).
- A job whose `run_job` returns no fence is finished at once, so it may overtake an earlier job of its entity,
  and the entity may then move to another scheduler with that job in flight (`NoFenceOvertakes`,
  `FinishInOrderIff`).
- `ttm_eu_reserve_buffers` fails with the current entry still locked exactly when its
  `reservation_object_reserve_shared` finds no room (`NoRoomLeaks`, `ErrorHoldsNothingIff`). The comment above it
  also promises to wait for CPU writers; the code returns -EBUSY, and does not look at them after the slow lock
  (`WritersUnseen`, `WritersOnlyPastSlowLock`).
- Two VT (or suspend) grants at once share one bit; the first release drops the protection of the second
  (`OverlapAdmitsReader`, `StepProtectedIff`).
- A run mapped at bus address 0 is not unmapped as it was mapped (`ZeroAddressBreaks`, `UnmapsIff`).
- A reserved VMID taken without page-table updates keeps the previous owner's record of flushed updates; given
  back and reused, it may skip a needed TLB flush, because fences of different contexts never compare as later
  (`ForeignTakeGoesStale`, `StepTimelineIff`).
- An id counts as idle for a ring on which its last user's job is still to execute, and `gsgpu_vmid_grab_used`
  reuses an id that needs a flush without asking whether it is idle (the line that passed over it is commented
  out); a flush from one ring can then run into a job of another VM on another ring, and one of the two works on
  the other's translations (`RaceHappens`, `RaceIffAhead`, `StaleIff`).
- A job on the ring of the page-table updates is granted its id while its update is still to execute, and the id
  records the update as flushed at once. A flush of another ring that executes before the update then passes for one
  that came after it, and a later job of that ring runs on old translations (`HastyGoesStale`, `HastyOpens`,
  `RunBackedIff`, `StaleIff`).
- The error path of `gsgpu_bo_list_create` leaks the references of user-pointer entries (`UserEntryLeaks`,
  `Create`).
- Rounding a `sched_jobs` request above 2^30 up to a power of two makes the parameter negative (`TooManyJobs`,
  `CheckedJobsFitIff`).
- `drm_sched_entity_get_free_sched` has no answer exactly when every job count is UINT_MAX (`GetFreeSched`).

## Model

| member | source | states |
|---|---|---|
| `FenceRuns.RunSafe` | Source/gsgpu-1.0.0/gsgpu/gpu/gsgpu_fence.c:134-273 | every interleaving of one emitter, any number of processing calls and hardware that stays within what was committed: the wrapping masked ring refines the unbounded log, no fence is signaled twice, none before the fence memory reached it, at most 2N stored fences are unclaimed, and a fence signaled at any point stays signaled to the end |
| `FenceRuns.SignaledAfterHardware` | Source/gsgpu-1.0.0/gsgpu/gpu/gsgpu_fence.c:230-273 | a signaled fence is one the hardware's own writes have reached, counted over the whole run |
| `FenceRefinement.StepRefines` | Source/gsgpu-1.0.0/gsgpu/gpu/gsgpu_fence.c:230-273 | one driver step and one log step are enabled together and lead to related states, across 32-bit wrap-around |
| `FenceRefinement.ExchangeRefinesIff` | Source/gsgpu-1.0.0/gsgpu/gpu/gsgpu_fence.c:236-240 | the cmpxchg step refines the log if and only if the caller did not sleep through a multiple of 2^32 fences |
| `FenceRefinement.FreshIsNotStale` | Source/gsgpu-1.0.0/gsgpu/gpu/gsgpu_fence.c:236-240 | fewer than 2^32 fences claimed since the read is enough |
| `FenceRefinement.SlotsDistinct` | Source/gsgpu-1.0.0/gsgpu/gpu/gsgpu_fence.c:157-178 | two fences in the ring never share a masked slot |
| `FenceRuns.StaleCallSignalsEarly` | Source/gsgpu-1.0.0/gsgpu/gpu/gsgpu_fence.c:236-271 | a run from initialisation in which a call that slept through 2^32 fences signals a fence the hardware has not reached |
| `FenceRuns.RunRefinesFrom` | Source/gsgpu-1.0.0/gsgpu/gpu/gsgpu_fence.c:134-273 | from any related states, a whole run of the driver exists exactly when the run of the log does, ending related |
| `FenceRuns.QuiescentMeansSignaled` | Source/gsgpu-1.0.0/gsgpu/gpu/gsgpu_fence.c:255-272 | with no processing call under way every claimed fence has been signaled |
| `FenceRuns.CallSignalsExactlyOnce` | Source/gsgpu-1.0.0/gsgpu/gpu/gsgpu_fence.c:230-273 | exactly once, for every processing call of a run from its first read to its end, overlapping any number of other calls, the emitter and the hardware: everything the fence memory had reached at its start is claimed; what is claimed was signaled exactly once over the whole run, but for what calls still under way have in hand; nothing else was; with no call under way every claimed fence was signaled exactly once |
| `FenceRuns.CountEmittedExact` | Source/gsgpu-1.0.0/gsgpu/gpu/gsgpu_fence.c:355-367 | the 32-bit difference of the two counters is the true number of unclaimed fences |
| `FenceRuns.InitAccepts` | Source/gsgpu-1.0.0/gsgpu/gpu/gsgpu_fence.c:413-425 | initialisation accepts exactly zero and the powers of two |
| `FenceRuns.InitUsableIff` | Source/gsgpu-1.0.0/gsgpu/gpu/gsgpu_fence.c:413-450 | of the accepted counts exactly 1 to 2^30 give a usable ring; 0 and 2^31 are accepted but do not |
| `FenceRing.LogStepKeepsInv` | Source/gsgpu-1.0.0/gsgpu/gpu/gsgpu_fence.c:134-273 | every step keeps the log invariant: each fence claimed by one call, signaled once, window of 2N |
| `FenceDriverObject.FenceDriver.constructor` | Source/gsgpu-1.0.0/gsgpu/gpu/gsgpu_fence.c:413-450 | for every accepted count the in-place driver starts in the model's initial state, a valid one from 1 to 2^30 |
| `FenceDriverObject.FenceDriver.EmitBegin` | Source/gsgpu-1.0.0/gsgpu/gpu/gsgpu_fence.c:139-152 | next sequence number, wrapped; is the model's step |
| `FenceDriverObject.FenceDriver.EmitStore` | Source/gsgpu-1.0.0/gsgpu/gpu/gsgpu_fence.c:172-178 | the store into the masked slot; is the model's step |
| `FenceDriverObject.FenceDriver.Claim` | Source/gsgpu-1.0.0/gsgpu/gpu/gsgpu_fence.c:236-249 | reads both counters and claims the range between them, as a run of the model |
| `FenceDriverObject.FenceDriver.SweepSlot` | Source/gsgpu-1.0.0/gsgpu/gpu/gsgpu_fence.c:255-271 | one turn of the slot walk empties the slot and signals its fence, as a run of the model |
| `FenceDriverObject.FenceDriver.Process` | Source/gsgpu-1.0.0/gsgpu/gpu/gsgpu_fence.c:230-273 | the whole call is a run of the model by one caller, terminates, and leaves last_seq at the fence memory |
| `FenceDriverObject.FenceDriver.CountEmitted` | Source/gsgpu-1.0.0/gsgpu/gpu/gsgpu_fence.c:355-367 | processes first, then returns the counter difference |
| `SchedMain.RunJobSafe` | Source/gsgpu-1.0.0/scheduler/sched_entity.c:375-455 | whenever run_job is called: each fence handed out is signaled, of the same entity, or of a job of the same scheduler that is scheduled; earlier pushed jobs have run and later ones are still queued |
| `SchedMain.MovesOnlyWhenDrained` | Source/gsgpu-1.0.0/scheduler/sched_entity.c:465-485 | an entity changes scheduler only with an empty queue and its newest popped job finished, under every interleaving with the scheduler threads |
| `SchedOrder.FinishInOrderIff` | Source/gsgpu-1.0.0/scheduler/sched_main.c:369-390 | jobs of every entity finish in push order throughout a run, across load balancing, if and only if no job without a hardware fence is processed while an earlier one of its entity is under way; a job detached by a reset counts as done |
| `SchedOrder.StepOrderedIff` | Source/gsgpu-1.0.0/scheduler/sched_main.c:526-538 | the same for one step |
| `SchedOrder.StepLeavesNothing` | Source/gsgpu-1.0.0/scheduler/sched_entity.c:465-485 | a move leaves no unfinished job on the old scheduler |
| `SchedOrder.DependenciesOrdered` | Source/gsgpu-1.0.0/scheduler/sched_entity.c:375-417 | a dependency handed out for a job that runs is signaled, or of a job that is done or ahead on the very same ring, or of a job not pushed, or of this job or a later one of its entity |
| `SchedNull.NoFenceOvertakes` | Source/gsgpu-1.0.0/scheduler/sched_main.c:526-538 | a run in which run_job without a fence lets a job finish before an earlier one, after which the entity moves with that one still on the ring |
| `SchedMain.CountsExact` | Source/gsgpu-1.0.0/scheduler/sched_main.c:259-275 | hw_rq_count is the number of jobs counted in and not yet processed or detached, within the limit; no finished fence before its scheduled fence |
| `SchedMain.CountedOnce` | Source/gsgpu-1.0.0/scheduler/sched_main.c:452-466 | a job enters the count only by its own scheduler's increment and leaves it once, by process_job or by a reset |
| `SchedMain.StepKeeps` | Source/gsgpu-1.0.0/scheduler/sched_main.c:492-543 | every step of submitters, scheduler threads, rings and resets keeps the scheduler invariant |
| `SchedSubmit.SubmitterKeeps` | Source/gsgpu-1.0.0/scheduler/sched_entity.c:465-523 | the submitter's part: select_rq, job_init, push_job |
| `SchedThread.EntityStepKeeps` | Source/gsgpu-1.0.0/scheduler/sched_entity.c:426-455 | the thread's part on an entity: select, dependencies, storing last_scheduled before the pop |
| `SchedJobs.JobStepKeeps` | Source/gsgpu-1.0.0/scheduler/sched_main.c:514-538 | the thread's part on a job: count, run, scheduled fence, callback |
| `SchedJobs.RemoteKeeps` | Source/gsgpu-1.0.0/scheduler/sched_main.c:452-466 | completion by the ring and detaching by a reset |
| `SchedThread.ClearDepKeeps` | Source/gsgpu-1.0.0/scheduler/sched_entity.c:308-316 | the dependency callback |
| `RunQueue.SelectedIff` | Source/gsgpu-1.0.0/scheduler/sched_main.c:125-157 | an entity is returned exactly when some member is ready; it is the nearest ready one behind the entity picked last |
| `RunQueue.PickedWithinN` | Source/gsgpu-1.0.0/scheduler/sched_main.c:125-157 | with unchanged membership, n selections pick every entity that stays ready |
| `RunQueue.PickedWithinDistance` | Source/gsgpu-1.0.0/scheduler/sched_main.c:125-157 | the exact bound: as many selections as stand before it |
| `RunQueue.Rq.Select` | Source/gsgpu-1.0.0/scheduler/sched_main.c:125-157 | the two list loops compute that choice and only move current_entity |
| `RunQueue.Rq.Add` | Source/gsgpu-1.0.0/scheduler/sched_main.c:87-95 | appends an entity that is on no list and leaves a listed one alone, keeping the queue invariant |
| `RunQueue.Rq.Remove` | Source/gsgpu-1.0.0/scheduler/sched_main.c:105-115 | unlinks a listed entity, clearing current_entity if it was this one, and leaves an unlisted one alone |
| `RunQueue.StepOk` | Source/gsgpu-1.0.0/scheduler/sched_entity.c:349-364 | add, remove, set_priority, select_rq and selection keep an entity linked at most once, only on its own run queue, and current_entity a member or NULL |
| `RunQueue.RunOk` | Source/gsgpu-1.0.0/scheduler/sched_entity.c:465-523 | the same for every state of a run from empty queues and unlinked entities |
| `RunQueue.GetFreeSched` | Source/gsgpu-1.0.0/scheduler/sched_entity.c:126-141 | the first least loaded run queue; none exactly when every count is UINT_MAX |
| `RunQueue.SelectEntity` | Source/gsgpu-1.0.0/scheduler/sched_main.c:400-442 | nothing while the hardware queue is full, else the highest priority with a ready entity; lower and empty queues are untouched |
| `BufferLife.RunSafe` | Source/gsgpu-1.0.0/ttm/ttm_bo.c:145-211 | in every run list_kref is base plus lru plus swap plus ddestroy plus transient holders; no BUG check fires; release_list runs once, with memory cleaned once, no mm_node, no user, on no list; NO_EVICT means off the lru |
| `BufferLife.AtRestReleased` | Source/gsgpu-1.0.0/ttm/ttm_bo.c:531-594 | nothing leaks: with everybody at rest and no use left the buffer is released unless it is on the delayed-destroy list |
| `BufferLife.StepKeeps` | Source/gsgpu-1.0.0/ttm/ttm_bo.c:387-594 | every step of users, reservers, the last user, the delayed worker, evictors and swappers keeps the life-cycle invariant |
| `BufferLife.TryReleaseKeeps` | Source/gsgpu-1.0.0/ttm/ttm_bo.c:387-442 | cleanup_refs_or_queue under the lru lock, all three ways out |
| `BufferLife.CleanupRefsKeeps` | Source/gsgpu-1.0.0/ttm/ttm_bo.c:457-525 | cleanup_refs, with and without a reservation of its own |
| `BufferLife.PickLiveKeeps` | Source/gsgpu-1.0.0/ttm/ttm_bo.c:717-779 | an evictor or swapper takes a buffer off the lists, or cleans a dead one |
| `BufferLife.PutKeeps` | Source/gsgpu-1.0.0/ttm/ttm_bo.c:145-165 | dropping a list reference that may be the last |
| `BufferObject.TtmBo.constructor` | Source/gsgpu-1.0.0/ttm/ttm_bo.c:1121-1227 | a new buffer: one use, one list reference, reserved; with a shared reservation and a good validation it is on the lists unless it may not be evicted |
| `BufferObject.TtmBo.AddToLru` | Source/gsgpu-1.0.0/ttm/ttm_bo.c:167-188 | is the model's function on the object's fields |
| `BufferObject.TtmBo.DelFromLru` | Source/gsgpu-1.0.0/ttm/ttm_bo.c:196-211 | is the model's function on the object's fields |
| `BufferObject.TtmBo.MoveToLruTail` | Source/gsgpu-1.0.0/ttm/ttm_bo.c:223-229 | removal followed by insertion |
| `BufferObject.TtmBo.CleanupRefsOrQueue` | Source/gsgpu-1.0.0/ttm/ttm_bo.c:387-442 | is the model's function; says whether the caller must clean |
| `BufferObject.TtmBo.CleanupRefs` | Source/gsgpu-1.0.0/ttm/ttm_bo.c:457-525 | is the model's function up to the point where the lru lock is dropped |
| `BufferObject.TtmBo.PutListRef` | Source/gsgpu-1.0.0/ttm/ttm_bo.c:145-165 | the count, and the BUG checks of release_list at zero |
| `TtmLock.RunSafe` | Source/gsgpu-1.0.0/ttm/ttm_lock.c:57-303 | rw is -1 exactly with one writer and otherwise the number of readers; a VT or suspend bit keeps readers and writers out; a pending bit stands for a waiter of its kind |
| `TtmLock.NeverAllAsleep` | Source/gsgpu-1.0.0/ttm/ttm_lock.c:57-303 | when nothing is held and somebody waits, some waiter is awake and would be granted, or is about to withdraw its pending bit and wake all |
| `TtmLock.StepProtectedIff` | Source/gsgpu-1.0.0/ttm/ttm_lock.c:190-202 | every VT or suspend holder stays covered by its bit exactly when no holder releases while another of its kind holds |
| `TtmLock.RunExcludes` | Source/gsgpu-1.0.0/ttm/ttm_lock.c:190-303 | without overlapping releases, VT and suspend holders exclude readers and writers and no VT unlock finds its bit clear |
| `TtmLock.OverlapAdmitsReader` | Source/gsgpu-1.0.0/ttm/ttm_lock.c:190-229 | two VT grants, one release: a reader enters beside the second holder, whose unlock then finds its bit clear |
| `TtmLock.StepKeeps` | Source/gsgpu-1.0.0/ttm/ttm_lock.c:57-303 | every step keeps the lock invariant, including that each sleeper is really blocked |
| `TtmLockObject.FlaggedLock.ReadLock` | Source/gsgpu-1.0.0/ttm/ttm_lock.c:66-82 | read attempt on the flag word is the model's function |
| `TtmLockObject.FlaggedLock.ReadTrylock` | Source/gsgpu-1.0.0/ttm/ttm_lock.c:97-119 | trylock attempt, and when the wait ends on the flag word is the model's function |
| `TtmLockObject.FlaggedLock.ReadUnlock` | Source/gsgpu-1.0.0/ttm/ttm_lock.c:57-63 | read release, and when it wakes the queue on the flag word is the model's function |
| `TtmLockObject.FlaggedLock.WriteLock` | Source/gsgpu-1.0.0/ttm/ttm_lock.c:149-168 | write attempt with the pending bit on the flag word is the model's function |
| `TtmLockObject.FlaggedLock.WriteUnlock` | Source/gsgpu-1.0.0/ttm/ttm_lock.c:140-146 | write release on the flag word is the model's function |
| `TtmLockObject.FlaggedLock.WithdrawWrite` | Source/gsgpu-1.0.0/ttm/ttm_lock.c:177-182 | an interrupted writer's pending bit on the flag word is the model's function |
| `TtmLockObject.FlaggedLock.TakeVt` | Source/gsgpu-1.0.0/ttm/ttm_lock.c:215-229 | VT attempt on the flag word is the model's function |
| `TtmLockObject.FlaggedLock.WithdrawVt` | Source/gsgpu-1.0.0/ttm/ttm_lock.c:240-246 | an interrupted VT taker's pending bit on the flag word is the model's function |
| `TtmLockObject.FlaggedLock.VtUnlock` | Source/gsgpu-1.0.0/ttm/ttm_lock.c:190-202 | VT release; an error exactly when the bit was clear on the flag word is the model's function |
| `TtmLockObject.FlaggedLock.TakeSuspend` | Source/gsgpu-1.0.0/ttm/ttm_lock.c:283-297 | suspend attempt on the flag word is the model's function |
| `TtmLockObject.FlaggedLock.SuspendUnlock` | Source/gsgpu-1.0.0/ttm/ttm_lock.c:274-280 | suspend release on the flag word is the model's function |
| `Execbuf.Submission.ReserveBuffers` | Source/gsgpu-1.0.0/ttm/ttm_execbuf_util.c:94-179 | for any lock outcomes, result, list, dups and held reservations are those of the walk over these outcomes: list and new dups are a permutation of the input; on success each entry's reservation is held through it alone, every dup's through a list entry, and the buffers are off the lru; on an error nothing stays held if and only if no turn that is reached finds reserve_shared without room; each error code has its cause |
| `Execbuf.Submission.TryOne` | Source/gsgpu-1.0.0/ttm/ttm_execbuf_util.c:111-171 | one turn of the walk is the one the outcomes call for; -ENOMEM exactly when the entry is shared and its reserve_shared finds no room, after the fast lock without CPU writers or after the slow one, and then exactly that entry stays locked |
| `Execbuf.Submission.BackoffReverse` | Source/gsgpu-1.0.0/ttm/ttm_execbuf_util.c:36-44 | drops exactly what the entries before the current one hold |
| `Execbuf.Submission.BackoffReservation` | Source/gsgpu-1.0.0/ttm/ttm_execbuf_util.c:56-79 | nothing stays held and the unpinned buffers are on the lru; add_to_lru never meets a listed buffer |
| `Execbuf.Submission.FenceBufferObjects` | Source/gsgpu-1.0.0/ttm/ttm_execbuf_util.c:182-214 | every reservation gets its fence once, in order, shared or exclusive as asked, and is dropped |
| `Execbuf.EnomemIff` | Source/gsgpu-1.0.0/ttm/ttm_execbuf_util.c:111-167 | -ENOMEM comes out if and only if some turn that the walk reaches finds no room for a shared fence |
| `Execbuf.ErrorHoldsNothingIff` | Source/gsgpu-1.0.0/ttm/ttm_execbuf_util.c:111-167 | on an error nothing stays held if and only if no such turn is reached |
| `Execbuf.NoRoomLeaks` | Source/gsgpu-1.0.0/ttm/ttm_execbuf_util.c:132-164 | one shared entry, locked at once, with no room for its fence: -ENOMEM with the entry still locked |
| `Execbuf.WalkKeeps` | Source/gsgpu-1.0.0/ttm/ttm_execbuf_util.c:111-171 | the walk, for any outcomes, permutes the list and the dups and on success leaves distinct reservations that cover the dups |
| `Execbuf.WritersOnlyPastSlowLock` | Source/gsgpu-1.0.0/ttm/ttm_execbuf_util.c:114-119 | in a successful walk CPU writers were about only at duplicates and at entries taken by the slow lock |
| `Execbuf.WritersUnseen` | Source/gsgpu-1.0.0/ttm/ttm_execbuf_util.c:144-156 | a deadlocked entry with CPU writers is reserved all the same |
| `Execbuf.Submission.ReserveAndBackoff` | Source/gsgpu-1.0.0/ttm/ttm_execbuf_util.c:56-179 | reserving and, on success, backing off leaves nothing held if and only if no turn that is reached finds no room; unpinned reserved buffers are on the lru again |
| `PageLayout.SwappedNoAscent` | Source/gsgpu-1.0.0/ttm/ttm_page_alloc.c:886-891 | for any distinct pages the swap leaves no ascending neighbours among single pages |
| `PageLayout.ClassifyLayout` | Source/gsgpu-1.0.0/ttm/ttm_page_alloc.c:708-820 | the scan of a laid-out array finds exactly the huge blocks as huge and the single pages as single, with or without a pool and with an unfilled tail |
| `PageLayout.ClassifySmall` | Source/gsgpu-1.0.0/ttm/ttm_page_alloc.c:720-754 | without huge pages everything is freed as single |
| `PageArray.GetCached` | Source/gsgpu-1.0.0/ttm/ttm_page_alloc.c:838-897 | the array is the blocks followed by the swapped singles; ENOMEM exactly when the allocator runs out |
| `PageArray.PutCached` | Source/gsgpu-1.0.0/ttm/ttm_page_alloc.c:718-754 | what is freed and at which order, and the array is cleared |
| `PageArray.RoundTrip` | Source/gsgpu-1.0.0/ttm/ttm_page_alloc.c:708-897 | what goes back is what the allocator handed out, at the order it was allocated, with as many blocks and pages as fit and were to be had, also after a failed get |
| `PagePool.Pool.Free` | Source/gsgpu-1.0.0/ttm/ttm_page_alloc.c:283-367 | takes exactly min(nr_free, npages) pages off the tail in batches, never overrunning its buffer |
| `PagePool.Pool.Cut` | Source/gsgpu-1.0.0/ttm/ttm_page_alloc.c:652-670 | the first count pages, whichever end the search starts from, none for count 0 |
| `PagePool.Pool.FillLocked` | Source/gsgpu-1.0.0/ttm/ttm_page_alloc.c:571-622 | refills only a small request that the pool cannot meet, once at a time, with all pages whose caching could be changed; npages stays the list length |
| `PagePool.Pool.GetPages` | Source/gsgpu-1.0.0/ttm/ttm_page_alloc.c:629-705 | the first count pages of the refilled pool, the missing ones allocated in front of them, as a function of the pool and of the kernel's answers; success exactly when count pages came |
| `PagePool.AllocNewPages` | Source/gsgpu-1.0.0/ttm/ttm_page_alloc.c:487-565 | order 0: exactly the pages before the first batch whose caching cannot be changed are added in front; success exactly when that is all that was asked for |
| `PooledArray.PutPages` | Source/gsgpu-1.0.0/ttm/ttm_page_alloc.c:756-820 | blocks go to the huge pool and other pages to the single pool; each is cut back from the tail, to at most its limit when the buffer allocates |
| `PooledArray.GetPages` | Source/gsgpu-1.0.0/ttm/ttm_page_alloc.c:898-940 | exactly the blocks and single pages that the pools and the kernel's answers give, laid out with the swap, and the pools without them; on a failure all of them are put into the pools again, each cut back to its limit |
| `PooledArray.PlentySucceeds` | Source/gsgpu-1.0.0/ttm/ttm_page_alloc.c:898-940 | with enough pages to be had, a get succeeds |
| `PooledArray.PoolConserves` | Source/gsgpu-1.0.0/ttm/ttm_page_alloc.c:629-705 | what the single pool keeps and hands out is what it had and what was bought for it |
| `PooledArray.RoundTrip` | Source/gsgpu-1.0.0/ttm/ttm_page_alloc.c:708-940 | a get followed by a put, or a failed get, returns exactly the blocks to the huge pool and exactly the single pages to the other; each pool with what it frees from its tail has what it had before and what was bought for it |
| `DmaRuns.MapPages` | Source/gsgpu-1.0.0/ttm/ttm_page_alloc.c:1097-1137 | every page gets the address of its maximal run plus its offset; one mapping a run |
| `DmaRuns.UnmapPages` | Source/gsgpu-1.0.0/ttm/ttm_page_alloc.c:1140-1166 | the list of addresses and lengths the unmapping loop issues |
| `DmaRuns.UnmapsIff` | Source/gsgpu-1.0.0/ttm/ttm_page_alloc.c:1097-1166 | unmapping issues the same list as mapping if and only if no run has bus address 0 (or starts with the null page) |
| `DmaRuns.RoundTrip` | Source/gsgpu-1.0.0/ttm/ttm_page_alloc.c:1097-1166 | both loops in turn: the mappings of the maximal runs, what is unmapped, and that these agree if and only if no run has bus address 0 |
| `DmaRuns.ZeroAddressBreaks` | Source/gsgpu-1.0.0/ttm/ttm_page_alloc.c:1148-1151 | a two-page run mapped at 0 is unmapped as one page at the next address |
| `CtxFences.CtxRing.GetFence` | Source/gsgpu-1.0.0/gsgpu/gpu/gsgpu_ctx.c:357-383 | exactly the fence added under the handle, or NULL only for handle 0 or a signaled fence that left the window, or an error exactly for future handles; ~0 means the latest |
| `CtxFences.CtxRing.AddFence` | Source/gsgpu-1.0.0/gsgpu/gpu/gsgpu_ctx.c:330-355 | the window agrees with the history after the add; the BUG_ON cannot fire |
| `CtxFences.CtxRing.WaitPrevFence` | Source/gsgpu-1.0.0/gsgpu/gpu/gsgpu_ctx.c:407-425 | a completed wait leaves the next slot free |
| `CtxFences.CtxRing.Submit` | Source/gsgpu-1.0.0/gsgpu/gpu/gsgpu_cs.c:1119-1119 | wait and add under the context lock, with any signals in between, meet the add's precondition |
| `CtxFences.CtxRing.constructor` | Source/gsgpu-1.0.0/gsgpu/gpu/gsgpu_ctx.c:65-75 | the empty window, next handle 1 |
| `CtxFences.CheckedJobsFitIff` | Source/gsgpu-1.0.0/gsgpu/gpu/gsgpu_device.c:626-636 | on the C int that holds it, the window size is a power of two, at least 4 and at least what was asked if and only if no more than 2^30 was asked; above that it turns negative |
| `CtxFences.TooManyJobs` | Source/gsgpu-1.0.0/gsgpu/gpu/gsgpu_device.c:632-636 | 2^30 + 1 is the first request that does not fit |
| `CtxFences.WindowAdd` | Source/gsgpu-1.0.0/gsgpu/gpu/gsgpu_ctx.c:330-355 | overwriting the masked slot keeps every other handle of the window in its slot |
| `MnTree.Notifier.Register` | Source/gsgpu-1.0.0/gsgpu/gpu/gsgpu_mn.c:387-436 | intervals stay disjoint, every buffer in one covering node; the covered addresses grow by exactly the new range |
| `MnTree.Notifier.Merge` | Source/gsgpu-1.0.0/gsgpu/gpu/gsgpu_mn.c:408-416 | the merge loop terminates with nothing overlapping, nothing lost and the same addresses covered |
| `MnTree.Notifier.Unregister` | Source/gsgpu-1.0.0/gsgpu/gpu/gsgpu_mn.c:445-477 | removes the buffer; a node goes only with its last one and otherwise keeps its width; an unregistered buffer changes nothing |
| `MnTree.Notifier.Invalidate` | Source/gsgpu-1.0.0/gsgpu/gpu/gsgpu_mn.c:247-281 | visits the affected buffers in order; without leave to block gives up exactly when the range hits a node |
| `MnTree.Notifier.InvalidateNode` | Source/gsgpu-1.0.0/gsgpu/gpu/gsgpu_mn.c:215-234 | the affected buffers of one node |
| `MnTree.VisitsOnce` | Source/gsgpu-1.0.0/gsgpu/gpu/gsgpu_mn.c:215-281 | every affected registered buffer is met exactly once and no other |
| `MnTree.OneNode` | Source/gsgpu-1.0.0/gsgpu/gpu/gsgpu_mn.c:387-436 | a registered buffer is in exactly one node, whose interval covers it |
| `MnLock.InsideExcludesWriters` | Source/gsgpu-1.0.0/gsgpu/gpu/gsgpu_mn.c:158-203 | while any invalidation is between a start that returned 0 and its end, the semaphore has a reader and no submitter has it for writing |
| `MnLock.AllOutMeansFree` | Source/gsgpu-1.0.0/gsgpu/gpu/gsgpu_mn.c:180-203 | with everybody out nothing is held and the counter is zero |
| `MnLock.StepKeeps` | Source/gsgpu-1.0.0/gsgpu/gpu/gsgpu_mn.c:180-301 | every mutex, atomic and semaphore step keeps the counting invariant |
| `Vmid.StepKeepsPlaces` | Source/gsgpu-1.0.0/gsgpu/gpu/gsgpu_ids.c:399-560 | every VMID from 1 up is on the LRU exactly once or reserved by exactly one VM, whatever is called |
| `Vmid.NoFlushIff` | Source/gsgpu-1.0.0/gsgpu/gpu/gsgpu_ids.c:264-386 | a grant without a flush request had the same owner and page directory and a usable last_flush; it had flushed the job's last update if and only if both fences are of one context |
| `Vmid.GrantRecords` | Source/gsgpu-1.0.0/gsgpu/gpu/gsgpu_ids.c:399-457 | what any grant leaves in the id and on the LRU |
| `Vmid.RefusalKeeps` | Source/gsgpu-1.0.0/gsgpu/gpu/gsgpu_ids.c:277-304 | a refused grab hands out nothing and at most clears the page directory of the VM's own reserved id |
| `Vmid.StepTimelineIff` | Source/gsgpu-1.0.0/gsgpu/gpu/gsgpu_ids.c:264-314 | every id keeps updates of its owner's timeline unless a VM takes its reserved id without updates while it records another VM's |
| `Vmid.RunNeverStale` | Source/gsgpu-1.0.0/gsgpu/gpu/gsgpu_ids.c:264-457 | after every run without such a take, a grant without a flush had flushed the job's last update |
| `Vmid.ForeignTakeGoesStale` | Source/gsgpu-1.0.0/gsgpu/gpu/gsgpu_ids.c:264-386 | a run with such a take after which a grab asks for no flush although the update was never flushed |
| `VmidTlb.NeverStale` | Source/gsgpu-1.0.0/gsgpu/gpu/gsgpu_ids.c:264-457 | no stale translation: throughout every run without a race, a foreign take or a hasty flush, page-table updates and jobs executing in order on each ring and each ring at its own pace, a ring that has come to a job finds the id flushed for the job's own VM and page directory after its last update was complete, whether the job asked for the flush or not; the update may still be ahead on the job's ring when the id is granted |
| `VmidTlb.StaleIff` | Source/gsgpu-1.0.0/gsgpu/gpu/gsgpu_ids.c:264-457 | over all runs, hasty flushes and foreign takes included: a grab can be followed by sound steps to a stale translation if and only if it races, or asks for no flush although the id was not flushed since the job's update and no flush behind that update is on the job's ring |
| `VmidTlb.GrabStaleIff` | Source/gsgpu-1.0.0/gsgpu/gpu/gsgpu_ids.c:264-386 | the same from any state that keeps the invariant |
| `VmidRings.RaceIffAhead` | Source/gsgpu-1.0.0/gsgpu/gpu/gsgpu_ids.c:343-381 | a grab races exactly when, before the call, the reuse search finds an id whose last flush the ring may not rely on while another ring still has a job of another user on it: the case that the commented-out line passed over |
| `VmidTlb.RaceHappens` | Source/gsgpu-1.0.0/gsgpu/gpu/gsgpu_ids.c:343-381 | a run from the start, with the driver's four ids, that reaches a race and from there a stale translation: one VM takes over an id on the ring where its last job is still to execute, then reuses it from another ring |
| `VmidTlb.RunBackedIff` | Source/gsgpu-1.0.0/gsgpu/gpu/gsgpu_vm.c:619-687 | recording a flush as last_flush keeps every id's recorded update ahead of its last flush if and only if the flush is not hasty: the update its id records is complete or ahead on the same ring |
| `VmidTlb.HastyOpens` | Source/gsgpu-1.0.0/gsgpu/gpu/gsgpu_vm.c:619-687 | after any hasty flush the rings can come to a point where every grab of the id for the recorded update, from the same ring and without a flush, goes stale |
| `VmidTlb.ReliesIfIdle` | Source/gsgpu-1.0.0/gsgpu/gpu/gsgpu_ids.c:343-381 | there is such a grab whenever some listed id is idle for the ring, the VM has no reserved id and the reuse search ends at the id in question |
| `VmidTlb.HastyGoesStale` | Source/gsgpu-1.0.0/gsgpu/gpu/gsgpu_job.c:168-199 | a run from the start, with one VM, no race and nothing reserved, in which a hasty flush goes stale |
| `VmidTlb.NoSkip` | Source/gsgpu-1.0.0/gsgpu/gpu/gsgpu_ids.c:277-386 | without foreign takes and hasty flushes, no grab skips a flush it needs |
| `VmidRings.GrantKeeps` | Source/gsgpu-1.0.0/gsgpu/gpu/gsgpu_ids.c:399-457 | a grab that neither races nor skips a needed flush keeps the invariant: a recorded last flush has executed for the owner or is on its ring ahead of all the owner's work there; rings share an id only for one user; every job will find its translations |
| `VmidRings.GrantedGoodIff` | Source/gsgpu-1.0.0/gsgpu/gpu/gsgpu_ids.c:277-386 | a job granted without a flush finds no other ring at work on its id for anyone else, and what is ahead on its own ring leaves the TLB good for it if and only if no needed flush was skipped |
| `VmidRings.UsableServes` | Source/gsgpu-1.0.0/gsgpu/gpu/gsgpu_ids.c:283-287 | the test that the last flush is of the same ring or signaled does its work: on that ring the id will serve its owner, and no other ring works on it for others |
| `VmidRings.RunJobKeeps` | Source/gsgpu-1.0.0/gsgpu/gpu/gsgpu_vm.c:619-687 | putting a job, behind its flush, on its ring and recording the flush's fence keeps the invariant |
| `VmidRings.ExecuteKeeps` | Source/gsgpu-1.0.0/gsgpu/gpu/gsgpu_vm.c:655-678 | so does a ring that executes its next command, an update, a flush or a job, at any time |
| `VmidRings.IssueKeeps` | Source/gsgpu-1.0.0/gsgpu/gpu/gsgpu_vm.c:2367-2375 | so does issuing a page-table update |
| `VmidRings.ManageKeeps` | Source/gsgpu-1.0.0/gsgpu/gpu/gsgpu_ids.c:459-535 | so does reserving, freeing or resetting an id |
| `Vmid.AllocKeepsPlaces` | Source/gsgpu-1.0.0/gsgpu/gpu/gsgpu_ids.c:459-486 | a VM gets a reserved id exactly when it has one or nobody has; the list head exists |
| `Vmid.FreeKeepsPlaces` | Source/gsgpu-1.0.0/gsgpu/gpu/gsgpu_ids.c:488-500 | the id goes back to the list |
| `VmidManager.Manager.constructor` | Source/gsgpu-1.0.0/gsgpu/gpu/gsgpu_ids.c:544-560 | every id but 0 on the list, in order |
| `VmidManager.Manager.FindIdle` | Source/gsgpu-1.0.0/gsgpu/gpu/gsgpu_ids.c:214-222 | the first idle id of the LRU |
| `VmidManager.Manager.FindMatch` | Source/gsgpu-1.0.0/gsgpu/gpu/gsgpu_ids.c:343-352 | the last matching id of the LRU |
| `VmidManager.Manager.TakeReserved` | Source/gsgpu-1.0.0/gsgpu/gpu/gsgpu_ids.c:264-314 | is the model's function in place |
| `VmidManager.Manager.TakeUsed` | Source/gsgpu-1.0.0/gsgpu/gpu/gsgpu_ids.c:344-381 | is the model's function in place |
| `VmidManager.Manager.Grab` | Source/gsgpu-1.0.0/gsgpu/gpu/gsgpu_ids.c:399-457 | is the model's function in place and keeps every id placed |
| `VmidManager.Manager.AllocReserved` | Source/gsgpu-1.0.0/gsgpu/gpu/gsgpu_ids.c:459-486 | is the model's function in place |
| `VmidManager.Manager.FreeReserved` | Source/gsgpu-1.0.0/gsgpu/gpu/gsgpu_ids.c:488-500 | is the model's function in place |
| `VmidManager.Manager.ResetAll` | Source/gsgpu-1.0.0/gsgpu/gpu/gsgpu_ids.c:527-535 | clears every owner but that of id 0 and nothing else |
| `BoList.Create` | Source/gsgpu-1.0.0/gsgpu/gpu/gsgpu_bo_list.c:58-136 | on success the plain entries in order and then the user entries last first, with first_userptr between; on failure all references are dropped if and only if no user entry had been stored |
| `BoList.EndsAreAll` | Source/gsgpu-1.0.0/gsgpu/gpu/gsgpu_bo_list.c:85-123 | that array is a bijection with user-pointer entries exactly at and after first_userptr |
| `BoList.GetList` | Source/gsgpu-1.0.0/gsgpu/gpu/gsgpu_bo_list.c:164-195 | the bucket loops put the sorted entries in front of the list |
| `BoList.SortedIsStableSort` | Source/gsgpu-1.0.0/gsgpu/gpu/gsgpu_bo_list.c:164-195 | descending priority, stable within a priority, and a permutation of the parentless entries, for every list |
| `BoList.DropFirst` | Source/gsgpu-1.0.0/gsgpu/gpu/gsgpu_bo_list.c:130-134 | the error path drops the references below the failing index and only those |
| `BoList.UserEntryLeaks` | Source/gsgpu-1.0.0/gsgpu/gpu/gsgpu_bo_list.c:130-134 | a user buffer followed by a bad handle leaves a reference behind |

## Left out

- Display, device bring-up, firmware, PCI, sysfs and debugfs, power management, benchmarks, ioctl argument copying and interrupt handling: I/O without deep invariants.
- `gsgpu_fence_emit_polling` skips the slot wait and so the ring's contract; the fallback timer and reference counts of fences are not modelled; forced completion happens only while the emitter is between fences.
- FenceDriverObject.FenceDriver.Process: one call without interference; the interleaved form is the state machine, and the class shows that its loops are runs of it.
- FenceDriverObject.FenceDriver.Claim: without interference the first exchange succeeds, so the retry is only in the state machine, where a failed exchange returns to the reads.
- The scheduler is modelled on values, one atomic step at a time, rather than as objects: aliasing between entities and jobs is not captured. Recovery, timeouts, the entity kill and flush paths, guilty entities and `num_jobs` are not modelled; a reset detaches only with the scheduler thread parked; the single-producer queue is taken at its contract. Rings are assumed to complete in order.
- SchedMain.CountsExact: says nothing about jobs resubmitted by recovery, whose only caller is compiled out.
- RunQueue.GetFreeSched: takes the job counts as read at one moment; they may change while the loop runs.
- RunQueue.PickedWithinN: is about one run queue; a higher priority queue may still starve a lower one.
- Buffer memory placement, moves and binding are left to an arbitrary outcome; fences of a reservation are an arbitrary idle test; the memory accounting is not modelled. A placement becomes non-evictable only while the buffer is off the lru.
- BufferObject.TtmBo.PutListRef: without the check of cpu_writers, which are not modelled.
- TtmLock.NeverAllAsleep: assumes kill_takers is false; wake-ups are those of the wait queue, without starvation claims.
- Execbuf.Submission.ReserveBuffers: lock outcomes come from a finite list and are favourable after it, so an endless series of deadlock answers is not a run.
- PagePool.Pool.Free, PagePool.Pool.FillLocked: the pool lock is dropped between batches and around the allocation; other users of the pool in that time are not modelled. `ttm_alloc_new_pages` is modelled for order 0; page counts stay below 2^32.
- PooledArray.GetPages: blocks are allocated as if changing their caching cannot fail; on such a failure the source takes the single pages of a block off lists they are not on.
- DmaRuns.MapPages: only when every mapping succeeds; the error path unmaps page by page and does not mirror it. Pages are taken as 4096 bytes.
- CtxFences.CtxRing.AddFence: handles stay below 2^64 minus the window size.
- CtxFences.CtxRing.constructor: one ring's slots; that the array of all rings fits an int product is not modelled.
- MnTree.Notifier.Register: addresses do not wrap, and the interval tree is a list in address order; the hash of notifiers, the wait for each buffer and notifier destruction are not modelled.
- Vmid.NoFlushIff: seqnos are unbounded; the id's sync object is an oracle for which ids are idle. PASIDs and GPU reset counters are not modelled.
- VmidTlb.NeverStale: takes from the job code that when an id is grabbed the job's last page-table update is complete or ahead on the job's own ring, that a VM's updates go on one ring in order, and that an id with a job not yet on its ring is not idle; jobs that are cancelled between grab and run are not modelled, and a ring is at one command at a time.
- VmidTlb.HastyOpens: says what later grabs do after a hasty flush, not that one must come; `VmidTlb.ReliesIfIdle` says when one can.
- BoList.Create: handle lookup is an oracle; sizes and tracing are not modelled.
- `ttm_page_alloc_dma.c` (a second page pool on the DMA API), `ttm_memory.c` (zone counters), `ttm_tt.c` (translation table objects), `gsgpu_gtt_mgr.c` (address ranges by drm_mm), `gsgpu_hw_sema.c` (a table of semaphores), `gsgpu_irq.c` (source registration).
- Memory barriers, RCU and actual page caching changes.
