# Ozz store buffer and QEMU core: a Dafny model

Ozz looks for kernel bugs that come from out-of-order memory accesses.  Its repository carries a software store
buffer that delays the stores of instrumented threads, and a copy of QEMU with its block layer, jobs, image tool,
debugger stub and CPU loop.  This project models the parts of both that are hardest to get right and proves what
they promise.

| file | models |
|---|---|
| `StoreBuffer.dfy`, `StoreBufferThreads.dfy` | the partial-store-order store buffer, for one thread and for any number of threads |
| `ExclusiveSection.dfy`, `ExclusiveProgress.dfy` | the protocol that stops all CPUs for an exclusive section, as a state machine over its memory accesses: what it excludes, and that it always gets on |
| `BlockGraph.dfy` | the block graph: nodes, edges, paths, subtrees, acyclicity |
| `BlockPermissions.dfy`, `BlockRefusal.dfy`, `BlockPermissionUpdate.dfy` | permission updates over the graph: the check that rewrites edges, why it refuses, the abort and the set that follow it |
| `BlockReplace.dfy`, `BlockReplaceNode.dfy` | replacing a node: which parents may move, what the graph, the permissions and the reference counts are afterwards |
| `BlockAioContext.dfy`, `BlockAioMove.dfy` | moving a connected part of the graph, with jobs and backends, to another AioContext |
| `Job.dfy`, `JobGroup.dfy`, `JobTurns.dfy`, `JobTransaction.dfy` | background jobs: status table, pause accounting, and groups of jobs that commit or abort together, as values, over sequences of turns, and as the code runs |
| `Rebase.dfy` | the safe rebase of an overlay onto another backing file |
| `ConvertWrite.dfy`, `ConvertOrder.dfy`, `ConvertRuns.dfy` | the sparse writer and the ordered coroutines of image conversion, and how their runs end |
| `GdbPacket.dfy`, `GdbStream.dfy` | the packet parser and encoder of the GDB stub, on packets and on arbitrary streams |
| `Common.dfy` | shared types and constants |

Code that works on one object in place is a class whose methods are proved against functions on values
(`Buffer`, `Updater`, `BlockNodes`, `Mover`, `JobTxn`, `Image`, `Target`, `Stub`).  Protocols between threads or
coroutines are state machines, and their theorems are about every state of every run (`IsRun`).  What a driver, a
device or a clock may do is a function parameter over which the theorems quantify; a failing request may have
reached any part of its range.

## What turned out to be false of the code

* **Replacing a node does not always keep permissions coherent.**  Nothing revisits the replaced node when it is not
  in the subtree of its replacement, so it can keep permissions on its children that no user calls for.
  `SourceIsLeftBehind` replaces a node in a coherent graph of three nodes and ends up with an incoherent one;
  `ReplacedIsCoherentIff` gives the exact condition, which can be told before the call.
* **A failed permission update can be reported as a success.**  `bdrv_child_try_set_perm` returns 0 without having
  changed anything when the check fails and the request only loosens the permissions the edge has; `Tried`, which
  `TrySetPerm` ensures, says exactly when.  `LooseningIsRefused` is an example: the user of a node whose size is not a
  multiple of its request alignment gives up resizing it, and the node no longer allows the writes.
* **A member of an aborted job group can be committed.**  When a job fails to prepare while another job asks for
  finalization, the job that asks has neither failed nor been cancelled, and `job_completed_txn_abort` spares it.
  `DoFinalize` gives the condition (the first job that fails to prepare is not the one that asks),
  `SparedIsCommitted` the outcome and `FinalizedByAnother` an example.  After any other abort no member is ever
  committed (`AbortThenRun`).
* **Cancelling a job twice can fire an assert.**  `job_cancel` on a member that was never started and is ABORTING
  already, because its group waits for another member, completes it a second time and fires the assert of
  `job_completed`.  `CancelMeetsAsserts` gives the exact condition and `CancelTwice` a run in which it fires.
  The same member does not accept the cancel verb, so that `job_user_cancel` cannot get there.
* **A job that joins a group too late makes the asserts about its siblings fire.**  `JoinInTime`: whatever turns of
  the members follow, also of jobs that join later, the asserts hold for a job that succeeds exactly if the group was
  not aborting and had no PENDING member when it joined.  `JoinThenRun` proves for every event that the asserts hold
  for a job that is in time, and `LateJoinFires` gives the turns that lead to an assert for one that is not: next to a
  PENDING member, during an abort, and after one, where a second newcomer has to fail first.  A group whose members
  have concluded with success can be used again.  A group whose abort is over also loses a newcomer that fails
  (`SpentGroupForgets`).
* **`is_allocated_sectors` does not return true exactly for buffers that start with data**, as its comment says: it
  also returns true for a short run of zeros that ends before the next aligned sector.  `Spare` is the exact
  condition and `ShortZerosAreNotSpared` an example.

## Model

| member | source | states |
|---|---|---|
| `ExclusiveSection.ExclusiveSectionIsExclusive` | tools/qemu/cpus-common.c:173-301 | in every interleaving of any number of threads, while one is inside an exclusive section no CPU executes guest code and no other thread is inside one |
| `ExclusiveSection.PendingCountsWaiters` | tools/qemu/cpus-common.c:182-226 | outside the scan pending_cpus is 0 with no has_waiter set, or 1 plus the number of CPUs with has_waiter; it is 0 exactly when no session is open |
| `ExclusiveSection.ExecEndKeepsPendingPositive` | tools/qemu/cpus-common.c:266-301 | when cpu_exec_end lowers pending_cpus it leaves at least 1 |
| `ExclusiveSection.SleepersHaveAReason` | tools/qemu/cpus-common.c:173-213 | a thread asleep on exclusive_cond or exclusive_resume still has to wait or has been signalled: no wake-up is lost |
| `ExclusiveSection.NeverDeadlocks` | tools/qemu/cpus-common.c:173-301 | in every reachable state in which some thread is inside one of the four functions, some thread can take a step |
| `ExclusiveProgress.EveryCallReturns` | tools/qemu/cpus-common.c:173-301 | from every reachable state, on every schedule of the threads that are inside that is run to its end, without new calls and spurious wake-ups, cpu_exec_start comes to execute guest code, start_exclusive comes to be inside the exclusive section, and cpu_exec_end and end_exclusive come out |
| `ExclusiveProgress.SchedulesAreBounded` | tools/qemu/cpus-common.c:173-301 | no such schedule goes on for ever: with n threads it has at most n(3n + 13) steps |
| `ExclusiveProgress.EveryCallCanReturn` | tools/qemu/cpus-common.c:173-301 | so from every reachable state some steps of the threads that are inside make the function return |
| `ExclusiveProgress.MoveLowers` | tools/qemu/cpus-common.c:173-301 | every single step, from any state, leaves the threads together less to do, also those that wake others up |
| `ExclusiveSection.NextKeepsInv` | tools/qemu/cpus-common.c:173-301 | every step, also the addition of a CPU, keeps the invariant that ties program counters, running flags, has_waiter flags, pending_cpus and the lock |
| `StoreBuffer.Buffer.Flush` | tools/SoftStoreBufferPass/runtime/PSOCallbacks.cpp:62-73 | writes up to n of the oldest pending stores at one address, oldest first, and does not change what the thread sees |
| `StoreBuffer.Buffer.FlushAll` | tools/SoftStoreBufferPass/runtime/PSOCallbacks.cpp:75-89 | empties the buffer and leaves in memory what the thread saw before |
| `StoreBuffer.Buffer.FlushAfterInsn` | tools/SoftStoreBufferPass/runtime/PSOCallbacks.cpp:91-96 | the buffer size is below 16 afterwards, pending stores never exceed it, and the view of the thread is unchanged |
| `StoreBuffer.Buffer.Retrieve` | tools/SoftStoreBufferPass/runtime/PSOCallbacks.cpp:35-51 | a load returns what plain memory would hold |
| `StoreBuffer.Buffer.Store` | tools/SoftStoreBufferPass/runtime/PSOCallbacks.cpp:53-60 | a store changes the plain memory of its thread at one address only |
| `StoreBuffer.RunThread` | tools/SoftStoreBufferPass/runtime/PSOCallbacks.cpp:35-112 | for every sequence of loads, stores and flushes and every input, all loads are those of a plain memory and a final flushAll leaves that memory |
| `StoreBufferThreads.StoresReachMemoryInOrder` | tools/SoftStoreBufferPass/runtime/PSOCallbacks.cpp:53-89 | in every multi-thread run, what memory has seen of a thread's stores to an address followed by what is still held back is exactly what the thread stored there, in program order |
| `StoreBufferThreads.FlushIsABarrier` | tools/SoftStoreBufferPass/runtime/PSOCallbacks.cpp:75-112 | when a store issued after a flush callback has reached memory, every earlier store of the thread has reached it before |
| `StoreBufferThreads.NextKeepsInv` | tools/SoftStoreBufferPass/runtime/PSOCallbacks.cpp:53-112 | every single step of every callback of every thread keeps histories and buffers in agreement |
| `StoreBufferThreads.LoadsSeeOwnStores` | tools/SoftStoreBufferPass/runtime/PSOCallbacks.cpp:35-51 | in every multi-thread run a load yields the thread's own last store to the address, or, once that store has reached memory, what another thread has written there last |
| `BlockPermissions.AbortUndoesCheck` | tools/qemu/block.c:2125-2141 | however many edges a check has rewritten before it failed, the abort pass gives every edge back its permissions and leaves no backup |
| `BlockPermissions.CheckThenSetIsCoherent` | tools/qemu/block.c:2036-2116 | a successful check and set on a root edge leaves every node granted and all its users at peace, also where nodes are reached by several paths; it grants the request and touches nothing outside the subtree |
| `BlockPermissions.CheckUpdate` | tools/qemu/block.c:2234-2283 | a check rewrites only edges of the subtree, remembers their first values, and if it succeeds has granted the whole subtree |
| `BlockPermissions.CheckChildren` | tools/qemu/block.c:2101-2113 | checking the children one after the other grants each of them without taking back what the ones before were granted |
| `BlockRefusal.RefusalHasACause` | tools/qemu/block.c:2036-2315 | a refused request leads, from node to child within the subtree, to a node where a user does not tolerate what is asked for there or which does not allow what its users add up to; edges on the way hold what they held or what their node has passed on |
| `BlockRefusal.GrantedWithoutObstacle` | tools/qemu/block.c:2234-2315 | a granted request is tolerated by all other users of its node, and the node allows what they add up to |
| `BlockRefusal.LeafDecides` | tools/qemu/block.c:2234-2315 | on a node without children a request is granted exactly if all other users tolerate it and the node allows what they add up to |
| `BlockRefusal.NobodyWritesWhereForbidden` | tools/qemu/block.c:2044-2079 | in a coherent graph nobody has write access to a node that is not writable, and none to one of unaligned size unless somebody may resize it |
| `BlockPermissionUpdate.Updater.GetCumulativePerm` | tools/qemu/block.c:2172-2186 | the union of what the users need and the intersection of what they share |
| `BlockPermissionUpdate.Updater.CheckUpdatePerm` | tools/qemu/block.c:2234-2283 | in place: the same verdict and edges as the check function; on failure only edges of the subtree may differ, each with its backup |
| `BlockPermissionUpdate.Updater.CheckPerm` | tools/qemu/block.c:2036-2116 | as above, for a node and all its children |
| `BlockPermissionUpdate.Updater.ChildCheckPerm` | tools/qemu/block.c:2287-2315 | as above, for an edge; the first value is backed up once |
| `BlockPermissionUpdate.Updater.AbortPermUpdate` | tools/qemu/block.c:2125-2141 | restores exactly the edges of the subtree that have a backup |
| `BlockPermissionUpdate.Updater.ChildAbortPermUpdate` | tools/qemu/block.c:2324-2333 | restores an edge and the subtree behind it |
| `BlockPermissionUpdate.Updater.SetPerm` | tools/qemu/block.c:2143-2170 | forgets exactly the backups in the subtree, and tells exactly the drivers of the subtree what the users of their nodes add up to |
| `BlockPermissionUpdate.Updater.ChildSetPerm` | tools/qemu/block.c:2317-2322 | the same for an edge and the subtree behind it |
| `BlockPermissionUpdate.Updater.TrySetPerm` | tools/qemu/block.c:2351-2379 | success keeps a coherent graph coherent; failure changes nothing, and is reported unless the request only loosens what the edge has; if every driver knew what its users add up to, it still does |
| `BlockPermissionUpdate.LooseningIsRefused` | tools/qemu/block.c:2065-2079 | the check refuses a request that only loosens, on one node and edge |
| `BlockPermissionUpdate.OddSizedIsCoherent` | tools/qemu/block.c:2065-2079 | the permissions of that node and edge are coherent before the request |
| `BlockReplace.ShouldUpdateChild` | tools/qemu/block.c:4509-4585 | true exactly if the edge may leave its node and belongs to no node reachable from the new one |
| `BlockReplace.MovedIsAcyclic` | tools/qemu/block.c:4595-4664 | moving any set of edges that are not in the subtree of their new node keeps the graph acyclic |
| `BlockReplace.MoveIsWellFormed` | tools/qemu/block.c:2563-2630 | unhooking an edge from one parent list and hooking it to another keeps lists and pointers in agreement |
| `BlockReplace.ReplaceKeepsCoherence` | tools/qemu/block.c:4595-4664 | after a checked replacement all users of every node tolerate one another and every node but the replaced one is granted |
| `BlockReplaceNode.WhoFails` | tools/qemu/block.c:4612-4633 | no parent makes the replacement fail exactly if nobody who would move is frozen and, without auto_skip, all parents move; a frozen parent means -EPERM, one that must stay -EINVAL |
| `BlockReplaceNode.CollectParents` | tools/qemu/block.c:4612-4633 | the movable parents in order with their joint permissions, or the error of the first parent that must not move |
| `BlockReplaceNode.BlockNodes.MoveAll` | tools/qemu/block.c:4643-4652 | exactly the listed edges move, each with one reference, and the old node keeps a reference throughout |
| `BlockReplaceNode.BlockNodes.CheckAndMove` | tools/qemu/block.c:4635-4654 | all or nothing: the moves happen exactly if the new node accepts the joint permissions; then the drivers in its subtree are told theirs |
| `BlockReplaceNode.BlockNodes.ReplaceNodeCommon` | tools/qemu/block.c:4595-4664 | a failure changes nothing and has a stated cause; a success moves exactly the movable parents with their references and puts the checked permissions in force; for every node the reference count minus the number of parent edges stays the same |
| `BlockReplaceNode.ReplacedState` | tools/qemu/block.c:4595-4664 | after a success the graph is acyclic and has no backups |
| `BlockReplaceNode.ReplacedIsCoherentIff` | tools/qemu/block.c:4595-4664 | after a success in a coherent graph all nodes but the replaced one are coherent, and that one is exactly if it is below the new node or already holds what it is left with |
| `BlockReplaceNode.SourceIsLeftBehind` | tools/qemu/block.c:4595-4664 | an example: the graph is coherent, the replacement leads from it to another, and in that one the old node holds write access without a user |
| `BlockReplaceNode.ExampleIsAccepted` | tools/qemu/block.c:4635-4641 | the check of the example passes and changes no edge |
| `BlockAioContext.CanSet` | tools/qemu/block.c:6619-6642 | whatever contexts the nodes are in: asking succeeds only after looking at every edge of everything it reached, turning round at nodes that are in the new context, and fails only if somebody in the component refuses |
| `BlockAioContext.ParentCanSet` | tools/qemu/block.c:6584-6607 | the same for a parent, through the callbacks of nodes, jobs and backends |
| `BlockAioContext.JobCanSet` | tools/qemu/blockjob.c:133-146 | the same for all nodes of a job |
| `BlockAioContext.ChildCanSet` | tools/qemu/block.c:6609-6617 | the same for a child |
| `BlockAioContext.AskedEverybody` | tools/qemu/block.c:6584-6642 | if the walk finds nobody who refuses, nobody in the whole component refuses |
| `BlockAioMove.Mover.SetIgnore` | tools/qemu/block.c:6505-6582 | one visit moves its node and everything its newly ignored edges lead to, and touches nothing outside the component; it ends because the ignore list grows |
| `BlockAioMove.Mover.SetJob` | tools/qemu/blockjob.c:148-164 | all nodes of a job are visited and the job itself moves |
| `BlockAioMove.Mover.SetParent` | tools/qemu/block.c:6546-6553 | the user behind a parent edge has moved |
| `BlockAioMove.Mover.TrySet` | tools/qemu/block.c:6644-6663 | whatever contexts the nodes are in: 0 exactly if nobody refuses or there is nothing to do; otherwise -EPERM with nothing changed; on success exactly the component, up to the nodes that are there already, with its jobs and backends is in the new context |
| `BlockAioMove.Mover.SetBackend` | tools/qemu/block/block-backend.c:2030-2061 | the backend and its node, if it has one, are in the new context with the component of the node; it fails only if somebody there refuses, and then changes nothing; every backend stays in the context of its node |
| `BlockAioMove.SwitchedAgrees` | tools/qemu/block/block-backend.c:2063-2088 | a switch keeps every backend in the context of its node, which blk_get_aio_context asserts |
| `Job.CountResume` | tools/qemu/job.c:561-571 | pause_count stays the number of those who want a pause, so that the asserts of resume, cancel and status reset hold |
| `Job.UserPause` | tools/qemu/job.c:573-584 | accepted exactly in the states of the verb table for a job the user has not paused |
| `Job.UserResume` | tools/qemu/job.c:591-606 | accepted exactly for a job the user has paused; the I/O status is good again, and the job is running again if it was started, nobody else wants a pause and no timer is pending |
| `Job.OnIoError` | tools/qemu/blockjob.c:491-529 | an error stops the job exactly if the policy is stop, or auto or enospc and the device is full; then it is paused by the user with a bad I/O status; any other error changes nothing |
| `Job.DrainedEnd` | tools/qemu/blockjob.c:127-131 | ending a drained section never meets a pause count of zero, and sets a started job running again that nobody else wants to pause and no timer will enter |
| `Job.Start` | tools/qemu/job.c:920-930 | a created job becomes running, and its first pause is taken back |
| `Job.PausePoint` | tools/qemu/job.c:484-505 | the job stops, as STANDBY if it was READY, exactly if somebody wants it to and it is not cancelled |
| `Job.AfterPause` | tools/qemu/job.c:505-513 | the job goes on in the state it was stopped in |
| `JobGroup.CancelAsync` | tools/qemu/job.c:716-733 | the job is cancelled and no longer paused by the user; nothing else changes |
| `JobGroup.UpdateRc` | tools/qemu/job.c:648-659 | a failed or cancelled job is ABORTING, with the error it had or else -ECANCELED; any other is unchanged |
| `JobGroup.FinalizeSingle` | tools/qemu/job.c:684-714 | commit and clean exactly for a job that has neither failed nor been cancelled, otherwise abort and clean, once; the error of a failed job stays, a cancelled one has -ECANCELED, and a started job is gone at once exactly if it dismisses itself |
| `JobTransaction.JobTxn.TxnAbort` | tools/qemu/job.c:735-782 | the group is aborting and its other members are cancelled; members have left it from the head of the list on, up to the first that has not completed, for which it waits |
| `JobTransaction.JobTxn.AbortLoop` | tools/qemu/job.c:767-777 | finalizes members from the head of the list on until the list is empty or its first member has not completed |
| `JobTransaction.JobTxn.PrepareAll` | tools/qemu/job.c:784-803 | stops at the first member that fails to prepare |
| `JobTransaction.JobTxn.DoFinalize` | tools/qemu/job.c:798-810 | the group ends; it is aborted exactly if some member fails to prepare, and then spares the caller exactly if another member is the first to fail |
| `JobTransaction.JobTxn.TxnSuccess` | tools/qemu/job.c:836-860 | the job waits while another is not completed; otherwise the group is finalized, or PENDING if a member wants to be asked |
| `JobTransaction.JobTxn.Complete` | tools/qemu/job.c:862-873 | a failed or cancelled job aborts its group, and members leave it from the head of the list on, up to the first that has not completed; a job that succeeds waits, with nothing else changed, or ends the group |
| `JobTransaction.JobTxn.Exit` | tools/qemu/job.c:876-902 | the job is no longer busy, and then the same as job_completed |
| `JobTransaction.JobTxn.Cancel` | tools/qemu/job.c:932-946 | by state: dismissed, the group aborted as far as it goes without a wait, or the running job told; and whether the assert on its way fires |
| `JobGroup.CancelMeetsAsserts` | tools/qemu/job.c:862-873 | the assert holds unless the job was never started and is ABORTING already |
| `JobTransaction.CancelTwice` | tools/qemu/job.c:862-946 | a run from the creation of two jobs to a second cancel that fires the assert |
| `JobTransaction.JobTxn.Finalize` | tools/qemu/job.c:812-819 | the group ends, aborted exactly if some member fails to prepare |
| `JobTransaction.JobTxn.Dismiss` | tools/qemu/job.c:608-632 | a concluded job becomes NULL |
| `JobTransaction.JobTxn.Create` | tools/qemu/job.c:305-365 | the job is CREATED at the head of the list in whatever state the group is; the invariant holds if the group was not aborting and had no PENDING job |
| `JobTransaction.JobTxn.Run` | tools/qemu/job.c:38-51 | for every sequence of events, up to one that comes too late, no status or pause assert fires, completed jobs stay completed, what a driver was told is final, an abort stays an abort with the same spared job, and the group invariant holds |
| `JobTransaction.JobTxn.AbortThenRun` | tools/qemu/job.c:684-782 | once a failed or cancelled job has entered the abort of its group, after every sequence of events each member that has left was told abort then clean, once, and the others nothing |
| `JobTransaction.JobTxn.FinalizeThenRun` | tools/qemu/job.c:684-810 | once all members have prepared with success, after every sequence of events each was told commit then clean, once |
| `JobTransaction.JobTxn.JoinThenRun` | tools/qemu/job.c:836-860 | a job that joins in time meets the asserts at its end, after every sequence of events; by the time another could join too late it has come to its end or been cancelled |
| `JobTransaction.JobTxn.Play` | tools/qemu/job.c:767-782 | the methods do what the turns of the members and of the abort say |
| `JobGroup.MembersEndAlike` | tools/qemu/job.c:684-714 | in every state that satisfies the invariant, jobs that have left a group were all told commit then clean, or all abort then clean, each once, but for a spared one |
| `JobGroup.SparedIsCommitted` | tools/qemu/job.c:735-810 | the spared job of an aborted group was committed, all others aborted |
| `JobTransaction.FinalizedByAnother` | tools/qemu/job.c:784-810 | a run from the creation of two jobs to a spared job: one is told commit, the other abort |
| `JobTurns.JoinInTime` | tools/qemu/job.c:836-852 | the asserts hold for a newcomer that succeeds, whatever turns of members and of later newcomers come before, exactly if the group was not aborting and had no PENDING member when it joined |
| `JobTurns.LateJoinFires` | tools/qemu/job.c:735-852 | otherwise some turns lead to its success with an assert that fires: next to a PENDING member, during an abort, or after one |
| `JobTurns.AbortCanFinish` | tools/qemu/job.c:767-777 | from every state of a group that is being aborted some turns empty the list, and each member is told abort then clean; if every member was started, jobs only need to be entered and to return |
| `JobTurns.SpentGroupForgets` | tools/qemu/job.c:735-752 | a job that joins a group whose abort is over and then fails stays in its list, ABORTING, through any further turns, and its driver is not told |
| `Rebase.CompareBuffers` | tools/qemu/qemu-img.c:1241-1261 | the longest prefix whose sectors all differ or all agree |
| `Rebase.WriteKeepsContent` | tools/qemu/qemu-img.c:3600-3608 | writing what is visible anyway changes nothing that can be seen, however far the write gets |
| `Rebase.WriteKeepsPassed` | tools/qemu/qemu-img.c:3722-3745 | nor what the overlay shows through the new backing file on the offsets already passed |
| `Rebase.Image.CopyDifferences` | tools/qemu/qemu-img.c:3722-3745 | afterwards the range shows its content through the new backing file, and through the old one all the time; only what differs from the new backing file is written, and it fails exactly if a request does |
| `Rebase.Image.RebaseRange` | tools/qemu/qemu-img.c:3654-3747 | the same for one round of the loop, for allocated ranges and for backing files that are shorter, longer or missing; it fails exactly if one of its requests does |
| `Rebase.Image.Run` | tools/qemu/qemu-img.c:3600-3761 | whether it succeeds or fails, the image shows what it showed before through the link it then has; and so did every state in between through the old link, each reached from the one before by one write of data that differ from the new backing file; it succeeds exactly if none of its requests fails |
| `ConvertWrite.IsAllocatedSectors` | tools/qemu/qemu-img.c:1152-1188 | exactly when a run of zeros is spared; it is all zero and leaves out less than a block of the zeros; a request ends aligned or at the end of the buffer, less than a block after its data |
| `ConvertWrite.ShortZerosAreNotSpared` | tools/qemu/qemu-img.c:1152-1188 | one zero sector before data at the start of an aligned block counts as data |
| `ConvertWrite.IsAllocatedSectorsMin` | tools/qemu/qemu-img.c:1195-1232 | the same, and a request ends only where zeros follow to the end or for at least the sparse threshold, and has no more zeros in a row than the threshold and two blocks |
| `ConvertWrite.AndMask` | tools/qemu/qemu-img.c:1170 | masking with a power of two minus one is the remainder |
| `ConvertWrite.Target.WriteNext` | tools/qemu/qemu-img.c:1834-1884 | one round handles at least one sector and leaves it as meant, with one request or, where the target is known to be as meant, none; it fails exactly if the request does |
| `ConvertWrite.Target.Write` | tools/qemu/qemu-img.c:1828-1890 | the range ends up as the buffer (or zero, or untouched, by status) and nothing else changes, for every threshold and alignment, whether zeros are skipped or written; it fails exactly if one of its requests does |
| `ConvertOrder.WritesInOrder` | tools/qemu/qemu-img.c:1989-2013 | without an error, when a chunk is being written exactly the sectors below it have been written, and nobody else writes |
| `ConvertOrder.ChunksPartition` | tools/qemu/qemu-img.c:1962-1983 | every claimed sector is below wr_offs or in exactly one unfinished chunk |
| `ConvertOrder.WrOffsRises` | tools/qemu/qemu-img.c:2015-2018 | wr_offs never falls without an error |
| `ConvertOrder.EntersOnlyWaiters` | tools/qemu/qemu-img.c:2019-2029 | a coroutine that is entered has yielded in the wait loop for that very sector |
| `ConvertOrder.NobodyWaitsAtTheEnd` | tools/qemu/qemu-img.c:1991-2031 | once the last chunk is written no coroutine has a chunk, let alone waits |
| `ConvertOrder.SuccessMeansWritten` | tools/qemu/qemu-img.c:2034-2040 | success is reported only when every sector has been written |
| `ConvertOrder.NeverStuck` | tools/qemu/qemu-img.c:1941-2040 | with or without errors, as long as a coroutine has not left, some coroutine can go on by something else than a failure |
| `ConvertRuns.FailsIfARequestFails` | tools/qemu/qemu-img.c:1976-2013 | at every moment of every run, an error is set exactly if a request has failed |
| `ConvertRuns.SucceedsIfNoRequestFails` | tools/qemu/qemu-img.c:2034-2040 | when all coroutines have left, success is reported exactly if no request has failed, and then every sector has been written |
| `ConvertRuns.RunsAreBounded` | tools/qemu/qemu-img.c:1941-2040 | no run goes on for ever: it takes at most five steps for a sector and three for a coroutine |
| `ConvertRuns.RunsEndWithExits` | tools/qemu/qemu-img.c:1941-2040 | a run that cannot be continued is one in which all coroutines have left |
| `ConvertOrder.StepInv` | tools/qemu/qemu-img.c:1941-2040 | every step of every coroutine keeps the invariant |
| `GdbPacket.Stub.ReadByte` | tools/qemu/gdbstub.c:2932-3077 | in place on the 4096-byte buffer: every write is inside, the state is that of the parser function, and a line that is handed over ends with a zero |
| `GdbPacket.Stub.AppendRepeated` | tools/qemu/gdbstub.c:3031-3036 | a run-length sequence appends copies of the last character |
| `GdbPacket.DispatchNeedsChecksum` | tools/qemu/gdbstub.c:3040-3071 | for every byte stream, a line is handed over only after two hexadecimal digits that are the checksum of what was counted |
| `GdbStream.DispatchEndsFrame` | tools/qemu/gdbstub.c:2963-3076 | for every byte stream, a line is handed over only at the end of a frame; it is the meaning of the pieces of the frame, broken ones included, and the two digits are the sum of exactly the bytes that count |
| `GdbStream.SentAgain` | tools/qemu/gdbstub.c:2937-2955 | until a packet is acknowledged or a new one begins, it is sent again for every minus that arrives, and nothing else happens |
| `GdbStream.Acknowledged` | tools/qemu/gdbstub.c:2937-2955 | a plus ends the wait, after as many copies as there were refusals |
| `GdbStream.Abandoned` | tools/qemu/gdbstub.c:2937-2969 | a dollar sign abandons the packet; it begins a new one if the machine is stopped, and stops it otherwise |
| `GdbStream.StopsTheMachine` | tools/qemu/gdbstub.c:2956-2960 | a byte that arrives while the machine runs stops it and is lost |
| `GdbStream.GarbageIsIgnored` | tools/qemu/gdbstub.c:2963-2975 | between packets everything but a dollar sign is ignored |
| `GdbPacket.RejectsWrongChecksum` | tools/qemu/gdbstub.c:3040-3071 | for well-formed bodies that fit, a packet with any two hexadecimal digits that are not the sum of its bytes is refused with one minus, and nothing is handed over |
| `GdbPacket.EveryPrefix` | tools/qemu/gdbstub.c:2963-3076 | wherever a stream is cut, the line fits the buffer |
| `GdbPacket.ParsesFrame` | tools/qemu/gdbstub.c:2963-3076 | for well-formed bodies with escapes and run lengths that fit, the parser hands over the recursive meaning of the body and acknowledges once |
| `GdbPacket.MemToX` | tools/qemu/gdbstub.c:694-710 | the encoding of binary data |
| `GdbPacket.PutPacketBinary` | tools/qemu/gdbstub.c:640-677 | the frame with the checksum of its bytes, although the source adds signed characters |
| `GdbPacket.RoundTrip` | tools/qemu/gdbstub.c:640-710 | every payload of at most 4095 bytes comes through its encoding, frame and parser unchanged, with one acknowledgement |

## Left out

- BlockPermissions.CheckUpdate: the reopen queue is absent, and a driver's check callback is a predicate of node and permissions; what check and abort callbacks do to the driver is not modelled.
- BlockPermissionUpdate.Updater.SetPerm: what a driver does with the permissions it is told is not modelled; a driver without a set callback counts as told.
- BlockReplace.MoveIsWellFormed: the drained sections that bdrv_replace_child_noperm adds and takes away, and the attach and detach callbacks of the edge, are not modelled.
- BlockReplaceNode.BlockNodes.ReplaceNodeCommon: drained sections and the AioContext asserts are not modelled, a failed check returns -EPERM whatever error the driver gave, and a node whose last reference goes away is reported, not deleted.
- BlockAioMove.Mover.TrySet: lock acquire and release, drained sections and context notifiers are not modelled; no node is its own child.
- JobTransaction.JobTxn.Run: a group is modelled on its own, since groups share no job; jobs are values in a table of their group; events, timers, force_cancel and reference counts of jobs are absent.
- JobTransaction.JobTxn.TxnAbort: the wait for a member is a state in which other events go on; a member that was never started makes it wait forever, as in the source.
- JobTransaction.JobTxn.Create: job_early_fail, which takes a new job out again, is not modelled.
- JobTransaction.JobTxn.Cancel: nothing is said about the state after an assert has fired.
- JobTurns.JoinInTime: turns are what members do, failures during an abort, creations and the abort going on; the other events are in `JoinThenRun`.
- Rebase.Image.Run: rebasing onto an image of the same chain, the unsafe mode and progress output are not modelled.
- ConvertWrite.Target.Write: compression is not modelled.
- ConvertOrder.StepInv: copy offload, salvage mode and unordered writes are not modelled; entering a coroutine is one step together with the tail of the chunk before it.
- GdbPacket.Stub.ReadByte: line_sum is unbounded where the source has an int of which only the low byte is used; command handlers are functions of the line, and packets the stub sends on its own are absent.
- ExclusiveSection.NextKeepsInv: memory is sequentially consistent at the granularity of single accesses, which the source's barriers are there to ensure; CPUs are added, never removed.
- ExclusiveProgress.EveryCallReturns: a CPU that executes guest code is taken to leave it, which the kick in start_exclusive is for; how long a thread waits when others keep calling in is not bounded.
- StoreBuffer.Buffer.Store: access sizes other than 64 bits and the debug output are absent.
- Default permission policies (bdrv_default_perms and its variants), image creation, options and filenames: tables, dictionaries and string handling, each decided by a single case distinction.
- Drivers, device I/O, command plumbing, CPU lists, work queues, breakpoints and scripts: outside the modelled core.
