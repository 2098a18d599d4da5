# Verified models of the emulator's core protocols

This Dafny project models the parts of the emulator in which many things happen at
once, or in which a long chain of changes must not lose anything, and proves what
those parts are for:

- **Exclusive sections** (`cpu-common.c`): how CPUs stop each other. A step system
  over any number of CPUs, with the lock, the two condition variables and the
  lock-free flags.
- **The block graph** (`block.c`): edges between nodes, changes in a transaction and
  their rollback, permission refresh in topological order, replacing and appending
  nodes, changing backing files, frozen backing chains, and moving connected nodes to
  another AioContext.
- **Images** (`qemu-img.c`): finding sparse parts, the converter with any number of
  coroutines, comparing two images, and safe rebasing.
- **Jobs** (`job.c`, `blockjob.c`): the life of one job, its pause counter, and
  groups of jobs that succeed or fail together.

`dafny verify dfyconfig.toml` checks the whole project.

## Layout

| file | content |
|---|---|
| `Wrappers.dfy`, `IntMath.dfy`, `Sequences.dfy`, `Reachability.dfy` | shared definitions: options, division and sums, sequences, paths in a graph |
| `ExclusiveSection.dfy` | exclusive sections |
| `BlockGraph.dfy`, `GraphTransaction.dfy` | nodes, edges, links; changes, commit and rollback |
| `TopologicalOrder.dfy`, `Permissions.dfy`, `PermissionRefresh.dfy` | topological listing; permission functions and their laws; the loops in place |
| `NodeReplacement.dfy`, `BackingChange.dfy` | redirecting parents; attaching, changing the backing file, appending and replacing as whole operations |
| `FrozenChain.dfy`, `AioContexts.dfy` | freezing; AioContext changes |
| `SparseScan.dfy`, `ConvertSource.dfy`, `Convert.dfy`, `ConvertContent.dfy`, `ConvertOrder.dfy`, `ConvertRequests.dfy` | the converter: its steps, what the target reads as, order and portions, requests and errors |
| `Buffers.dfy`, `Compare.dfy`, `Rebase.dfy` | scanning buffers, comparing, rebasing |
| `JobLife.dfy`, `JobGroup.dfy`, `JobOutcome.dfy`, `JobAbort.dfy`, `JobHistory.dfy`, `JobManager.dfy` | one job; groups; what every run guarantees; the abort loop; what a job keeps; the loops in place |

Concurrent code is a step system: a state, an `Enabled` predicate, a `Next` function,
and runs as sequences of steps. Loops and updates in place are methods, proved against
functions on the state. A source assertion is a precondition of the function or method
that models it, so an operation is defined only where its assertions hold; the
invariants show that this is always the case.

## What was found

Four statements that one might expect turned out false of the code. For each there is a
concrete input and the exact condition under which it holds.

- `is_allocated_sectors` is documented to return true if and only if the first sector
  is non-zero. It also returns true for a zero run that ends inside the aligned block
  it starts in (`ZeroFirstSectorReportedAllocated`, `AllocatedIffFirstSectorUsed`).
- Dropping a parent only loosens permissions, but the refresh after it can still fail:
  once nobody may resize an image of unaligned size, writing it is refused
  (`RemovalMayBeRejected`, `RemovalOnlyLoosens`).
- A chain frozen with no base can grow at its end, and then unfreezing it meets a link
  that is not frozen (`OpenChainMayGrow`, `OpenChainSurvivesIff`).
- Job groups are all or nothing with one exception: when a prepare callback fails, the
  job being finalized is not cancelled like the others. The outcome is mixed exactly if
  the first callback that fails belongs to another job; then the finalized job commits
  and all others abort (`FinalizeMayMixOutcomes`, `MixedOutcomeIff`).

A fifth one concerns termination. The abort loop of a group waits only for members whose
forced cancel has been requested (`LoopWaitsForCancelled`), but it can end without
outside help exactly if every member has been started (`AbortLoopEndsIff`): a member
that nobody starts or cancels never completes (`UnstartedMemberBlocksLoop`).

## Model

| member | source | states |
|---|---|---|
| `ExclusiveSection.Do` | xemu/cpu-common.c:183-325 | one atomic step of any CPU in any of the four calls; it neither adds nor removes CPUs |
| `ExclusiveSection.StepKeepsInvFor` | xemu/cpu-common.c:183-325 | every step keeps the protocol invariant: who owns the section, which flags are set where, what pending_cpus counts |
| `ExclusiveSection.RunKeepsInv` | xemu/cpu-common.c:183-325 | the invariant holds in every state of every run of any number of CPUs |
| `ExclusiveSection.ExclusiveSectionIsExclusive` | xemu/cpu-common.c:192-325 | in every run, while one CPU is between the return of start_exclusive and its outermost end_exclusive, no CPU is between cpu_exec_start and cpu_exec_end, and no other CPU is in an exclusive section |
| `ExclusiveSection.SectionLastsToOutermostEnd` | xemu/cpu-common.c:192-247 | in every logged run, from the return of the first start_exclusive until the calls of end_exclusive in the log match those of start_exclusive, the CPU stays in the section, exclusive_context_count is the number of calls still open, and nobody else executes or is exclusive |
| `ExclusiveSection.NestedSection` | xemu/cpu-common.c:200-241 | a nested start_exclusive only counts, and its end_exclusive restores the state |
| `ExclusiveSection.PendingCpusCountsWaiters` | xemu/cpu-common.c:183-323 | whenever the lock is free, pending_cpus is 0 and nobody has has_waiter set, or it is 1 plus the number of CPUs that have; a sleeper on exclusive_cond implies it is above 1, a sleeper on exclusive_resume implies it is not 0 |
| `ExclusiveSection.StartExclusiveFindsCallerStopped` | xemu/cpu-common.c:192-204 | the assertion that the caller of start_exclusive is not running never fails, for nested calls too |
| `ExclusiveSection.SignalMeansAllStopped` | xemu/cpu-common.c:314-321 | in every run, exclusive_cond is signalled only when no CPU executes or is counted any more |
| `ExclusiveSection.WokenTestsAgain` | xemu/cpu-common.c:183-225 | a condition wait that returns, signalled or not, goes on to test its condition under the lock |
| `ExclusiveSection.FastPath` | xemu/cpu-common.c:250-325 | while no section is wanted, cpu_exec_start and cpu_exec_end take no lock, and together restore the state |
| `ExclusiveSection.NoDeadlock` | xemu/cpu-common.c:183-325 | as long as a CPU is in or between the calls, some CPU can go on |
| `ExclusiveSection.ProgressLowersRank` | xemu/cpu-common.c:183-325 | every step that is neither a new call nor a spurious wakeup lowers a lexicographic rank |
| `ExclusiveSection.ProgressEnds` | xemu/cpu-common.c:183-325 | no behaviour, however it interleaves, makes such steps forever |
| `SparseScan.IsAllocatedSectors` | xemu/qemu-img.c:1159-1210 | the loop computes Allocated of the first n sectors; nothing to write for n at most 0 |
| `SparseScan.AllocatedMeaning` | xemu/qemu-img.c:1149-1210 | a part that is left out is all zero, a part to write is not, and every part ends at the end of the buffer or at an aligned sector of the target |
| `SparseScan.AllocatedIffFirstSectorUsed` | xemu/qemu-img.c:1149-1210 | the answer is "first sector non-zero", as documented, if and only if no zero run ends inside the aligned block it starts in |
| `SparseScan.ZeroFirstSectorReportedAllocated` | xemu/qemu-img.c:1149-1210 | two sectors, the first one zero, that are reported as data |
| `SparseScan.FindUsedPrefix` | xemu/qemu-img.c:1232-1251 | the loop computes UsedPrefix: how far to write before a long enough run to leave out |
| `SparseScan.IsAllocatedSectorsMin` | xemu/qemu-img.c:1217-1254 | the method computes AllocatedMin |
| `SparseScan.AllocatedMinMeaning` | xemu/qemu-img.c:1212-1254 | left-out parts are zero and parts to write are not, both end aligned; a part to write ends only where min zero sectors follow or only zeroes are left, and none of the zero parts that the search meets in it has min sectors |
| `SparseScan.StopsAtFirstGap` | xemu/qemu-img.c:1237-1251 | every part that the search has looked at before the end it returns is used or shorter than min |
| `ConvertSource.SelectPart` | xemu/qemu-img.c:1700-1710 | the selected image contains the sector, counted from the image's offset |
| `ConvertSource.PartHoldsSector` | xemu/qemu-img.c:1700-1710 | at that offset the concatenation of the sources holds exactly that image |
| `ConvertSource.ConvertSelectPart` | xemu/qemu-img.c:1700-1710 | the loop over the images finds that image and offset |
| `ConvertSource.ReadRequest` | xemu/qemu-img.c:1829-1866 | one request returns a piece of the concatenated sources, fails, or in salvage mode retries sector by sector and fills unreadable sectors with zeroes |
| `ConvertSource.ConvertCoRead` | xemu/qemu-img.c:1819-1870 | reading across images returns the concatenated sources where readable, and with salvage zeroes elsewhere; without salvage it fails exactly on unreadable sectors |
| `Convert.RequestLimit` | xemu/qemu-img.c:1713-1747 | the request size is positive, stays within the sources, and does not cross the end of the target's backing file |
| `Convert.CodeMayHandle` | xemu/qemu-img.c:1873-1935 | the part that a round of convert_co_write picks is one that the step system allows: only data that is searched for zeroes is split, at aligned sectors, and zeroes are written as such exactly if the search is on |
| `ConvertContent.PartDataIsSource` | xemu/qemu-img.c:1873-1935 | what a round writes is source data, and what it skips already reads as the source |
| `ConvertContent.StepKeepsInv` | xemu/qemu-img.c:1873-2089 | every event of every coroutine, failures included, keeps the content invariant |
| `ConvertContent.RunKeepsInv` | xemu/qemu-img.c:1873-2152 | the content invariant holds in every state of every run |
| `ConvertContent.SuccessCopiesSources` | xemu/qemu-img.c:1700-2152 | for any sources, number of coroutines, interleaving and mode, a conversion that ends with success has made the target read as the concatenated sources, and changed nothing behind them |
| `ConvertContent.SectorsAreOldOrCopied` | xemu/qemu-img.c:1873-2089 | at every moment, also after errors and torn writes, each sector reads as before or as the source |
| `ConvertContent.RangesSuitTheirUse` | xemu/qemu-img.c:1825-1889 | the assertions on the buffer size and on the presence of a backing file hold in every run |
| `ConvertOrder.RangesTile` | xemu/qemu-img.c:1990-2021 | the ranges handed out tile the sources from sector 0 without gap or overlap, up to the total on success |
| `ConvertOrder.CompressedRangesAreWhole` | xemu/qemu-img.c:1804-1814 | in every compressed conversion every range handed out begins at a cluster, and is whole clusters long or ends with the source |
| `ConvertOrder.CompressedWritesAreWhole` | xemu/qemu-img.c:1893-1912 | and it is written at once, so no cluster is written in parts |
| `ConvertRequests.RequestIsMaximal` | xemu/qemu-img.c:1721-1733 | a status query reaches as far as the request limit, the source and the split at the backing file's end allow |
| `ConvertRequests.CacheEndsAligned` | xemu/qemu-img.c:1774-1797 | what is remembered of a status answer reaches at least to every aligned sector of the source that the answer covers, and ends at one |
| `ConvertRequests.ShortAnswerIsKept` | xemu/qemu-img.c:1774-1797 | an answer that covers no aligned sector is remembered as it is |
| `ConvertRequests.StatusIsExact` | xemu/qemu-img.c:1721-1795 | data is read only where the source has it or nothing else provides it; the backing file shows through exactly where the source has nothing, or is zero behind the backing file's end |
| `ConvertRequests.RangeIsMaximal` | xemu/qemu-img.c:1799-2014 | without compression a range has the answered status, and ends only where the answer, the request or the buffer does |
| `ConvertRequests.CompressedStatus` | xemu/qemu-img.c:1804-1814 | with compression the status is as answered unless less than a cluster is left of the answer |
| `ConvertRequests.CacheHoldsLastStatus` | xemu/qemu-img.c:1788-2023 | in every run the shared status is that of the range handed out last |
| `ConvertRequests.CopiesOnlyWhileData` | xemu/qemu-img.c:2022-2034 | a range is copied without a buffer exactly while copying works and the range handed out last is data |
| `ConvertRequests.CopiedPieceIsMaximal` | xemu/qemu-img.c:1937-1966 | a copy request ends with the range or with the source image |
| `ConvertRequests.ZeroesAreWrittenIff` | xemu/qemu-img.c:1914-1926 | zeroes are written only to targets that may hold something else, and data is left out only for those that do not or show their backing file |
| `ConvertRequests.RequestsMayFail` | xemu/qemu-img.c:1998-2031 | a status query or a read may fail with any error exactly where one is made |
| `ConvertRequests.WritesMayFail` | xemu/qemu-img.c:2046-2062 | so may every write and every copy request, having written nothing |
| `ConvertRequests.LastErrorIsReturned` | xemu/qemu-img.c:1998-2087 | in every logged run the conversion fails exactly if a status query, a read or a write has failed, with the error of the last one; a failed copy request is not an error |
| `ConvertOrder.AdvanceWakesWaiter` | xemu/qemu-img.c:2063-2085 | advancing wr_offs wakes the coroutine that waits for the new offset, and leaves all others as they are |
| `ConvertOrder.OrderedPrefixIsCopied` | xemu/qemu-img.c:2035-2085 | in an ordered conversion without an error, everything below wr_offs is copied, and at most one coroutine, the owner of the range at wr_offs, may write |
| `ConvertOrder.OrderedWritesAscend` | xemu/qemu-img.c:2035-2085 | no step writes below wr_offs, and wr_offs never moves back |
| `ConvertOrder.NoCoroutineStranded` | xemu/qemu-img.c:1968-2089 | as long as a coroutine has not finished some coroutine can run, whatever errors have occurred |
| `ConvertOrder.ConversionEnds` | xemu/qemu-img.c:1968-2152 | every run ends within a number of steps linear in the sectors and coroutines |
| `ConvertOrder.FinalStateHasVerdict` | xemu/qemu-img.c:2091-2152 | a run that cannot go on has failed, or has succeeded with a faithful copy |
| `Buffers.FindNonzero` | xemu/qemu-img.c:1127-1147 | -1 exactly for a zero buffer; otherwise the first sector boundary whose sector is not zero, also for an unaligned length |
| `Buffers.CompareBuffers` | xemu/qemu-img.c:1256-1289 | the prefix matches, or differs in every chunk, like the first chunk does; it ends at a chunk boundary where that changes, or at the end |
| `Compare.CheckEmptySectors` | xemu/qemu-img.c:1308-1329 | identical exactly for zero data, different for other data, failure exactly if some byte of the range is unreadable |
| `Compare.CompareContent` | xemu/qemu-img.c:1530-1584 | one round compares as many bytes as both status answers cover, reads only what is allocated and not known to be zero in both, fails exactly if such a byte is unreadable, and otherwise reports whether they are equal |
| `Compare.ChunkIsMaximal` | xemu/qemu-img.c:1530-1556 | a round covers what both answers cover, cut to the buffer exactly if it reads |
| `Compare.CompareCommon` | xemu/qemu-img.c:1507-1587 | the loop over the common part stops at the first failed query, difference of status in strict mode, failed read or difference of content |
| `Compare.CommonMeaning` | xemu/qemu-img.c:1507-1587 | what its verdict says about contents and status, and where a failure comes from |
| `Compare.CheckRest` | xemu/qemu-img.c:1589-1624 | the loop over the longer image stops at the first failed query, failed read or non-zero part |
| `Compare.RestMeaning` | xemu/qemu-img.c:1589-1624 | what its verdict says about the rest, and where a failure comes from |
| `Compare.CompareImages` | xemu/qemu-img.c:1496-1627 | exit 0 means equal after zero padding (in strict mode also equal size and status), exit 1 means not equal in that sense, exit 3 means that a query failed at an offset the loops come to, exit 4 that a byte they must read is unreadable; the first reason to stop decides |
| `Rebase.CopyUpKeepsRead` | xemu/qemu-img.c:4122-4146 | copying unallocated bytes up from the old backing file does not change what the overlay reads as |
| `Rebase.CopiedReadsAlike` | xemu/qemu-img.c:4122-4146 | after it, those bytes read the same over the new backing file |
| `Rebase.WriteKeepsBlocks` | xemu/qemu-img.c:4070-4087 | writing whole aligned blocks keeps allocation constant on blocks |
| `Rebase.RegionIsAligned` | xemu/qemu-img.c:4081-4084 | the region to compare is aligned, fits the buffer, and ends behind the old offset although it may begin before it |
| `Rebase.RegionIsUnallocated` | xemu/qemu-img.c:4073-4086 | the whole extended region is unallocated, as the code asserts |
| `Rebase.ReadBacking` | xemu/qemu-img.c:4092-4117 | the buffer holds the backing file, zero-filled beyond its end |
| `Rebase.Cow.Pwrite` | xemu/qemu-img.c:4128-4139 | writing old backing data to unallocated bytes harms nothing, even if it fails half way |
| `Rebase.Cow.CopyDifferences` | xemu/qemu-img.c:4119-4146 | the inner loop makes the region read the same over both backing files, and copies only blocks that differ |
| `Rebase.ChunksAreBlocks` | xemu/qemu-img.c:4122-4124 | chunks in which the buffers differ are blocks in which the backing files do |
| `Rebase.Cow.Step` | xemu/qemu-img.c:4026-4148 | one round of the outer loop keeps the content over the old backing file, extends the part that reads the same over the new one, and moves the offset forward |
| `Rebase.Cow.SafeRebase` | xemu/qemu-img.c:4026-4149 | at every moment, also after a failure, the overlay over the old backing file reads as originally, its allocated data is unchanged, and only blocks in which the two backing files differ have been copied up; on success the overlay over the new backing file reads the same; it ends, and fails only if an operation it needs fails |
| `BlockGraph.SlotOfMeaning` | xemu/block.c:1441-1481 | the file link is the primary child's unless the driver keeps its filtered child as backing; the backing link is that child's or the COW child's |
| `BlockGraph.RolesAreSensible` | xemu/block.c:1447-1479 | the assertions on roles hold of every edge: filters have no COW child, their primary child is the filtered one, and COW children need a driver that supports them |
| `GraphTransaction.ReplaceNopermIs` | xemu/block.c:2952-3013 | detaching, retargeting and attaching an edge changes exactly its target and its link in the parent |
| `GraphTransaction.RetargetKeepsWellFormed` | xemu/block.c:2952-3013 | links stay exact: a node's backing and file links name exactly the attached children that take them |
| `GraphTransaction.UndoReplace` | xemu/block.c:2436-2512 | the abort callback of a replaced child restores the graph |
| `GraphTransaction.UndoAttach` | xemu/block.c:3039-3046 | the abort callback of an attached child restores the graph |
| `GraphTransaction.UndoRemove` | xemu/block.c:5326-5356 | the abort callbacks of a removed child restore the graph |
| `GraphTransaction.UndoFields` | xemu/block.c:2343-2374 | the abort callbacks for permissions and inherits_from restore the graph |
| `GraphTransaction.ChangeIsUndone` | xemu/block.c:2436-2512 | undoing what any one change has pushed undoes the change |
| `GraphTransaction.AbortRestores` | xemu/util/transactions.c:60-79 | after any sequence of attach, remove, replace, permission and inherits_from changes, aborting restores edges, targets, links, permissions, inherits_from and reference counts exactly |
| `GraphTransaction.ChangeKeepsBalance` | xemu/block.c:2479-2512 | no change loses or leaks a reference: each is held by an edge, by the log, or from outside |
| `GraphTransaction.CommitReleasesHeld` | xemu/block.c:2436-2476 | if the removed children in the log have no target, a commit gives up exactly the references the log holds |
| `GraphTransaction.LoggedRemovalsAreEmpty` | xemu/block.c:5326-5356 | after any sequence of changes the removed children in the log have no target |
| `GraphTransaction.TransactionIsBalanced` | xemu/block.c:2436-2512 | after any sequence of changes and its commit, each reference to a node is an edge's or an outside one: none is lost or leaked |
| `GraphTransaction.RemovedEdgesAreGone` | xemu/block.c:5326-5356 | edges that a transaction removes no longer exist after its commit |
| `GraphTransaction.Transaction.constructor` | xemu/util/transactions.c:38-58 | a transaction starts with an empty log |
| `GraphTransaction.Transaction.ChildSetPerm` | xemu/block.c:2358-2374 | sets the permissions of an edge; the log rolls the graph back to its start |
| `GraphTransaction.Transaction.ReplaceChildTran` | xemu/block.c:2492-2512 | retargets an edge; the log rolls the graph back to its start |
| `GraphTransaction.Transaction.RemoveChildTran` | xemu/block.c:5344-5356 | detaches an edge; the log rolls the graph back to its start |
| `GraphTransaction.Transaction.AttachChildCommon` | xemu/block.c:3098-3195 | attaches a new edge exactly if the child is active or only read, and both ends get into one context; the log rolls the graph back to its start |
| `GraphTransaction.Transaction.SetInheritsFromTran` | xemu/block.c:3377-3393 | sets inherits_from; the log rolls the graph back to its start |
| `GraphTransaction.Transaction.Abort` | xemu/util/transactions.c:60-79 | running the abort callbacks, newest first, restores the graph at the start of the transaction |
| `GraphTransaction.Transaction.CommitTran` | xemu/util/transactions.c:81-100 | runs the commit callbacks, newest first; links stay exact |
| `TopologicalOrder.TopologicalDfs` | xemu/block.c:2312-2335 | one call adds the unfound nodes below its start, and keeps the list duplicate-free with parents before children |
| `TopologicalOrder.TopologicalList` | xemu/block.c:2632-2644 | repeated calls from any roots give a duplicate-free list of exactly the reachable nodes, parents before children |
| `TopologicalOrder.AncestorsFirst` | xemu/block.c:2301-2335 | every node is listed before everything it reaches |
| `Permissions.DefaultPermsMonotone` | xemu/block.c:2773-2927 | the default permission functions need less and share more when the parents need less and share more, with the XBOX write-share flag too |
| `Permissions.DefaultPermsMeaning` | xemu/block.c:2773-2927 | permission by permission: filters pass everything on; a backing file is at most read, and shared for writing exactly if the parents share it or the node is inactive; a metadata child is shared with no writer unless the node is inactive or has the XBOX flag; a written data child may be resized |
| `Permissions.ChecksAreFinal` | xemu/block.c:2601-2629 | what a node's checks see when it is refreshed is what they would see at the end |
| `Permissions.RefreshSettlesAll` | xemu/block.c:2521-2629 | after a successful refresh of a topological list, every edge below a listed node carries exactly the permissions its driver derives from that node's cumulative permissions, and no listed node has conflicting parents |
| `Permissions.RefreshSucceedsIff` | xemu/block.c:2521-2629 | the refresh succeeds exactly if in the final state no listed node has conflicting parents or refuses its permissions |
| `Permissions.SettledMeaning` | xemu/block.c:2257-2280 | at an up-to-date node no parent needs what another does not share, a read-only node is not written, and one of unaligned size is written only if it may be resized |
| `Permissions.UnsettledMeaning` | xemu/block.c:2521-2577 | a node is refused only for one of these reasons or by its driver |
| `Permissions.LoosenedRefresh` | xemu/block.c:2601-2629 | from an up-to-date graph, a refresh after any loosening meets no permission conflict and only loosens |
| `Permissions.RemovalOnlyLoosens` | xemu/block.c:3332-3346 | after dropping a parent edge, needed permissions are subsets and shared ones supersets of the old ones, and the refresh succeeds exactly if sizes are aligned where they must be and drivers agree |
| `Permissions.RemovalSucceeds` | xemu/block.c:2548-2566 | seen before the call, the refresh after dropping a parent succeeds if no listed node of unaligned size is written and drivers refuse nothing |
| `Permissions.DefaultHooksMonotone` | xemu/block.c:2906-2927 | the default functions meet the premise of those lemmas |
| `Permissions.RemovalMayBeRejected` | xemu/block.c:2548-2560 | a graph in which dropping a parent makes the refresh fail |
| `PermissionRefresh.GetCumulativePerm` | xemu/block.c:2646-2661 | the loop computes the union of the parents' permissions and the intersection of what they share |
| `PermissionRefresh.ParentPermsConflict` | xemu/block.c:2257-2280 | the loops report a conflict exactly if some parent does not allow what another one needs |
| `PermissionRefresh.SetChildPerms` | xemu/block.c:2580-2588 | the loop gives every child the derived permissions, in the transaction |
| `PermissionRefresh.NodeRefreshPerm` | xemu/block.c:2521-2592 | a node is refused, unchanged, exactly if its checks fail; otherwise its children are refreshed |
| `PermissionRefresh.DoRefreshPerms` | xemu/block.c:2601-2629 | the loop over the list does what Refresh says, and stays undoable |
| `PermissionRefresh.RefreshPerms` | xemu/block.c:2694-2717 | refreshing from a node succeeds exactly if refreshing the topological list of the nodes below it does; then all of them are settled, otherwise the graph is as it was |
| `NodeReplacement.RedirectKeepsReach` | xemu/block.c:5366-5397 | redirecting edges of nodes that the replacement does not reach never changes what it reaches |
| `NodeReplacement.RedirectKeepsAcyclic` | xemu/block.c:5247-5397 | such redirections keep the graph acyclic |
| `NodeReplacement.RecurseHasChild` | xemu/block.c:4346-4362 | the recursion decides reachability |
| `NodeReplacement.ShouldUpdateChild` | xemu/block.c:5247-5318 | the breadth-first search answers true exactly if the edge may leave its node and its owner is not reachable from the replacement |
| `NodeReplacement.ReplaceNodeNoperm` | xemu/block.c:5366-5397 | succeeds exactly if no edge to redirect is frozen and, unless skipping is allowed, all parent edges are to be redirected; then exactly those edges are, and the graph stays acyclic |
| `BackingChange.AttachChildNoperm` | xemu/block.c:3211-3242 | refuses exactly an edge that would close a cycle, an inactive child of an active parent, more than reading of an inactive child, and ends that cannot share a context; otherwise the edge is added, and the graph stays acyclic |
| `BackingChange.UnsetInheritsFrom` | xemu/block.c:3400-3425 | the recursion clears inherits_from of exactly the nodes below the edge that inherit from the root and lose their last link to it |
| `BackingChange.ClearedMeaning` | xemu/block.c:3406-3419 | these are the nodes below the edge that inherit from the root and are no other child of it |
| `BackingChange.InheritsFromRecursive` | xemu/block.c:3457-3465 | the loop decides whether the chain of inherits_from leads to the parent |
| `BackingChange.ObstacleMeaning` | xemu/block.c:3512-3552 | which of the four checks refuses a parent, in the order of the code |
| `BackingChange.ChildRoleMeaning` | xemu/block.c:3536-3553 | the new child of a filter is its filtered one, a backing file is a COW child, and a file child keeps the role of the one it replaces |
| `BackingChange.SetFileOrBackingNoperm` | xemu/block.c:3500-3584 | the result is the first check that fails, the frozen link included, or the verdict on the new child; on success the link of the parent leads to the new child, or is free, no other edge has changed, and inherits_from is the parent for a new child that inherited from it, none for the nodes that lose their last link to it, and as before for all others |
| `BackingChange.RefreshAndFinish` | xemu/block.c:2632-2717 | the refresh within a transaction and its end: on success every node below the roots is settled, on failure the graph is the one at the start |
| `BackingChange.SetBackingHd` | xemu/block.c:3592-3616 | succeeds exactly if the change and the refresh do; then permissions below are settled, and links, edges and inherits_from are as the change leaves them; the graph stays acyclic with exact links; on failure nothing has changed |
| `BackingChange.Append` | xemu/block.c:5487-5523 | succeeds exactly if the edge to the old node is accepted, no edge to redirect is frozen, and the refresh succeeds; then the parents outside the new node's subgraph point to it; on failure nothing has changed |
| `BackingChange.ReplaceNode` | xemu/block.c:5410-5447 | succeeds exactly if no edge to redirect is frozen, none would be skipped against the caller's wish, and the refresh succeeds; on failure nothing has changed |
| `FrozenChain.ChainEdgeMeaning` | xemu/block.c:8301-8366 | the chain goes on with the filtered child of a filter and with the COW child of any other node, as the code asserts, and a filter has one of the two links only |
| `FrozenChain.ChainIsUnique` | xemu/block.c:8301-8366 | the links from a node down to a base are determined by the graph |
| `FrozenChain.ChainHasNoDuplicates` | xemu/block.c:5763-5843 | no link occurs twice on the way to the base |
| `FrozenChain.ChangesKeepFrozen` | xemu/block.c:5388-5392 | no sequence of graph changes touches a frozen link |
| `FrozenChain.TransactionKeepsFrozen` | xemu/util/transactions.c:60-100 | nor does a whole transaction, committed or aborted |
| `FrozenChain.HistoryKeepsFrozen` | xemu/block.c:3522-3526 | nor does any history of transactions; setting a backing file, appending and replacing are proved to be such transactions |
| `FrozenChain.FrozenChainSurvives` | xemu/block.c:5793-5843 | through every history of transactions, a frozen chain down to a base keeps the same links, all frozen, so unfreezing it is safe |
| `FrozenChain.OpenChainSurvivesIff` | xemu/block.c:5824-5843 | after any history, a chain frozen without a base can be unfrozen safely exactly if its last node has not got a further link |
| `FrozenChain.OpenChainMayGrow` | xemu/block.c:5824-5843 | a transaction after which it has |
| `FrozenChain.UnfreezeUndoesFreeze` | xemu/block.c:5793-5843 | unfreezing a chain right after freezing it restores the graph |
| `FrozenChain.Chains.IsBackingChainFrozen` | xemu/block.c:5763-5783 | the loop reports exactly whether some link is frozen |
| `FrozenChain.Chains.FreezeBackingChain` | xemu/block.c:5793-5822 | succeeds exactly if no link is frozen and none leads to a node that must never be frozen; then all links are frozen, otherwise nothing changes |
| `FrozenChain.Chains.UnfreezeBackingChain` | xemu/block.c:5830-5843 | clears all links of a frozen chain, meeting only frozen ones |
| `AioContexts.ChangeNode` | xemu/block.c:7659-7695 | the recursion collects what it reaches, fails only if something within any closed set around its start cannot move, and ends because every call visits a new edge |
| `AioContexts.ChangeOwner` | xemu/blockjob.c:147-171 | the callbacks for nodes, jobs with their sibling edges, and backends do the same for the upper end of an edge |
| `AioContexts.ComponentIsClosed` | xemu/block.c:7575-7695 | the component of an item contains everything joined to it by edges that are not ignored |
| `AioContexts.CollectedIsComponent` | xemu/block.c:7575-7745 | what a successful recursion has collected is exactly the component |
| `AioContexts.Contexts.TryChange` | xemu/block.c:7708-7745 | succeeds exactly if everything connected can move; then all of it has moved, otherwise nothing has |
| `AioContexts.Contexts.Commit` | xemu/block.c:7633-7641 | running the collected callbacks one by one moves exactly the collected items |
| `AioContexts.ComponentSharesContext` | xemu/block.c:7575-7745 | connected items are in one context to begin with |
| `AioContexts.MoveKeepsConsistent` | xemu/block.c:7575-7745 | moving a component keeps the rule that both ends of every edge share one context |
| `AioContexts.Contexts.JoinContexts` | xemu/block.c:3131-3164 | attaching moves the child's component into the parent's context if all of it can move, and only otherwise the parent's into the child's; it fails exactly if neither can, and then changes nothing; all other edges keep the rule |
| `AioContexts.OtherSideStays` | xemu/block.c:3131-3164 | the side that does not move keeps its context, with everything connected to it |
| `AioContexts.MovesBack` | xemu/block.c:7575-7745 | a component that could move can always move back, which undoes the move |
| `AioContexts.WayBack` | xemu/block.c:3039-3070 | after both ends have been brought together, whichever side has moved can go back |
| `AioContexts.Contexts.SeparateContexts` | xemu/block.c:3039-3070 | the rollback of an attach never fails its assertions, and puts every item back into its old context |
| `JobLife.NewJob` | xemu/job.c:391-456 | a new job is created, paused once, and meets the job invariant |
| `JobLife.LocalKeepsOk` | xemu/job.c:536-758 | start, pause, resume, drain, error stop, pause points, yield, ready, return and cancel keep the job invariant, never fail an assertion, and do not touch a completed job's status |
| `JobLife.LocalHasEffect` | xemu/job.c:536-758 | what each operation is for: a start makes the job run, a pause point remembers the status, a return stores the result of run(), a cancel is recorded and wakes the coroutine, and pausing or draining changes neither status nor result |
| `JobLife.RunningMayAct` | xemu/job.c:609-664 | a coroutine that runs may return anything, become ready exactly once, and pauses exactly if it should and is not force-cancelled |
| `JobLife.CompletedIgnoresUser` | xemu/job.c:722-757 | a completed job can be neither paused nor resumed by its user |
| `JobLife.LocalKeepsAttentive` | xemu/job.c:609-758 | a coroutine that should pause does not go to sleep, and one that sleeps in its pause is woken when the last reason for the pause ends |
| `JobLife.PausesFollowLog` | xemu/job.c:690-758 | told from the log alone: a job is paused by its user exactly if the last such command or error says so, and by as many drained sections as have begun and not ended |
| `JobLife.TransitionsMoveOn` | xemu/job.c:59-72 | apart from pauses, the status table never leads back |
| `JobLife.TablesAgree` | xemu/job.c:59-84 | where each status may come from, and what a job in each status may be asked |
| `JobLife.CancelAsyncOk` | xemu/job.c:888-923 | an asynchronous cancel keeps the job invariant, ends a pause by the user, is recorded unless it is a soft one of a job that is done, and never overrides a forced one |
| `JobLife.UpdateRcOk` | xemu/job.c:804-815 | the result is 0 afterwards exactly if it was and the job was not force-cancelled; otherwise the job is aborting, with its own error or, lacking one, the one for a cancel |
| `JobLife.FinalizedOk` | xemu/job.c:846-882 | finalizing calls commit once for a job without error and not force-cancelled, abort once for any other, and never both; the job is dismissed exactly if it asks for it or was never started |
| `JobLife.PauseRestoresStatus` | xemu/job.c:609-642 | whatever happens during a pause, leaving it restores the exact prior status |
| `JobGroup.StepKeepsInv` | xemu/job.c:760-1163 | every step of any number of jobs and groups keeps the invariant, whatever the driver callbacks return; its steps are defined only where the transition table and the other assertions allow them, so none of these fails |
| `JobGroup.TxnAbortOk` | xemu/job.c:929-957 | beginning an abort dooms every member but a survivor, and touches no other group |
| `JobGroup.DoFinalizeOk` | xemu/job.c:996-1008 | finalizing keeps the invariant, with or without a failed prepare callback |
| `JobGroup.CompletedOk` | xemu/job.c:1064-1075 | completing a job keeps the invariant and never makes a completed job uncompleted |
| `JobGroup.PendingTogether` | xemu/job.c:1037-1061 | in a group that is not aborting, if one member is pending all are, without errors |
| `JobOutcome.After` | xemu/job.c:760-1163 | the invariant holds after every run |
| `JobOutcome.PauseCountIsExact` | xemu/job.c:690-758 | in every run pause_count is one if not started, plus one if user-paused, plus the drained sections; a failed iostatus implies user-paused, which implies a positive count |
| `JobOutcome.AllOrNothing` | xemu/job.c:846-1061 | in every run a group that is not aborting has called back nobody, or has committed all its jobs with result 0; an aborting group commits at most its survivor; an emptied group has called back every job once |
| `JobOutcome.FailureAbortsGroup` | xemu/job.c:1064-1072 | a member that ends with an error or after a forced cancel fails its group, leaving no survivor |
| `JobOutcome.ForcedCancelFailsGroup` | xemu/job.c:1137-1163 | a forced cancel of any member, running or not, fails its group; at once if the member has not started or has run to its end |
| `JobOutcome.StepKeepsFailing` | xemu/job.c:760-1163 | a group that has failed, or has a member that can only end with an error, stays so through every step |
| `JobOutcome.ReturnFailsGroupIff` | xemu/job.c:1112-1116 | the return of run() dooms the group exactly if it is an error or the job is force-cancelled |
| `JobOutcome.ErrorReturnNeverCommits` | xemu/job.c:804-1116 | in every run in which run() of a job returns an error, no job of its group commits afterwards, and each that has left has aborted exactly once |
| `JobOutcome.FailedGroupNeverCommits` | xemu/job.c:929-968 | in every continuation of a state in which a group has failed, or a started member is force-cancelled or has ended with an error, no job of the group commits, and each that has left it has aborted exactly once |
| `JobOutcome.CompletedForever` | xemu/job.c:306-326 | in every run a completed job stays completed |
| `JobOutcome.PrepareStops` | xemu/job.c:177-200 | preparing in order marks the first failing member and no other |
| `JobOutcome.FinalizeOutcome` | xemu/job.c:996-1008 | all jobs commit exactly if no prepare callback fails; otherwise the group aborts with every other member force-cancelled, and the job being finalized survives exactly if it is not the one that failed |
| `JobOutcome.CompletedOutcome` | xemu/job.c:1037-1075 | an error or a forced cancel aborts the group without a survivor, every other member force-cancelled; otherwise the job waits for an uncompleted member, or all become pending together, or all are finalized |
| `JobOutcome.AbortRoundOutcome` | xemu/job.c:958-965 | a round of the abort loop finalizes the first member: abort, or commit exactly for a survivor that has not been force-cancelled |
| `JobAbort.LoopWaitsForCancelled` | xemu/job.c:958-963 | the abort loop waits only for members whose forced cancel has been requested, as the code asserts |
| `JobAbort.UnstartedMemberBlocksLoop` | xemu/job.c:958-965 | a created member that is never started, cancelled or failed early stays in the group of an aborting transaction in every run, so the loop does not end |
| `JobAbort.MemberCompletes` | xemu/job.c:1242-1271 | a started member of an aborting group, running, paused or at its end, can complete without touching any other job or group |
| `JobAbort.AbortLoopEmpties` | xemu/job.c:958-965 | if every member has been started, some run empties the group |
| `JobAbort.AbortLoopEndsIff` | xemu/job.c:929-968 | a run that leaves the created members alone can empty an aborting group exactly if there is none |
| `JobAbort.RoundsOutcome` | xemu/job.c:958-965 | as many rounds as members call back every completed member once, with commit exactly for a survivor that has not been force-cancelled |
| `JobAbort.MixedOutcomeIff` | xemu/job.c:929-1008 | after a finalize command and the loop, the group is empty; all have committed if no prepare callback fails, all have aborted if that of the finalized job fails first, and otherwise it alone has committed; so the outcome is mixed exactly in the last case |
| `JobAbort.StepKeepsTogether` | xemu/job.c:929-1061 | no step leaves a group, aborting or not, with a pending member and an uncompleted one |
| `JobAbort.PendingNeverWaits` | xemu/job.c:958-965 | in every run from the start, the loop of an aborting group that has a pending member runs to its end without waiting |
| `JobAbort.FinalizeMayMixOutcomes` | xemu/job.c:996-1008 | a run from the start in which one of two jobs of a group commits and the other aborts |
| `JobHistory.StepEvolves` | xemu/job.c:536-1163 | no step takes back an error, a forced cancel, a start or a callback of any job, leads to an earlier phase, or lets a force-cancelled coroutine pause or sleep |
| `JobHistory.FirstErrorIsFinal` | xemu/job.c:804-815 | so in every run the first error of a job stays its result, and no job is called back twice |
| `JobHistory.NoPauseIsMissed` | xemu/job.c:609-758 | in every run no coroutine sleeps through a request to pause, nor through the end of the last one |
| `JobHistory.CreatedJoinsGroup` | xemu/job.c:391-456 | a new job becomes the first member of its group and changes no other job |
| `JobHistory.EarlyFailLeavesGroup` | xemu/job.c:788-793 | a job that fails before it is started leaves its group as if it had never joined |
| `JobHistory.ConcludedCanBeDismissed` | xemu/job.c:760-786 | a concluded job can be dismissed, which changes nothing else |
| `JobManager.Manager.CompletedTxnAbort` | xemu/job.c:929-957 | the loop over the list cancels every other member once |
| `JobManager.Manager.FinishSync` | xemu/job.c:1242-1271 | a started member of an aborting group completes, and nothing else changes |
| `JobManager.Manager.AbortLoop` | xemu/job.c:958-965 | for members that have been started, completed or not, the loop ends with an empty group; each member has been called back once, with commit exactly for a survivor that has not been force-cancelled |
| `JobManager.Manager.PrepareMembers` | xemu/job.c:177-200 | applies the prepare callback in order, stopping at the first failure, which it reports |
| `JobManager.Manager.FinalizeMembers` | xemu/job.c:177-200 | finalizes all members while they leave the list |
| `JobManager.Manager.FinalizeGroup` | xemu/job.c:996-1008 | the whole group has committed exactly if no prepare callback fails; otherwise it has begun to abort, every other member is force-cancelled, and the finalized job survives exactly if it is not the one that failed |
| `JobManager.Manager.CompletedTxnSuccess` | xemu/job.c:1037-1061 | waits for the other members, then makes all pending together, and finalizes if none asks for manual finalization |
| `JobManager.Manager.JobCompleted` | xemu/job.c:1064-1075 | after an error or a forced cancel the group aborts without a survivor and every other member is force-cancelled; otherwise the job waits for an uncompleted member, or all members are pending, or they are finalized |
| `JobManager.Manager.Call` | xemu/job.c:536-758 | any operation on one job keeps the invariant and has the effect it is for |
| `JobManager.Manager.Exit` | xemu/job.c:1081-1097 | keeps the invariant and does what the step system says |
| `JobManager.Manager.CancelLocked` | xemu/job.c:1137-1163 | keeps the invariant and does what the step system says, in all four branches, also for a started job that is aborting |
| `JobManager.Manager.FinalizeLocked` | xemu/job.c:1010-1018 | keeps the invariant and does what the step system says |

## Premises

- Exclusive sections: memory accesses are sequentially consistent and each is one step;
  CPUs are neither added nor removed; condition variables may wake up spuriously.
- Permission refresh: drivers' permission callbacks are functions of their arguments;
  loosening is stated for monotone ones, and the default ones are proved monotone.
- Conversion and comparison: a block status answer is positive, within range and
  truthful; sectors that no layer allocates read as zero; a target that is called zero
  initialised reads as zero, and a target backing file reads as the part of the source
  that is left out.
- Alignments of the sparse scan are powers of two (the set-up code asserts it), so
  masking with alignment minus one is taking the remainder.
- Rebase: the write alignment divides the buffer size, and the overlay's allocation is
  constant on aligned blocks; where the new backing file is a layer of the old chain,
  bytes not allocated above it read the same in both.
- Backing changes: chains of inherits_from end; a filter is given the kind of child, backing or file, that its driver has.
- Jobs: driver callbacks do not call back into the job code; a forced cancel request is
  never turned down, and an unforced one only for a job that has been ready; jobs join
  a group before any of its jobs is started; ready is signalled once;
  commands are given only while the abort loop waits.

## Left out

- Command line and monitor plumbing, option dictionaries, messages, progress and events: no state that the properties depend on.
- Drain counters, request I/O, driver attach and detach callbacks, notifiers: "drained" is a premise where the source asks for it.
- Opening, reopening and filename handling of nodes, the reopen queue, activation and inactivation: dominated by option handling and driver callbacks.
- Weak memory orderings of the exclusive section: barriers are modelled as sequential consistency, so a missing barrier would not be noticed.
- CPU hotplug, per-CPU work queues and breakpoints: beside the protocol; so is a CPU that sets its own running flag inside an exclusive section (`accel/tcg/cpu-exec.c:577-619`).
- Order of child and parent lists: they are sets computed from the edges; the source may reorder them on rollback too.
- Reference counts are those after scheduled unreferences have run.
- Driver callbacks for permission commit and abort are not among the transaction's actions.
- `GraphTransaction.UndoAttach`: restores the graph but not the AioContexts, because contexts are not part of the graph's state; the move inside an attach is an answer passed to the attaching methods, and the move and its rollback are modelled in `AioContexts.dfy`.
- Salvage in the concurrent converter, dirty bitmaps and throttling: salvage is modelled for `convert_co_read` alone.
- Failing `blk_getlength` calls and exit status 2 of the comparison: error returns before the modelled part.
- Unsafe rebase and the final `bdrv_change_backing_file`: the model ends where the new backing file may be installed.
- Jobs as separately allocated objects: job fields are updated as record values inside the `Manager` object, so aliasing between jobs is not modelled; the `joined` and `survivor` fields of a group are bookkeeping of the model.
- `AioContexts.Contexts.TryChange`: the notifiers and driver hooks that run while a node moves are left out, because their bodies are not part of this model.
- `JobManager.Manager.FinishSync`: one way in which the wait can end, because what else runs in the event loop meanwhile is not determined; in the step system waiting is a round of the abort loop that is not enabled.
- `JobManager.Manager.CancelLocked`: not for a job that aborts without having been started, because the code would complete it a second time, which it asserts not to happen.
- `JobManager.Manager.FinalizeLocked`: not for a pending member of a group that is aborting, because no command can reach it: the loop of such a group never waits (`PendingNeverWaits`).
