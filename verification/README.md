# Verified model of a parallel copy tool's core

A Dafny 4.11 model of the parts of a parallel copy program whose correctness is hard to see by
reading: its buddy allocator, its lock-free queue and the blocking layers above it, its transfer
scheduler, the streaming XXH3 hash, the ID lists of LMDB, and the reference counting of path
strings and directory handles. `dafny verify dfyconfig.toml` checks everything.

## How the project is laid out

| component | files |
|---|---|
| bitset, tree geometry, status function, tree, arena, embedding | `Bitset.dfy`, `TreeShape.dfy`, `StatusSpec.dfy`, `BestFit.dfy`, `BuddyTree.dfy`, `TreeAccounting.dfy`, `PowersOfTwo.dfy`, `BuddyArena.dfy`, `BuddyEmbed.dfy` |
| allocation across arenas | `ArenaRouting.dfy`, `ArenaCarving.dfy` |
| free list, dequeue counters, blocks of a queue | `FreeList.dfy`, `FreeListCalls.dfy`, `DequeueCounters.dfy`, `BlockQueue.dfy`, `BlockQueueCalls.dfy` |
| semaphore, bounded queue | `MapSum.dfy`, `Semaphore.dfy`, `BoundedQueue.dfy`, `BoundedQueueCalls.dfy` |
| transfer scheduler | `FileJobs.dfy`, `SchedulerSpec.dfy`, `SchedulerInv.dfy`, `SchedulerSteps.dfy`, `SchedulerPasses.dfy`, `SchedulerRuns.dfy`, `Scheduler.dfy`, `SchedulerReports.dfy`, `SchedulerProgress.dfy` |
| hash: the calls it makes, one-shot and streaming | `XXH3Trace.dfy`, `XXH3Stream.dfy` |
| ID lists | `MidlSort.dfy`, `MidlLists.dfy` |
| directory handles, finish processors | `DirectoryHandles.dfy`, `FinishDrain.dfy`, `FinishStuck.dfy` |
| path strings, one release at a time and interleaved | `PathChain.dfy`, `PathReleases.dfy` |
| shared definitions and small lemmas | `Basics.dfy`, `Cardinality.dfy` |

**Buddy allocator.** Three layers. `Bitset` and `TreeShape` show that the fields of distinct
nodes are disjoint and inside the bitset, so packed unary bits refine a map from nodes to numbers
(`BuddyTree.Packs`). `StatusSpec.Status` is the number every node must hold, as a function of the
set of allocated nodes alone; the class `BuddyTree.Tree` keeps the bits equal to it through every
mark and release although the repair of the ancestors stops early. `BuddyArena.Buddy` then
refines a set of disjoint intervals: allocation fails exactly when no hole of the right size is
left, and freeing an address removes exactly the block that starts there.

**Queues.** Each algorithm is a machine whose steps are single atomic accesses, together with what
their thread does to data that it alone has, interleaved in any order by any number of threads,
under sequential consistency. Invariants are proved for
every step, and main results for every run. The `Calls` files say what a call comes to: that a
negative answer is due to the state or to contention, and what a call does that runs alone.

**Scheduler.** `SchedulerSpec` gives one function for each routine, with every choice of the
environment (buffers granted, jobs in the queue, how many requests `io_submit` takes, what each
request returns and leaves behind) as an argument. The class `Scheduler.CopyScheduler` performs the
routines with the loops and assignments of the program and is proved equal to those functions.
The invariant `SchedulerInv.Inv` covers counting (for every failure) and bytes (block by block:
a block all of whose requests were completed in full is right whatever happens to the others). The
kernel moves a request's bytes when it reports the request; the proof that padded writes of
different blocks never meet is what makes that order immaterial. `SchedulerProgress` bounds the work
that is left and so shows that every file is handed over.

**XXH3.** The accumulate, scramble, finalize and short-input functions are parameters, so the
result holds for all of them: which bytes reach them, in which order, with which part of the
secret, is the same for every chunking of an input, and is given in closed form (`XXH3Trace.Reference`).

## Where code and documentation or intent part ways

- `mdb_midl_search` is documented to find the first ID *greater than or equal to* the one searched
  for (liblmdb/midl.h:83-87); lists are in descending order, and the code finds the first that is
  not greater. `MidlLists.Search` follows the code.
- `mdb_midl_sort` computes the midpoint as `(l+ir) >> 1` in `int`. `MidlSort.Sort` shows the sum
  always fits up to 2^30 + 3 IDs, and that for every greater length there is a list for which it
  does not (`MidlSort.SkewedList`). From then on the order shown is that of an unbounded midpoint.
- In a debug build, `AllocatorFree` asks the disk arena with the size of the debug record alone, and
  only if a memory arena exists. `ArenaRouting.Allocator.FreeSharedDebug` states exactly when its
  assertions hold, and `ArenaCarving.DebugFreeFails` creates the arenas of the program and makes an
  allocation for which they do not.
- The caller of `createAllocator` refuses options whose memory does not exceed the copy buffer and
  the thread arenas together, but both the product and the sum are taken modulo the word size
  (copy2.cpp:1577-1578). `ArenaCarving.GuardIff` and `ArenaCarving.ArenasInsideIff` say exactly when
  the pieces come out as asked.
- `createAllocator` tests whether its own record was allocated and then uses it in any case
  (allocator.cpp:74-84); it always is (`ArenaCarving.CreateAllocator`). The thread locks are
  used without a test, and they are missing if the memory arena is too small
  (`ArenaCarving.PlaceRecords`).
- `Queue::enqueue` takes a permit and does not return it when the inner enqueue fails;
  `BoundedQueue.CapacityKept` accounts for the permits lost that way.
- A request that failed is counted as finished and not as an error
  (`SchedulerRuns.FailureIsNotCounted`), so a file can be handed over with no error and wrong
  contents (`SchedulerRuns.SilentFailure`). A completion of zero bytes counts as success.
- A request that the kernel reports with `-EINPROGRESS` leaves its status at that of a request in
  progress, so nobody looks at it again and the scheduler never rests
  (`SchedulerProgress.ReportRemembersIff`, `SchedulerProgress.ForgottenForever`). For every other result it
  rests in the end (`SchedulerProgress.AllHandedOver`).
- Block sizes are positive multiples of the I/O alignment for every file exactly for the option
  values in `FileJobs.GoodOptions`; with both sizes zero a file has no blocks at all.
- The padding of the bitset's size adds the remainder instead of what is missing to a whole word;
  the table behind it still fits (`BuddyEmbed.MemoFits`), and `BuddyEmbed.PaddingAligns` says for
  which orders the result is a whole number of words.
- `ceiling_power_of_two` is wrong above 2^63 (`PowersOfTwo.CeilingPowerOfTwo`).
- `buddy_tree_release` accepts a node that is full because its halves were allocated one by one
  (`StatusSpec.FullIff`, `StatusSpec.HalvesLookWhole`) and leaves statuses that belong to no set of
  allocated nodes (`BuddyTree.Tree.ReleaseNode`, `StatusSpec.TornIsNoTree`). The arena never asks for that
  (`BuddyArena.Buddy.PositionForAddress`).
- `stringPartRelease` loads the prefix of a part (allocator.h:153) after it has given up its count,
  and whether the count was the last. The part may be freed by then: `PathReleases.LoadAfterFree` is
  a run of two threads, and `PathReleases.LoadFindsPartIff` says exactly when no run from a state
  does that. What such a load yields is never used (`PathReleases.JunkIsUnused`).
- The finish queue is bounded, and the finish processors, its only consumers, enqueue into it
  (fdrcguard.h:44). With the queue full and each of them in an enqueue the program stands still for
  good; `FinishStuck.StuckIff` says exactly when a run can get there.
- Finish processors wait for the schedulers only, so with no scheduler an item that the crawler
  enqueues late stays behind (`FinishDrain.NoSchedulerNoWait`).

## Model

| member | source | states |
|---|---|---|
| Bitset.MaskSelects | buddy_alloc.h:2042-2051 | every entry of the 8x8 mask table selects exactly the bits of its range |
| Bitset.SetRange | buddy_alloc.h:2063-2076 | afterwards a bit is set exactly if it lies in the range or was set before |
| Bitset.ClearRange | buddy_alloc.h:2078-2092 | afterwards a bit is set exactly if it was set before and lies outside the range |
| Bitset.CountRange | buddy_alloc.h:2094-2107 | the number of set bits of the range, for ranges inside one byte and across bytes |
| TreeShape.AncChain | buddy_alloc.h:1625-1642 | two ancestors of one node are themselves ancestor and descendant |
| TreeShape.Laminar | buddy_alloc.h:1703-1723 | the leaves under two nodes are disjoint unless one node is an ancestor of the other |
| TreeShape.AncContains | buddy_alloc.h:1703-1723 | a node's leaves contain those of each of its descendants |
| TreeShape.LevelStartClosed | buddy_alloc.h:1423-1432 | the bits before level d of a tree of order n are 2^(d-1) * (n - d + 3) - n - 2, in closed form |
| TreeShape.TotalBitsClosed | buddy_alloc.h:1458-1464 | a tree of order n takes 2^(n+1) - n - 2 bits |
| TreeShape.LocWithinLevel | buddy_alloc.h:1434-1456 | the field of every node lies inside its level and inside the whole bitset |
| TreeShape.FieldsDisjoint | buddy_alloc.h:1434-1456 | the fields of two distinct nodes of a tree of any order share no bit |
| TreeShape.SiblingLoc | buddy_alloc.h:1789-1812 | a sibling's field lies one field width to the left or right, as the ancestor repair computes it |
| StatusSpec.StatusFrame | buddy_alloc.h:1920-1955 | the status of a node depends only on which nodes at or below it are allocated |
| StatusSpec.ZeroIsClear | buddy_alloc.h:1920-1955 | a node has status zero exactly if nothing at or below it is allocated |
| StatusSpec.StatusMeaning | buddy_alloc.h:1814-1860 | a status is at most k exactly if some free node lies k levels below the node |
| StatusSpec.RootStatusMeaning | buddy_alloc.h:1814-1825 | the root's status tells for every depth whether a free node exists there |
| StatusSpec.BelowMarked | buddy_alloc.h:1761-1770 | every node below an allocated node has status zero |
| StatusSpec.FullIff | buddy_alloc.h:1772-1779 | a status is full exactly if the node is allocated or both its halves are full |
| StatusSpec.HalvesLookWhole | buddy_alloc.h:1772-1779 | a tree whose root is full because both halves are allocated one by one |
| StatusSpec.TornIsNoTree | buddy_alloc.h:1772-1787 | the statuses left by releasing a full node that is not allocated itself are those of no legal set of nodes |
| StatusSpec.UnchangedAbove | buddy_alloc.h:1789-1812 | once an ancestor's status is unchanged by a change below it, so is every status above |
| BestFit.MarkRaises | buddy_alloc.h:1789-1812 | allocating a free node lowers no status |
| BestFit.BestFrom | buddy_alloc.h:1831-1857 | seen from any node above both, taking the node that the search reaches leaves a status no higher than taking any other free node of its depth |
| BestFit.LeavesMost | buddy_alloc.h:1831-1857 | the search takes a node that leaves the largest free node which any choice could leave |
| BuddyTree.UnaryCount | buddy_alloc.h:1692-1700 | counting the set bits of any prefix of a unary field gives the encoded number, cut off at the prefix |
| BuddyTree.PacksUpdate | buddy_alloc.h:1677-1690 | rewriting one node's field leaves the number of every other node as it was |
| BuddyTree.SizeForOrder | buddy_alloc.h:1423-1432 | the loop sums the widths of all levels above the target |
| BuddyTree.Tree.constructor | buddy_alloc.h:1472-1481 | a new tree is empty, and the bits and the level table agree with that |
| BuddyTree.Tree.InternalPosition | buddy_alloc.h:1446-1456 | location and width of a node's field, read from the level table |
| BuddyTree.Tree.ReadAt | buddy_alloc.h:1692-1697 | reading a field gives the number stored for its node |
| BuddyTree.Tree.CompareAt | buddy_alloc.h:1699-1701 | the one-bit test is true exactly if the number stored for the node is at least the value |
| BuddyTree.Tree.WriteAt | buddy_alloc.h:1677-1690 | a write stores the number and changes no other node |
| BuddyTree.Tree.StatusAt | buddy_alloc.h:1756-1759 | the stored number is the status function of the allocated set |
| BuddyTree.Tree.UpdateParentChain | buddy_alloc.h:1789-1812 | after a change at one node all nodes but those below it have the status of the new set, the early exit included, and those below are as they were |
| BuddyTree.Tree.EarlyExit | buddy_alloc.h:1801-1805 | stopping at an ancestor that needs no change leaves no stale status above it |
| BuddyTree.Tree.Mark | buddy_alloc.h:1761-1770 | the node joins the allocated set and every stored status follows |
| BuddyTree.Tree.ReleaseNode | buddy_alloc.h:1772-1787 | succeeds exactly on a full node; an allocated one leaves the set; one that is full because its halves are ends in statuses of no legal set; any other changes nothing |
| BuddyTree.Tree.FindFree | buddy_alloc.h:1814-1860 | yields a free node of the target depth exactly if there is one, going into the fuller half at every fork where both have room, the left one on a tie |
| BuddyTree.Tree.PickChild | buddy_alloc.h:1831-1857 | the chosen child still has a free node at the target depth below it; its sibling has none, is less full, or is as full and the right one |
| BuddyTree.Tree.Walk | buddy_alloc.h:1734-1754 | the walk moves on in preorder and ends after the last node |
| BuddyTree.SameMarkedSameBits | buddy_alloc.h:1920-1955 | two trees with the same allocated set store the same numbers, whatever their histories |
| BuddyTree.NextRest | buddy_alloc.h:741-759 | skipping a subtree leaves exactly the free leaves not yet visited |
| TreeAccounting.Balance | buddy_alloc.h:741-759 | under every node, free and allocated leaves add up to all leaves |
| TreeAccounting.MarkedIsSum | buddy_alloc.h:741-759 | the allocated leaves are the sum over the allocated nodes, each counted once |
| TreeAccounting.FreePlusAllocated | buddy_alloc.h:741-759 | free leaves plus the leaves of all allocated nodes are all leaves of the tree |
| PowersOfTwo.HighestBitPosition | buddy_alloc.h:2165-2196 | the table-driven search gives the bit length of every 64-bit value |
| PowersOfTwo.CeilingPowerOfTwo | buddy_alloc.h:2198-2201 | the least power of two not below the value exactly for values up to 2^63; above that the one for the value less 2^63, which is too small |
| PowersOfTwo.CeilingUnique | buddy_alloc.h:2198-2201 | there is only one least power of two |
| BuddyArena.ApartIff | buddy_alloc.h:1147-1158 | the blocks of two nodes overlap exactly if one node is an ancestor of the other |
| BuddyArena.BeforeMask | buddy_alloc.h:1203-1252 | a node clear of the masked ones lies wholly before the memory size |
| BuddyArena.MaskedTotal | buddy_alloc.h:1203-1252 | the masked nodes cover exactly the leaves past the memory size |
| BuddyArena.Buddy.constructor | buddy_alloc.h:546-595 | a new arena is well formed and its tree is empty, with nothing masked yet |
| BuddyArena.Buddy.BlocksDisjoint | buddy_alloc.h:771-807 | live blocks are pairwise disjoint, aligned to their own size and inside the memory |
| BuddyArena.Buddy.EffectiveMemorySize | buddy_alloc.h:1134-1136 | the size that the whole tree stands for, a power of two |
| BuddyArena.Buddy.SizeForDepth | buddy_alloc.h:1126-1128 | the block size of the nodes of a depth |
| BuddyArena.Buddy.AddressForPosition | buddy_alloc.h:1147-1158 | the offset of a node's block |
| BuddyArena.Buddy.MaskVirtualSlots | buddy_alloc.h:1203-1252 | marks exactly the leaves past the memory size, for every aligned size |
| BuddyArena.Buddy.DepthForSize | buddy_alloc.h:1112-1124 | the level whose block size is the least power of two that is not below the request and the alignment |
| BuddyArena.Buddy.FreeIsHole | buddy_alloc.h:1814-1860 | a node is free exactly if its block is a hole: inside memory and clear of live blocks |
| BuddyArena.Buddy.Malloc | buddy_alloc.h:771-807 | adds one block that meets no live block, and fails exactly if the request exceeds the memory or no aligned hole of its size is left; if any other place for the block would leave room for some request, so does the one taken |
| BuddyArena.Buddy.BestRemains | buddy_alloc.h:1831-1857 | the node that the search reaches leaves a free node for every request that another place would leave room for |
| BuddyArena.Buddy.PositionForAddress | buddy_alloc.h:1160-1190 | an address that starts a live block leads to its node; any other leads to nothing that a release would accept |
| BuddyArena.Buddy.TrackingNode | buddy_alloc.h:1175-1187 | the climb finds the allocated node above the leaf if there is one, and otherwise nothing that a release would accept |
| BuddyArena.Buddy.ReleaseFound | buddy_alloc.h:907-934 | releasing what was found removes the block that starts at the offset, or nothing |
| BuddyArena.Buddy.FreeBlock | buddy_alloc.h:907-934 | removes exactly the live block that starts at the address; otherwise nothing changes |
| BuddyArena.Buddy.SafeFreeBlock | buddy_alloc.h:936-985 | succeeds, and removes the block, exactly if a live block starts there and the size fits it; otherwise nothing changes; an address outside the memory is invalid, a live one never is |
| BuddyArena.Buddy.RequestFits | buddy_alloc.h:936-985 | a block that served a request is less than twice max(request, alignment), and freeing it with that size passes the size test |
| BuddyArena.Buddy.ArenaFreeSize | buddy_alloc.h:741-759 | free size plus the sizes of all live blocks is the memory size |
| BuddyArena.Buddy.Conservation | buddy_alloc.h:741-759 | the masked leaves, the live blocks and the free leaves fill the tree |
| BuddyEmbed.BuddyInit | buddy_alloc.h:535-595 | which sizes and alignments give an arena, and that it is a valid empty one |
| BuddyEmbed.OrderForMemory | buddy_alloc.h:761-769 | the least order whose leaves cover the memory |
| BuddyEmbed.MemoFits | buddy_alloc.h:1457-1470 | the level table lies behind the bitset and inside the size computed for the tree, for every order |
| BuddyEmbed.PaddingAligns | buddy_alloc.h:1462-1466 | the padded bitset is a whole number of words exactly if it had a whole number of half words, which is stated in terms of the order |
| BuddyEmbed.PaddingDoesNotAlign | buddy_alloc.h:1462-1466 | orders on both sides of that condition |
| BuddyEmbed.SizeofMonotone | buddy_alloc.h:1457-1470 | a tree of higher order is not smaller |
| BuddyEmbed.EmbeddedMetadataSafe | buddy_alloc.h:1335-1360 | embedded metadata starts at or after the end of the memory handed out, and fits before the end |
| ArenaRouting.Allocator.OneArena | allocator.cpp:267-324 | at most one arena has a block at an address |
| ArenaRouting.Allocator.RoutedRight | allocator.cpp:267-300 | the index computed from an address is the arena that made its block |
| ArenaRouting.Allocator.Allocate | allocator.cpp:145-204 | the first arena, in the order own, memory, disk, that has room gains one new block at the returned address and no other changes; it fails exactly if none of them has room |
| ArenaRouting.Allocator.AllocateShared | allocator.cpp:173-187 | the same for the shared arenas alone |
| ArenaRouting.Allocator.Free | allocator.cpp:267-324 | exactly the block at the address disappears, from the arena that made it |
| ArenaRouting.Allocator.FreeSharedDebug | allocator.cpp:300-322 | when the debug build's assertions on a shared block hold, in terms of the block and of the request it served, and which blocks are there afterwards |
| ArenaRouting.Allocator.DebugFits | allocator.cpp:300-322 | the size of the bare debug record passes the size test exactly if the request with the record is not above that size and the alignment |
| BuddyEmbed.Embed | buddy_alloc.h:604-627 | an empty arena that ends before its metadata, and exactly when the region, its address and the alignment allow one |
| ArenaCarving.PiecesApart | allocator.cpp:42-66 | copy buffer, thread arenas, memory arena and file lie side by side in their mappings |
| ArenaCarving.CopyBufferApart | allocator.cpp:108-120 | the copy buffer meets no arena, whichever mapping it is taken from |
| ArenaCarving.GuardIff | copy2.cpp:1577-1578 | the caller's test of its options gives the copy buffer and every thread arena asked for exactly if its sum does not wrap |
| ArenaCarving.ArenasInsideIff | allocator.cpp:49-62 | the thread arenas end inside the mapping exactly if the size of their region does not wrap |
| ArenaCarving.EmbedSubs | allocator.cpp:55-62 | one arena for each thread at its place, none sharing metadata with another, and exactly when that works |
| ArenaCarving.SecondHasRoom | allocator.cpp:74-84 | for which sizes of the memory arena the locks fit beside the allocator's record, wherever that is, and for which they do not |
| ArenaCarving.PlaceRecords | allocator.cpp:74-84 | the allocator's record always fits; the locks as the memory's size says |
| ArenaCarving.CreateAllocator | allocator.cpp:21-143 | succeeds exactly if every piece can hold its arena; the arenas then lie as planned, in the layout that routing relies on, and only the one with the allocator's records has blocks |
| ArenaCarving.DebugFreeFails | allocator.cpp:300-322 | in an allocator that the program creates, a request of 4096 bytes that reaches the disk arena and whose own free fails the assertions |
| FreeList.StepInv | concurrentqueue.h:1459-1538 | every atomic step keeps each node owned, in one phase of being added, listed once, or being popped, with the right reference count and bit |
| FreeList.RunInv | concurrentqueue.h:1459-1538 | the same in every state of every run |
| FreeList.PoppedIsExclusive | concurrentqueue.h:1474-1515 | a node about to be returned is off the list and no other thread is about to return it |
| FreeList.NeverGivenTwice | concurrentqueue.h:1474-1515 | between two returns of one node somebody added it again |
| FreeList.NeverLost | concurrentqueue.h:1459-1472 | a node added and not yet returned is on the list, or a thread is bound to put it there |
| FreeList.Quiescent | concurrentqueue.h:1459-1538 | with all threads at rest every node is owned or on the list exactly once |
| FreeListCalls.NullStep | concurrentqueue.h:1474-1513 | a thread leaves `try_get` without a node only if the head that it read last was null |
| FreeListCalls.NullOnlyIfEmpty | concurrentqueue.h:1474-1513 | in every run, a `try_get` that returns null found the list empty at some moment of the call |
| FreeListCalls.LoneGet | concurrentqueue.h:1474-1513 | alone, `try_get` takes the first node off the list and hands it out; on an empty list it changes nothing |
| FreeListCalls.LoneAdd | concurrentqueue.h:1459-1538 | alone, `add` puts its node in front of the list |
| FreeListCalls.LastInFirstOut | concurrentqueue.h:1459-1538 | the node added last is given out next, and the list is as before |
| DequeueCounters.GrantsFit | concurrentqueue.h:2550-2565 | however stale the overcommit counts read, at most as many claims succeed as elements are published |
| DequeueCounters.DrawnIsPublished | concurrentqueue.h:2560-2575 | an index drawn from the head counter is below the tail |
| DequeueCounters.PublishInv | concurrentqueue.h:2487-2548 | publishing keeps the counters consistent |
| DequeueCounters.StepInv | concurrentqueue.h:2550-2619 | every atomic access of a consumer keeps the counters consistent |
| DequeueCounters.StepConserves | concurrentqueue.h:2550-2619 | every number given out is granted, rejected, or with the consumer that drew it |
| DequeueCounters.Quiescent | concurrentqueue.h:2550-2619 | at rest the optimistic count is the head plus the overcommit count |
| DequeueCounters.RefusedIff | concurrentqueue.h:2554-2556 | the first test refuses exactly if the elements seen are no more than the indices drawn, granted or wanted and the numbers rejected since |
| DequeueCounters.GrantedIf | concurrentqueue.h:2559-2561 | the second test refuses under contention only: not if elements are left beyond what others have or want |
| DequeueCounters.LoneDequeue | concurrentqueue.h:2550-2562 | alone and from rest, a consumer draws the index at the head if an element is published there, and else changes nothing |
| BlockQueue.ProduceInv | concurrentqueue.h:2487-2548 | every step of an enqueue keeps the invariant: getting a block, resetting it, storing it in the index, writing, publishing |
| BlockQueue.ConsumeInv | concurrentqueue.h:2550-2619 | every step of a dequeue keeps the invariant |
| BlockQueue.RunInv | concurrentqueue.h:2480-2619 | the invariant, and that nothing is lost, in every state of every run, refused enqueues included |
| BlockQueue.AlwaysDefined | concurrentqueue.h:2566-2600 | a consumer never reads an unwritten slot or looks up a missing block |
| BlockQueue.EveryReadIsRight | concurrentqueue.h:2566-2600 | the element that a consumer reads at an index is the argument of the enqueue of that number, and no two consumers read the same |
| BlockQueue.StoredIsOffered | concurrentqueue.h:2487-2548 | in every run the elements stored, and the one in hand, are the arguments of the enqueues that began, in order |
| BlockQueue.EmptiedOnce | concurrentqueue.h:1596-1611 | the last-element answer is given at most once for each block, and then all its elements are gone |
| BlockQueue.EmptiedAtLeastOnce | concurrentqueue.h:1596-1611 | once all elements of a block are gone, some consumer was given the answer |
| BlockQueue.EmptiedExactlyOnce | concurrentqueue.h:1596-1611 | for a block whose elements are all gone the answer was given by exactly one step of the run |
| BlockQueue.ConsumeTidy | concurrentqueue.h:2576-2600 | no drawn index is dropped, and no emptied block stays in the index without a consumer bound to remove it |
| BlockQueue.Quiescent | concurrentqueue.h:2550-2619 | at rest exactly the indices below the head are done, and each block in the index still has something to give |
| BlockQueueCalls.LoneEnqueue | concurrentqueue.h:2487-2548 | alone, an enqueue stores its argument in the slot of the tail and publishes it, in a new block at the start of one |
| BlockQueueCalls.LoneDequeue | concurrentqueue.h:2550-2600 | alone and from rest, a dequeue hands out the element at the head, and frees the block exactly if that was its last; without an element it changes nothing |
| BlockQueueCalls.RoundTrip | concurrentqueue.h:2487-2600 | what is enqueued on an empty queue is what the next dequeue hands out |
| Semaphore.StepInv | lightweightsemaphore.h:284-426 | every step keeps count = tokens - waiters and permits posted or owed = min(waiters, tokens) |
| Semaphore.RunInv | lightweightsemaphore.h:284-426 | both laws in every state of every run |
| Semaphore.NeverOverdrawn | lightweightsemaphore.h:363-396 | successful waits never exceed the initial count plus the signals |
| Semaphore.NoLostWakeup | lightweightsemaphore.h:415-424 | while a token and a waiter are left, a permit is posted or about to be |
| Semaphore.FailedWaitIsNeutral | lightweightsemaphore.h:296-318 | the rollback after a timeout takes back exactly the decrement |
| Semaphore.WaitOutcome | lightweightsemaphore.h:284-396 | a wait that ends has taken as many tokens as it wanted, or all the count showed; without any it ends only if the count was not positive |
| Semaphore.LoneTry | lightweightsemaphore.h:363-396 | alone, a wait takes what it wants at once if the count shows any |
| Semaphore.FallsAsleep | lightweightsemaphore.h:284-303 | with nothing there, a wait registers and sleeps |
| Semaphore.HandOver | lightweightsemaphore.h:300-303 | a token signalled to a sleeper is posted, and the sleeper leaves with it |
| Semaphore.TimeOut | lightweightsemaphore.h:304-318 | a sleeper whose time is up, and to whom nothing was signalled, leaves everything as it was |
| Semaphore.LateSignal | lightweightsemaphore.h:310-315 | a sleeper whose time is up while a token is handed to it takes the token |
| BoundedQueue.StepInv | queue.h:46-75 | every step keeps the account of permits, items and operations in flight |
| BoundedQueue.RunInv | queue.h:46-75 | the same in every state of every run |
| BoundedQueue.CapacityKept | queue.h:46-75 | the queue never holds more than its capacity, and the full account holds if and only if no permit was lost |
| BoundedQueue.TokenMeansItem | blockingconcurrentqueue.h:293-303 | a consumer that holds a token faces a non-empty inner queue |
| BoundedQueue.Quiescent | blockingconcurrentqueue.h:376-386 | at rest the item tokens are the items |
| BoundedQueueCalls.ItemsOfCalls | queue.h:46-75 | in every run, what enqueues were given is stored, on its way or lost with its place, and what was taken out is on its way or returned |
| BoundedQueueCalls.AtRest | queue.h:46-75 | at rest, what enqueues were given is in the queue, was returned, or was lost |
| BoundedQueueCalls.LoneEnqueue | queue.h:46-54 | alone, an enqueue adds its argument, one token and takes one place; without a place it waits |
| BoundedQueueCalls.LoneTryDequeue | queue.h:67-75 | alone, a `try_dequeue` takes an item and gives its place back, or changes nothing on an empty queue |
| BoundedQueueCalls.WaitEndsEmptyHanded | queue.h:56-65 | a waiting dequeue without an item has timed out and given its registration back |
| FileJobs.BlockSizeAligned | filejob.h:9-13 | which option values make every file's block size a positive multiple of the I/O alignment |
| FileJobs.BlockSizeMeaning | filejob.h:9-13 | between its two bounds, a block size is the least power of two not below half the file |
| FileJobs.BitCeilIsCeiling | filejob.h:9-13 | the rounding up is to the least power of two |
| FileJobs.BlockCountMeaning | filejob.h:15-19 | a block number is below the count exactly if the block starts inside the file |
| FileJobs.AlignUpLeast | filejob.h:21-23 | the least multiple of the alignment that is not smaller |
| FileJobs.PaddingStays | copy2.cpp:325-336 | padding stays inside the buffer for every length exactly if the block size is aligned |
| FileJobs.BlocksApart | copy2.cpp:261-270 | a whole block ends where a later one begins or before |
| SchedulerSpec.FirstIdle | copy2.cpp:517-533 | the first unused slot of a file, all earlier ones being in use |
| SchedulerInv.ChangeKeeps | copy2.cpp:188-408 | a legal change of one slot keeps all counters, buffers, queues and tickets of all files consistent |
| SchedulerInv.HeldChanged | copy2.cpp:193-205 | the memory accounted for changes by the buffer of the one slot |
| SchedulerSteps.PartBounds | copy2.cpp:325-336 | a block with its padding fits its buffer and the destination |
| SchedulerSteps.OtherParts | copy2.cpp:337-339 | a padded write leaves every other block of the destination alone |
| SchedulerSteps.SparseLocal | copy2.cpp:315-322 | skipping a block of zeros leaves the destination right |
| SchedulerSteps.WritingLocal | copy2.cpp:324-357 | padding the buffer keeps the bytes that were read |
| SchedulerSteps.WriteTail | copy2.cpp:325-336 | no stale bytes of the buffer end up behind the end of the file |
| SchedulerSteps.CompleteLocal | copy2.cpp:105-137 | whatever a request returns and leaves behind, the slot and its file stay consistent |
| SchedulerPasses.ScheduleKeeps | copy2.cpp:256-307 | starting a block keeps the invariant, with a reused buffer, a new one, or none |
| SchedulerPasses.ReleaseKeeps | copy2.cpp:388-389 | a block is finished once, under its own number |
| SchedulerPasses.UpdateBlockKeeps | copy2.cpp:309-410 | every branch of the block update keeps the invariant |
| SchedulerPasses.CompleteKeeps | copy2.cpp:105-137 | every report of the kernel keeps the invariant |
| SchedulerPasses.FailBatchKeeps | copy2.cpp:219-240 | refusing a whole batch keeps the invariant |
| SchedulerPasses.SubmitKeeps | copy2.cpp:214-254 | taking any part of the batch keeps the invariant |
| SchedulerPasses.FinishedFile | copy2.cpp:503-515 | when all blocks are counted, each number is finished and none is scheduled |
| SchedulerPasses.HandKeeps | copy2.cpp:503-515 | handing a file over leaves no slot, buffer or request of it |
| SchedulerPasses.AcceptKeeps | copy2.cpp:541-559 | a new job starts with a zeroed destination and a ticket of its own |
| SchedulerRuns.PassesKeep | copy2.cpp:475-559 | the three passes keep the invariant for all choices of the environment |
| SchedulerRuns.TurnIsDefined | copy2.cpp:475-570 | from every good state a turn can be taken |
| SchedulerRuns.RunInv | copy2.cpp:475-570 | the invariant in every state of every run |
| SchedulerRuns.RunDelivers | copy2.cpp:503-515 | in every run, every file handed over counts all its blocks and, if its requests were completed in full, holds its source followed by zeros, and its source after the final truncation |
| SchedulerRuns.HandedOverOnce | copy2.cpp:503-515 | an accepted job is either worked on or was handed over, and that only once |
| SchedulerRuns.ReadyIsQuiet | copy2.cpp:503-515 | a file ready to be handed over has no request in the batch or the kernel and no buffer |
| SchedulerRuns.IdleIsClean | copy2.cpp:563-565 | with no active file nothing is outstanding, no memory is held and all jobs were handed over |
| SchedulerRuns.BatchHasRoom | copy2.cpp:208-212 | batch and kernel together hold fewer requests than there are slots before one is added |
| SchedulerRuns.StartedIsNew | copy2.cpp:261-266 | a block starts under a number never issued before |
| SchedulerRuns.PaddedWritesStay | copy2.cpp:325-339 | a padded write stays in its buffer and destination and meets no other block |
| SchedulerRuns.ReadbackAgrees | copy2.cpp:376-387 | readback reports no mismatch for a block whose requests were completed in full |
| SchedulerRuns.DeliveredBlock | copy2.cpp:1150-1158 | after the final truncation such a block is right whatever happened to others |
| SchedulerRuns.DeliveredFile | copy2.cpp:1150-1158 | if all requests of a file were completed in full the destination is the source followed by zeros, the truncated one is the source, and no error is counted |
| SchedulerRuns.SilentFailure | copy2.cpp:401-407 | a run whose file is handed over without an error and differs from its source |
| SchedulerReports.ReportedStatus | copy2.cpp:105-137 | which results end a request as done and which leave it in progress |
| SchedulerReports.FailureEndsBlock | copy2.cpp:401-407 | after a failed request the block is over: its number finished, its buffer free, no request and no error added |
| SchedulerReports.ReadbackCounts | copy2.cpp:376-389 | a readback in full adds an error exactly if the hash of the destination's bytes is not the one kept, which is the source's if the source was read in full |
| SchedulerReports.ClearedForReadback | copy2.cpp:361-372 | the buffer is all zeros when a readback is submitted |
| SchedulerReports.NothingReadBack | copy2.cpp:376-389 | a readback of no bytes adds an error unless zeros have the hash that was kept |
| SchedulerReports.WrittenUnlessSparse | copy2.cpp:315-357 | a block that was read is written, unless it is all zeros and files are sparse |
| SchedulerReports.RunCounts | copy2.cpp:385-389 | in every run, the errors of a file handed over are the blocks that a refused batch gave up or whose readback brought other bytes |
| SchedulerReports.DifferenceIsReported | copy2.cpp:376-389 | in every run, a block read in full whose destination, read back in full, has another hash is counted as an error of the file that is handed over |
| SchedulerProgress.UpdateBlockWork | copy2.cpp:309-410 | looking at a block that has a result takes it on |
| SchedulerProgress.TurnWork | copy2.cpp:475-570 | a turn takes no work back, and does some if a file is active and it waits for no report |
| SchedulerProgress.ReportRemembersIff | copy2.cpp:105-137 | a report loses track of its block exactly if its result is `-EINPROGRESS` |
| SchedulerProgress.RunForgetsNothing | copy2.cpp:475-570 | in a run without that result, every request in progress is in the batch or with the kernel |
| SchedulerProgress.AllHandedOver | copy2.cpp:475-570 | whatever fails, the scheduler has handed every job over and rests before its reports, and the turns that wait for none, outnumber the work there was |
| SchedulerProgress.ForgottenForever | copy2.cpp:401-410 | a request that is lost track of stays so, and the scheduler never rests |
| Scheduler.CopyScheduler.constructor | copy2.cpp:153-186 | a new scheduler is empty and consistent |
| Scheduler.CopyScheduler.ClearBlockJob | copy2.cpp:188-206 | the slot is cleared and its buffer given back unless it is to be kept |
| Scheduler.CopyScheduler.SubmitDeferred | copy2.cpp:208-212 | appends to the batch, whose size bound is the precondition |
| Scheduler.CopyScheduler.SubmitBatchJobs | copy2.cpp:214-254 | the loop equals the specification of a batch that is refused, taken in part or taken |
| Scheduler.CopyScheduler.ScheduleBlockJob | copy2.cpp:256-307 | equals the specification, failed allocation and end of file included |
| Scheduler.CopyScheduler.UpdateBlockJob | copy2.cpp:309-410 | equals the specification in every branch and keeps the invariant |
| Scheduler.CopyScheduler.ClearFileJob | copy2.cpp:418-434 | equals the specification of clearing all slots of a file |
| Scheduler.CopyScheduler.Reported | copy2.cpp:105-137 | the callbacks equal the specification for every result |
| Scheduler.CopyScheduler.UpdateBlockJobs | copy2.cpp:475-493 | the nested loops equal one pass over all slots |
| Scheduler.CopyScheduler.UpdateFileJob | copy2.cpp:497-534 | hands a finished file over or starts one more block in the first unused slot |
| Scheduler.CopyScheduler.AcceptNewJobs | copy2.cpp:541-559 | fills free file slots in order from the queue until one of them runs out |
| Scheduler.CopyScheduler.Update | copy2.cpp:475-570 | one turn equals the specification; when it reports the end nothing is outstanding |
| XXH3Trace.StripeCall | xxhash.h:6652-6690 | stripe i is accumulated as call i + i / b, with the secret at 8 * (i % b), for blocks of b stripes |
| XXH3Trace.ScrambleCall | xxhash.h:6239-6242 | a scramble follows every b-th stripe, and there is no other call |
| XXH3Trace.RunIsReplay | xxhash.h:6227-6251 | a run over the stripes makes just these calls |
| XXH3Trace.ReferenceByRun | xxhash.h:6227-6258 | the hash of a long input is that of its calls with the last 64 bytes behind them, at their own part of the secret |
| XXH3Trace.RecordOfHash | xxhash.h:6399-6419 | a kernel that records its calls is given the trace of a long input, or a short input whole |
| XXH3Stream.AccumulateInBlock | xxhash.h:6652-6690 | accumulating stripes inside a block is that many steps of the reference run |
| XXH3Stream.ConsumeStripes | xxhash.h:6652-6690 | continues the reference run over data that begins and ends anywhere in a block |
| XXH3Stream.BlockCount | xxhash.h:6227-6251 | whole blocks and the last partial one hold all stripes before the last byte |
| XXH3Stream.HashLong | xxhash.h:6227-6258 | the one-shot loop computes the hash of the calls in closed form |
| XXH3Stream.Hash | xxhash.h:6399-6419 | up to 240 bytes the short hash of the input; above that the hash of the calls in closed form |
| XXH3Stream.FilledBuffer | xxhash.h:6740-6750 | a filled buffer is the next four stripes of the input |
| XXH3Stream.AfterDirect | xxhash.h:6752-6761 | long input is consumed where it lies, with its last stripe kept |
| XXH3Stream.CatchUp | xxhash.h:6817-6825 | the catch-up stripe, half old and half new buffer contents, is the last 64 bytes of the input |
| XXH3Stream.State.constructor | xxhash.h:6564-6592 | a reset state stands for the empty input |
| XXH3Stream.State.Update | xxhash.h:6698-6775 | afterwards the state stands for the input so far followed by the new bytes |
| XXH3Stream.State.DigestLong | xxhash.h:6795-6830 | the accumulators of the reference hash after the last stripe |
| XXH3Stream.State.Digest | xxhash.h:6833-6846 | the reference hash of everything given so far |
| XXH3Stream.HashInChunks | xxhash.h:6698-6846 | any chunking, with digests on the way, ends in the one-shot hash of the whole and of each prefix |
| MidlSort.StackHasRoom | liblmdb/midl.c:223-276 | a range to be split leaves room for two more entries on the 64-int stack |
| MidlSort.MedianOfThree | liblmdb/midl.c:245-255 | afterwards the three sentinels are in order and the range is permuted |
| MidlSort.Partition | liblmdb/midl.c:256-266 | the sentinel scans stay inside the range and split it around the pivot |
| MidlSort.Insert | liblmdb/midl.c:234-239 | one insertion keeps the order of what was inserted before, and everything outside the range, although its inner loop has no lower bound but the list start |
| MidlSort.InsertionSort | liblmdb/midl.c:232-240 | a short range is sorted although the inner loop runs to the start of the list |
| MidlSort.LongTurn | liblmdb/midl.c:244-277 | one split keeps the unsorted ranges on the stack disjoint, halving and fenced |
| MidlSort.Sort | liblmdb/midl.c:220-279 | the list becomes a descending permutation of itself for every int-sized list; the midpoint sum cannot overflow up to 2^30 + 3 IDs and does for a skewed list of any greater length; above that, once it has, the order is about an unbounded midpoint |
| MidlSort.SkewedList | liblmdb/midl.c:245-266 | there is a skewed list, whose first split leaves the last nine IDs as a range, of every length from 40 on |
| MidlLists.Search | liblmdb/midl.c:34-66 | a position of the ID, or the first smaller one if it is not there |
| MidlLists.PutFirst | liblmdb/midl.c:206-211 | the last of one list may go in front of the merged ones if the other list has none smaller |
| MidlLists.MergeInPlace | liblmdb/midl.c:201-213 | all IDs of both lists, descending if both were, and nothing past them touched |
| DirectoryHandles.StepInv | fdrcguard.h:21-60 | every step keeps each handle's count equal to its holders |
| DirectoryHandles.RunInv | fdrcguard.h:21-60 | the same in every state of every run |
| DirectoryHandles.OneJobThenOneClose | fdrcguard.h:33-60 | a directory's finish job is enqueued at most once and its descriptor closed at most once, after it |
| DirectoryHandles.JobComesLast | fdrcguard.h:37-53 | the finish job is enqueued only when everybody else has let go |
| DirectoryHandles.DropIsDefined | fdrcguard.h:33-36 | a guard never drops a handle that is gone |
| DirectoryHandles.AllClosedInTheEnd | fdrcguard.h:33-60 | once nobody holds a directory, every descriptor was closed, and each destination directory has had its job |
| DirectoryHandles.RunAttended | fdrcguard.h:33-60 | in every run, an open handle has a holder |
| DirectoryHandles.HolderMoves | fdrcguard.h:33-60 | every holder can take its next step |
| DirectoryHandles.LastOneEmits | fdrcguard.h:37-53 | the last holder of a destination directory hands it to its job, as the only holder |
| DirectoryHandles.LastOneCloses | fdrcguard.h:54-60 | the last holder of a directory that awaits no job closes it |
| FinishDrain.RunInv | copy2.cpp:1314-1333 | the invariant of crawler tasks, schedulers, processors and the bounded finish queue in every run |
| FinishDrain.QueueIsEmptyAtTheEnd | copy2.cpp:1314-1333 | when the last finish processor has left, all tasks and schedulers are done and the finish queue is empty |
| FinishDrain.NoSchedulerNoWait | copy2.cpp:1314-1333 | without a scheduler a run in which an item stays behind |
| FinishStuck.RunAccount | queue.h:46-75 | in every run places are free or filled and items enqueued or being processed; once a processor has left, there are not more items to come than processors |
| FinishStuck.StandsIff | copy2.cpp:1323-1331 | in every state of every run no processor can make a step exactly if all have left or the queue is full and each of them waits for a place in it |
| FinishStuck.NotAfterExit | copy2.cpp:1323-1331 | once one processor has left, the others never wait for a place for good |
| FinishStuck.StuckForever | fdrcguard.h:44-53 | from a stuck state on no processor moves and nothing is stored |
| FinishStuck.StuckNeeds | queue.h:46-49 | a stuck run has enqueued an item for every place and for every processor |
| FinishStuck.StuckReached | fdrcguard.h:44-53 | with one producer and one place there is a run that gets stuck with exactly that many items |
| FinishStuck.StuckIff | copy2.cpp:1608 | a run that enqueues at most n items can get stuck exactly if n is at least the capacity plus the number of processors, and there are a place and a producer |
| FinishStuck.LeavesWhenOver | copy2.cpp:1315-1331 | once all schedulers are done and nothing is signalled, a processor that looks again leaves when its wait times out |
| PathChain.EverythingIsLive | allocator.h:139-160 | with right counts every part is reached from some handle |
| PathChain.NothingLeaks | allocator.h:139-160 | with no handle left the store is empty |
| PathChain.SameBelow | allocator.h:139-160 | freeing parts that a handle does not reach leaves its text and its chain alone |
| PathChain.Store.Retain | allocator.h:135-136 | one more handle, nothing else |
| PathChain.Store.Append | allocator.cpp:347-385 | the new handle's text is the old text followed by both strings; all other texts stay |
| PathChain.Store.Release | allocator.h:139-160 | frees exactly the parts that are no longer reached from any handle |
| PathChain.Store.TextLength | allocator.cpp:396-412 | the length of the text from root to tip |
| PathChain.Store.FillBack | allocator.cpp:413-440 | filling from the back writes the text from root to tip |
| PathChain.Store.Memcpy | allocator.cpp:396-445 | the text and its terminator if they fit, else the size that is needed |
| PathChain.Store.MemcpyWithRealloc | allocator.cpp:326-345 | a buffer with the text and its terminator, for every initial size |
| PathReleases.StepInv | allocator.h:135-160 | every interleaving of decrements, frees, retains and new parts keeps each count equal to handles, parts built on it and decrements owed |
| PathReleases.RunInv | allocator.h:135-160 | the same in every state of every run |
| PathReleases.ReleaseIsDefined | allocator.h:143-159 | a decrement finds its part with a positive count, and the thread that brought it to zero finds the part until it frees it, so nothing is freed twice; it frees with the prefix that the part has |
| PathReleases.LoadFindsPartIff | allocator.h:145-159 | the load after a decrement finds its part in every continuation, while given handles are held, exactly if the decrement was the last, there is no other thread, or one of those handles reaches the part |
| PathReleases.LoadAfterFree | allocator.h:145-159 | a run of two threads in which one is to load from a part that the other has freed |
| PathReleases.JunkIsUnused | allocator.h:153-159 | whatever a load from a freed part yields, the state after it is the same |
| PathReleases.HeldTextStays | allocator.h:143-159 | the text of a held handle is not touched by what other threads release |
| PathReleases.AtRest | allocator.h:143-159 | with no release in progress exactly the parts that some handle reaches are there |
| PathReleases.NothingLeft | allocator.h:143-159 | when the last handle is released everything is freed |

## Left out

- Growing, shrinking and resizing of arenas, `buddy_realloc`, `buddy_walk`, range reservation, fragmentation, change tracking: not used by the copy program.
- `count_trailing_zeroes`: its table modulo 67 is not modelled; on powers of two it is represented by the bit length minus one. The population count table is represented by the sum of the bits.
- BuddyEmbed.BuddyInit: memory above 2^63 bytes is excluded; there `PowersOfTwo.CeilingPowerOfTwo` makes the effective size smaller than the memory, and no such memory can be mapped.
- ArenaCarving.CreateAllocator: a product of thread count and arena size that wraps is excluded (`ArenaCarving.ArenasInsideIff` says where the arenas would end), and so are mappings of more than half the address space. Failures of `mmap`, `open` and `ftruncate` are not modelled. For thread locks of more than 128 bytes the two bounds on the memory arena's size leave a range in between.
- MidlSort.Sort: once `wide` is true, the midpoint of the model is not the one that an overflowed int gives, so above 2^30 + 3 IDs the order is proved of the program only for lists that leave `wide` false.
- MidlLists.Search: the truncation of the list length to `unsigned` is not modelled.
- BlockQueue.ProduceInv: the slot of the index is found and filled in one step; elements are taken to be constructed without exceptions.
- Memory orderings weaker than sequential consistency, wrap-around of the queue's indices, the ring of block pointers behind a producer, the producer hash table, consumer tokens, bulk operations and exceptions of element constructors.
- BoundedQueue.CapacityKept: the inner queue is a multiset, not the block queue; a dequeue that scans producers is one step.
- Real time: timeouts may happen at any moment, and nothing is said about when a waiting thread proceeds.
- FinishDrain.QueueIsEmptyAtTheEnd: at least one scheduler is required; the handshake by which a scheduler finds the job queue empty for good is not modelled.
- FinishStuck.StuckIff: a place and its item move in one step, no permit is lost (`BoundedQueue` has both), and the semaphore that bounds open descriptors by the same option is not modelled; with small bounds the crawler may stop at that one first.
- SchedulerRuns.RunDelivers: the converse does not hold and is not stated; a request that failed may have left the right bytes. Equality is stated for block sizes that are positive multiples of the alignment.
- SchedulerProgress.AllHandedOver: no new jobs arrive, memory is granted, and `io_submit` does not return zero; how long the kernel takes is not modelled, and turns that wait for a report are not counted.
- The scheduler's memory counter is shared by several schedulers in the program; here it is one scheduler's part of it. A source file is taken not to change while it is copied, and the width of `jobno` is unbounded.
- The kernel copies a request's bytes at one moment, when it reports the request.
- `alignUp` clears low bits; it is represented by rounding down to a multiple, which is the same for the power of two it is called with.
- PathReleases.JunkIsUnused: a load from a freed part yields some value; that its memory might be gone altogether is not modelled.
- PathChain.Store.Release: runs by itself, so that it finds its part at every load; interleaved releases are the subject of `PathReleases`, where building a part is one step after its prefix has been retained.
- The lane arithmetic of XXH3, SIMD variants, secret generation from a seed, the 128-bit variant, the choice between seed and secret for short inputs: all are parameters of the hash.
- Hard-link state, LMDB transactions, directory crawling, removal of extra files, symbolic links, modes and times, system call wrappers, command line, logging.
