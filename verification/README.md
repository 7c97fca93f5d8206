# NaOS kernel: verified model

A Dafny model of the parts of the NaOS kernel whose correctness spans several functions or a whole
protocol, with proofs about every input, every run or every reachable state. Nothing here was executed; the
original is C++ and the model follows what its code does, branch by branch.

`dafny verify dfyconfig.toml` checks the whole project.

## What is modelled

**Capability tables and channels.** Each process has a table of handles to capabilities. A send takes a batch out of
the table, puts it in a bounded first-in-first-out message and either commits or restores it; a receive reserves handles,
fills them and commits the message. Endpoints travel inside messages, so channels form a graph that a
mark-and-sweep collector prunes.

- `CapabilityTable` (operations as functions), `CapabilityLaws` (what they keep and undo), `TableRuns` (all runs of one
  table with any number of transfers in progress), `ResourceTable` (the mutable table).
- `BoundedQueue` (the ring with a claimed head), `QueueRuns` (all interleavings on one side of a channel).
- `Channel` (queues and budgets, functions and mutable objects), `Transfer` (send and receive), `ChannelCalls` (the two
  calls step by step).
- `CapabilityBags`, `IpcState`, `IpcCalls`, `IpcTransfers`, `IpcRuns`: all tables, channels and budgets together, one step per
  system call. `IpcDelivery` says where messages go, `IpcLedger` which holders each call makes and ends. `Bags` holds sums and multiset unions over maps, `Options` the optional value.
- `ChannelHeap`, `Collector`, `ChannelRegistry`: the collector; `IpcCollection` applies it to the state any run of
  system calls can reach.
- `OwnerCounts`: owner and root counters, one step per callback, any number of threads.

**Page tables.** Four-level page tables (section 4.5 of the Intel 64 and IA-32 Architectures Software Developer's Manual,
Volume 3A) with shared sub-tables, reference counts and present-entry counters, as a store that refines a plain map from page
to frame: `PagingStore`, `PagingMap`, `PagingSharing` (which tables one request leaves shared), `PagingFork` (forking a space),
`PagingUnmap`, `PagingCoverage`, `PagingCounters` (the counters of roots), `PagingProtection` (flags, and copy on write over all
runs), and the mutable `PageTables`.

**Small concurrent protocols**, as step systems over any number of CPUs or threads: `Tasklets`, `CallRing` and
`InputPublisher`.

**Sessions and controlling terminals**: `JobControl` (operations as functions), `JobControlRuns` (all runs),
`JobControlEffects` (what each operation leaves of everything), `JobControlTable` (the mutable tables).

## Where the code does not do what one would expect

Each of these is stated in both directions, with the condition under which the expected property holds.

- A send whose message exceeds the channel's own limits is refused after its capabilities have left the table, without
  putting them back (`channel.cc:278-282`). A refused send changes nothing exactly when the message fits the limits or moves nothing
  (`Transfer.RefusedSendIsHarmless`), and a table's count is exact exactly when no taken batch was dropped
  (`TableRuns.CountIsExact`, `TableRuns.ExactUnlessDropped`).
- Mapping a page read-only without the copy-all action may leave a table on the way to it shared, so another address space sees
  the new frame. For every valid store, the other space keeps its translation exactly when the mapping is writable, copies all,
  brings the frame already there, or no table that both walks visit goes uncopied
  (`PagingSharing.PageIsolationExactly`). After a fork that is the case for every inherited page (`PagingFork.ForkedPageIsolation`).
- `clone_readonly_to` does not advance past an absent root entry. A fork inherits exactly the pages of the leading run of
  present root entries, so the child equals the parent exactly when every root entry up to the last mapped page is present
  (`PagingFork.ForkCopiesExactly`). `PagingFork.ForkWitnesses` gives a fork that loses a page and a fork after which a read-only mapping
  shows up in the other space.
- `unmap` never lowers the counter of a root. It keeps an exact one exact if and only if the page was not the last one of
  all three of its tables (`PagingCounters.UnmapKeepsExactly`), and the assertion in `ensure_single` holds at a root if and
  only if its counter is exact (`PagingCounters.EnsureAssertsExactly`).
- `unmap` counts more pages than it steps over when it skips a missing table, and goes on with a stale root entry. It removes every
  page of the range, whatever the tables look like, exactly when the range lies within one 1 GiB region
  (`PagingCoverage.UnmapCoversExactly`). It never touches a page outside the range.
- A fork inserts its copy of an entry before it counts it. In that window the count of a held object reads zero exactly when every
  holder there was before the fork goes before the copy is counted (`OwnerCounts.ForkWindowExact`); a terminal can be hung up
  that way while the child holds its control (`OwnerCounts.ForkMayHangUp`). A raw channel endpoint is never copied, and its
  count is at least the number of its holders at every callback of every run (`OwnerCounts.NeverZeroWhileHeld`).
- The collector does not take the kernel's own holds for roots. A pass leaves exactly the channels reachable from the tables and
  those the kernel holds an end of, the latter emptied (`IpcCollection.OrphansAreCollected`).
- Attaching a terminal looks for a rival session and uses 0 for "none", so a session numbered 0 is never made to give its
  terminal up. An attach keeps one session per terminal exactly when the terminal is not held by session 0
  or the caller is in session 0 (`JobControlRuns.AttachTies`).

## Model

| member | source | states |
|---|---|---|
| PagingStore.UnshareValid | naos/src/kernel/arch/paging.cc:75-123 | splitting a shared sub-table keeps every reference count equal to the entries pointing at the table, every counter equal to its present entries, and the tree well linked |
| PagingStore.SplitLookup | naos/src/kernel/arch/paging.cc:75-123 | splitting a sub-table changes no translation of any table in the store |
| PagingStore.ShareEntryKeeps | naos/src/kernel/arch/paging.cc:75-123 | the three outcomes (left shared, already private, copied) keep the store valid and every address space's translations |
| PagingStore.EnsureSingleKeeps | naos/src/kernel/arch/paging.cc:754-784 | creating or privatising one entry on the path keeps the store valid and every translation of every address space |
| PagingMap.EnsureTranslates | naos/src/kernel/arch/paging.cc:786-801 | after ensuring a path the leaf table exists, the store is valid and no address space translates any page differently |
| PagingMap.EnsureUnshares | naos/src/kernel/arch/paging.cc:786-801 | when the mapping is writable or copies all, every table on the path has exactly one parent: nothing on it is shared any more |
| PagingMap.WriteLeafSeen | naos/src/kernel/arch/paging.cc:442-473 | writing a leaf changes page v of exactly the address spaces that reach the same leaf table, and nothing else |
| PagingMap.MapToRefines | naos/src/kernel/arch/paging.cc:442-473 | mapping a run of pages overrides exactly those pages of the plain map, in order and across every index carry, with any flags |
| PagingMap.MapToIsolates | naos/src/kernel/arch/paging.cc:442-473 | a writable or copy-all mapping leaves every translation of every other address space as it was |
| PagingSharing.StepWalks | naos/src/kernel/arch/paging.cc:754-784 | one step of `ensure` leads exactly the walks that pass its entry to a new table, if it makes one, and no other walk of any space anywhere else |
| PagingSharing.LeafStaysShared | naos/src/kernel/arch/paging.cc:786-801 | a read-only request ends in a leaf table the other space walks to as well, if and only if both walked to a common table that none of its steps copied |
| PagingSharing.PageIsolationExactly | naos/src/kernel/arch/paging.cc:75-123 | for every valid store, another space keeps a translation if and only if it is of another page, or the mapping is writable, copies all, brings the frame already there, or leaves no table on both walks uncopied |
| PagingSharing.MapToOwns | naos/src/kernel/arch/paging.cc:442-473 | after a writable or copy-all mapping every page of the range is reached through tables of its space alone, and so is every page that was before |
| PagingFork.CloneValid | naos/src/kernel/arch/paging.cc:888-906 | sharing one root entry keeps every reference count, counter and link right |
| PagingFork.ForkCopiesExactly | naos/src/kernel/arch/paging.cc:879-909 | a fork keeps every translation of every existing space; the new one equals the old one if and only if every root entry up to each mapped page is present |
| PagingFork.ForkedPageIsolation | naos/src/kernel/arch/paging.cc:879-909 | after a fork, mapping an inherited page in either space is kept from the other if and only if the mapping is writable, copies all or brings the frame that was there |
| PagingFork.ForkWitnesses | naos/src/kernel/arch/paging.cc:879-909 | concrete forks: one that does not inherit a mapped page, one after which a read-only mapping of the new space changes the old one |
| PagingFork.NewSpaceBlank | naos/src/kernel/arch/paging.cc:334-338 | a new root disturbs no space and is ready to be forked into |
| PagingFork.CloneFlags | naos/src/kernel/arch/paging.cc:888-906 | the old root's entries of the leading run lose write access and nothing else; all others are as they were |
| PagingProtection.BothCopiesReadOnly | naos/src/kernel/arch/paging.cc:99-121 | after a split the old and the new copy have the same present entries, each leading where it did and holding exactly the requested flags less write access |
| PagingProtection.StepPrivate | naos/src/kernel/arch/paging.cc:754-784 | one step keeps it that an entry that grants write access is the only reference to its table |
| PagingProtection.WritableIsUnshared | naos/src/kernel/arch/paging.cc:75-123 | after every run of new spaces, mappings, removals and forks, an entry above the leaf level that grants write access is the only one that leads to its table |
| PagingProtection.WritersAreAlone | naos/src/kernel/arch/paging.cc:75-123 | so, after every run, where the tables let a space write, no other space's walk of any page ends in the same leaf table |
| PagingProtection.MapToWrites | naos/src/kernel/arch/paging.cc:466-471 | every page of a mapped range ends with exactly its frame and the flags asked for |
| PagingProtection.MapToOpens | naos/src/kernel/arch/paging.cc:442-473 | after a writable mapping every entry on the way to each page grants write access, through tables of that space alone |
| PagingProtection.MergedGrants | naos/src/kernel/arch/paging.cc:762-768 | flag by flag, what a rewritten entry grants: never accessed or dirty, all that was asked for, and what it held exactly if something asked for was missing and the request overrides or copies on write |
| PagingProtection.StepFlags | naos/src/kernel/arch/paging.cc:754-784 | which of its three possible sets of flags a step leaves in its entry |
| PagingProtection.UnmapRootFlags | naos/src/kernel/arch/paging.cc:668-671 | the root entry on the way to a page about to be removed gets the page's flags merged in |
| PagingUnmap.UnmapPageRemoves | naos/src/kernel/arch/paging.cc:581-752 | unmapping one page removes exactly that translation of that space, keeps all other spaces, and keeps counters and reference counts exact |
| PagingUnmap.UnmapPageFrees | naos/src/kernel/arch/paging.cc:581-752 | the tables freed are exactly those on the path whose last present entry went |
| PagingCoverage.UnmapStaysInRange | naos/src/kernel/arch/paging.cc:581-752 | unmap keeps the store valid and removes no translation outside the requested range |
| PagingCoverage.RegionCovered | naos/src/kernel/arch/paging.cc:581-752 | every page of a range within one 1 GiB region is gone afterwards |
| PagingCoverage.CrossingMisses | naos/src/kernel/arch/paging.cc:581-752 | for every range that crosses a region there is a valid store in which a page of the range survives |
| PagingCoverage.UnmapCoversExactly | naos/src/kernel/arch/paging.cc:581-752 | unmap clears the range in every valid store if and only if the range is empty or within one region |
| PagingCounters.MapKeepsRootCounters | naos/src/kernel/arch/paging.cc:442-473 | mapping keeps the counter of every root as far from its present entries as it was |
| PagingCounters.CloneKeepsRootCounters | naos/src/kernel/arch/paging.cc:879-909 | so does a fork, for both roots |
| PagingCounters.UnmapMovesRootCounter | naos/src/kernel/arch/paging.cc:691-719 | removing a page lets its root's counter run ahead by one if it frees the root's table, and touches no other root |
| PagingCounters.UnmapFreesRootTable | naos/src/kernel/arch/paging.cc:691-719 | it frees the root's table if and only if the page was the last one of all three tables on its path, shared or not |
| PagingCounters.UnmapKeepsExactly | naos/src/kernel/arch/paging.cc:691-719 | an exact root counter stays exact if and only if the page was not the last one; otherwise mapping there again fails the assertion |
| PagingCounters.EnsureAssertsExactly | naos/src/kernel/arch/paging.cc:771-781 | the assertion holds at every table below a root, and at a root if and only if its counter is exact |
| PagingCounters.LoneIsLast | naos/src/kernel/arch/paging.cc:691-719 | a concrete store in which removing a page leaves the root counter wrong |
| PageTables.Unpacked | naos/includes/kernel/arch/paging.hpp:245-262 | unpacking a packed index gives back the four indices |
| PageTables.Repacked | naos/includes/kernel/arch/paging.hpp:245-262 | packing the four indices of a page number gives back the page number |
| PageTables.NormalizeIndex | naos/includes/kernel/arch/paging.hpp:310-335 | carries overflowed indices upward without changing the page they name, and reports exactly whether it carried |
| PageTables.PhysicalMemory.CopyTable | naos/src/kernel/arch/paging.cc:84-116 | the copy loop makes both tables read-only, copies the counter and takes one reference per present child |
| PageTables.PhysicalMemory.SharePageEntry | naos/src/kernel/arch/paging.cc:75-123 | in-place code meets its specification; reports a copy exactly when the table was shared and the mapping demands a private one |
| PageTables.PhysicalMemory.EnsureSingleEntry | naos/src/kernel/arch/paging.cc:754-784 | in place, creates or privatises one entry, keeps the store valid and every translation of every address space |
| PageTables.PhysicalMemory.EnsurePath | naos/src/kernel/arch/paging.cc:786-801 | the three steps down the path meet the specification proved to unshare it |
| PageTables.PhysicalMemory.GetMap | naos/src/kernel/arch/paging.cc:841-877 | the four-step walk computes the plain meaning of the tables |
| PageTables.PhysicalMemory.MapPagesTo | naos/src/kernel/arch/paging.cc:442-473 | the loop over four running indices meets the specification that refines the plain map |
| PageTables.PhysicalMemory.MapPages | naos/src/kernel/arch/paging.cc:378-440 | succeeds if and only if every page of the range that is mapped may be overridden and every other is not asked to be copied on write; on success maps exactly the given frames |
| PageTables.PhysicalMemory.FreeIfEmpty | naos/src/kernel/arch/paging.cc:691-719 | frees the table exactly when its counter is zero, no other table, and keeps the store valid and every translation |
| PageTables.PhysicalMemory.UnmapOne | naos/src/kernel/arch/paging.cc:664-719 | in-place removal of one page meets its specification |
| PageTables.PhysicalMemory.UnmapPages | naos/src/kernel/arch/paging.cc:581-752 | the loop with its skips and its stale root entry meets the specification used for the range results |
| PageTables.PhysicalMemory.CloneReadonlyTo | naos/src/kernel/arch/paging.cc:879-909 | the loop, which looks at an absent root entry again in every later round, meets the specification used for the fork results |
| Collector.CollectSafe | naos/src/kernel/ipc/channel.cc:1235-1296 | a collection touches no reachable state, empties both queues of every other, deletes only states no endpoint object points at, and drops exactly the references held by discarded messages |
| Collector.CollectExactly | naos/src/kernel/ipc/channel.cc:1235-1296 | for every sound heap one pass leaves exactly the reachable states and those an endpoint of which is held outside unreachable messages |
| Collector.BusyIsKept | naos/src/kernel/ipc/channel.cc:540-544 | a state with a root on either side, a call in progress or a claimed message is kept with both its queues |
| Collector.MessagesKeptExactly | naos/src/kernel/ipc/channel.cc:1251-1281 | a state keeps its messages if and only if a trail of queued endpoints leads to it from one in use; any other that is kept has lost them all |
| Collector.GarbageHoldsGarbage | naos/src/kernel/ipc/channel.cc:1235-1296 | an endpoint of an unreachable channel sits in a message of an unreachable channel |
| Collector.CollectComplete | naos/src/kernel/ipc/channel.cc:1235-1296 | when each endpoint is in a table or in exactly one message, the surviving states are exactly the reachable ones, cycles included |
| ChannelHeap.DropAllCounts | naos/src/kernel/ipc/channel.cc:604-617 | destroying resources takes away exactly their references and keeps each state's count of endpoint objects |
| ChannelRegistry.ContainsState | naos/src/kernel/ipc/channel.cc:148-160 | finds an index of the state if and only if it is listed |
| ChannelRegistry.Registry.CollectReachableStates | naos/src/kernel/ipc/channel.cc:546-569 | lists exactly the states whose endpoints the channel's messages carry |
| ChannelRegistry.Registry.DiscardOrphanMessages | naos/src/kernel/ipc/channel.cc:571-597 | empties both queues and destroys what the messages held |
| ChannelRegistry.Registry.Mark | naos/src/kernel/ipc/channel.cc:1251-1274 | the growing work list terminates and marks a state if and only if it is reachable |
| ChannelRegistry.Registry.CollectOrphanedChannels | naos/src/kernel/ipc/channel.cc:1235-1296 | the in-place mark and sweep meets the specification that is proved safe and complete |
| IpcCollection.HeldBack | naos/src/kernel/ipc/channel.cc:535-544 | in a reachable system state an unreachable channel is held back if and only if the kernel itself holds an end of it |
| IpcCollection.OrphansAreCollected | naos/src/kernel/ipc/channel.cc:1235-1296 | after every run of system calls one collection leaves exactly the channels reachable from the processes' tables and those the kernel holds an end of |
| CapabilityLaws.DuplicateIsExact | naos/src/kernel/resource.cc:203-238 | a duplicate succeeds if and only if a sharable object is held with the duplicate and the requested rights and there is room; it then adds one fresh handle with exactly those rights, and otherwise changes nothing |
| CapabilityLaws.RestrictIsAtomic | naos/src/kernel/resource.cc:240-343 | a two-phase restrict either replaces the source by a weaker capability to the same object under a new handle, or leaves all entries as they were |
| CapabilityLaws.RestrictIsExact | naos/src/kernel/resource.cc:240-343 | when a restrict succeeds, in both directions, and that each requested field has the requested value and every other is unchanged |
| CapabilityLaws.MayRestrictExactly | naos/src/kernel/resource.cc:255-281 | a restriction is allowed if and only if what it asks for is no stronger than what is there |
| CapabilityLaws.OwnValuesAreGranted | naos/src/kernel/resource.cc:240-343 | one that asks for the values an entry has is always granted when there is room |
| CapabilityLaws.HandleCallsTell | naos/src/kernel/resource.cc:183-343 | the answer to a close, a duplicate and a restrict: what is wrong with the handle, the authority behind it, or the room |
| CapabilityLaws.FailedReserveBurns | naos/src/kernel/resource.cc:70-100 | a reservation that fails half-way has used up as many handles as there was room for, and changed nothing else |
| CapabilityLaws.ReserveIsAtomic | naos/src/kernel/resource.cc:70-100 | a reservation yields consecutive fresh handles, or leaves entries and count untouched |
| CapabilityLaws.ReserveEachShape | naos/src/kernel/resource.cc:70-100 | a reservation succeeds if and only if both the entry limit and the handle space have room for all of it |
| CapabilityLaws.ActivateFills | naos/src/kernel/resource.cc:102-125 | filling reserved handles never fails and installs exactly the batch |
| CapabilityLaws.ReserveRollback | naos/src/kernel/resource.cc:127-139 | rolling a reservation back gives the table back, handle counter aside |
| CapabilityLaws.TakeSucceedsExactly | naos/src/kernel/resource.cc:427-463 | a batch is taken if and only if it is small enough, names no handle twice and every part, judged alone, may be sent |
| CapabilityLaws.CheckTells | naos/src/kernel/resource.cc:427-463 | what is wrong with a refused disposition: the request, the handle, or else the authority, each in both directions |
| CapabilityLaws.TakeTells | naos/src/kernel/resource.cc:404-463 | a refused batch is answered with what is wrong with its first refused part |
| CapabilityLaws.TakenRecord | naos/src/kernel/resource.cc:450-463 | a record travels with exactly the requested meta rights, all of them when none are named, and otherwise the authority of its entry |
| CapabilityLaws.TakeShape | naos/src/kernel/resource.cc:404-510 | a take detaches exactly the moved handles, never the target; each record holds the whole original entry and travels with no more authority, and only sharable objects are copied |
| CapabilityLaws.TakeRestore | naos/src/kernel/resource.cc:512-556 | take then restore is the identity, with the unreduced rights |
| CapabilityLaws.RestoreSucceeds | naos/src/kernel/resource.cc:512-556 | whatever happened to the table meanwhile, an unfinished batch can be restored, each handle naming its original entry |
| CapabilityLaws.CommitValid | naos/src/kernel/resource.cc:558-570 | a commit takes exactly the moved entries off the count |
| CapabilityLaws.ForkIsSafe | naos/src/kernel/resource.cc:345-402 | cloning into a fresh table succeeds, gives a valid table and never copies a raw channel endpoint |
| CapabilityLaws.ForkInheritsExactly | naos/src/kernel/resource.cc:357-400 | entry by entry, in both directions: active kernel views and client ends with the duplicate right, and client ends of terminals in any case, are inherited unchanged under their handles; nothing else is |
| CapabilityLaws.RestoreTells | naos/src/kernel/resource.cc:512-556 | a batch is put back if and only if each moved entry's handle is free; otherwise nothing is |
| CapabilityLaws.TargetsTell | naos/src/kernel/resource.cc:102-125 | only a table that counts no entry can be forked into, and only reserved handles can be filled |
| TableRuns.CountIsExact | naos/src/kernel/resource.cc:23-31 | over every run the count is the mapped entries plus detached and dropped ones, at most 4096, and no handle is given out twice |
| TableRuns.AlwaysRestorable | naos/src/kernel/resource.cc:512-556 | in every reachable state, with any number of transfers open, each open batch can be restored exactly |
| TableRuns.ExactUnlessDropped | naos/src/kernel/ipc/channel.cc:275-282 | over every run the count equals mapped plus detached entries if and only if no operation dropped a batch that had moved something |
| ResourceTable.ResourceTable.InstallNative | naos/src/kernel/resource.cc:44-68 | adds one entry under a handle never given out before, refused without effect exactly when the table is full or out of handles; keeps the table valid |
| ResourceTable.ResourceTable.ReserveNative | naos/src/kernel/resource.cc:70-100 | the loop with its roll-back meets the specification proved atomic |
| ResourceTable.ResourceTable.RollbackNative | naos/src/kernel/resource.cc:127-139 | the loop removes exactly the handles still reserved |
| ResourceTable.ResourceTable.CloseNative | naos/src/kernel/resource.cc:183-201 | succeeds exactly for a handle that can be looked up, removes that entry alone and its handle for good; keeps the table valid |
| ResourceTable.ResourceTable.DuplicateNative | naos/src/kernel/resource.cc:203-238 | when it succeeds, in both directions; then one fresh handle names the same object with no more authority, otherwise nothing changes |
| ResourceTable.ResourceTable.RestrictHandle | naos/src/kernel/syscall/channel.cc:150-182 | the call as a whole: when it succeeds, in both directions; then the source handle is gone and a fresh one names the same object with no more authority, otherwise every entry is as it was, also when the new handle cannot be written |
| ResourceTable.ResourceTable.CloneForkBindings | naos/src/kernel/resource.cc:345-402 | the loop over the parent's entries copies exactly the inheritable ones |
| ResourceTable.ResourceTable.Judge | naos/src/kernel/resource.cc:427-463 | gives the verdict on one disposition, duplicates within the batch included |
| ResourceTable.ResourceTable.TakeNativeBatch | naos/src/kernel/resource.cc:404-510 | validates the whole batch before touching the table, reports its first error, and never meets a missing node when it detaches |
| ResourceTable.ResourceTable.RestoreNativeBatch | naos/src/kernel/resource.cc:512-556 | checks all records before attaching any; meets the specification proved to undo a take |
| ResourceTable.ResourceTable.CommitNativeBatch | naos/src/kernel/resource.cc:558-570 | the loop takes one off the count per moved record, in 64-bit arithmetic |
| BoundedQueue.Queue.TryPush | naos/includes/kernel/ipc/bounded_queue.hpp:29-39 | appends if and only if there is room |
| BoundedQueue.Queue.ClaimFront | naos/includes/kernel/ipc/bounded_queue.hpp:41-48 | claims if and only if there is an unclaimed head |
| BoundedQueue.Queue.Remove | naos/includes/kernel/ipc/bounded_queue.hpp:56-75 | takes out the first match, unless absent or the claimed head, and keeps the order of the rest through the ring's wrap-around |
| BoundedQueue.Queue.CommitClaim | naos/includes/kernel/ipc/bounded_queue.hpp:85-93 | drops the head if and only if it was claimed |
| QueueRuns.ExactlyOnce | naos/src/kernel/ipc/channel.cc:420-495 | in every interleaving the consumed and queued messages are the sent ones, each once and in order, less the removed ones |
| QueueRuns.FirstInFirstOut | naos/src/kernel/ipc/channel.cc:420-495 | without removals, sent equals consumed followed by queued |
| QueueRuns.ClaimExcludes | naos/src/kernel/ipc/channel.cc:420-453 | until the holder of a claim commits or cancels, nobody consumes anything and its head stays the same |
| QueueRuns.CommitSucceeds | naos/src/kernel/ipc/channel.cc:455-475 | in every reachable state a holder's commit succeeds and consumes exactly the claimed message |
| QueueRuns.CallsAct | naos/includes/kernel/ipc/bounded_queue.hpp:29-93 | which sends, claims, discards and removals are granted, in both directions, and what they do |
| Channel.PushKeeps | naos/src/kernel/ipc/channel.cc:284-348 | queueing keeps totals exact and within the channel's limits and charges the global counters exactly, or changes nothing |
| Channel.PushTells | naos/src/kernel/ipc/channel.cc:284-316 | a message is refused because the peer has no owner, because the queue is full, or else because a kernel-wide budget is, each in both directions |
| Channel.ClaimTells | naos/src/kernel/ipc/channel.cc:420-434 | an empty queue is answered by whether the peer has an owner; a claimed head has to be waited for |
| Channel.LimitsChosen | naos/src/kernel/ipc/channel.cc:654-705 | each limit is the one asked for or its default; a channel is refused if and only if one is too high |
| Channel.PopKeeps | naos/src/kernel/ipc/channel.cc:455-495 | taking the head out keeps totals exact and no counter underflows |
| Channel.DrainKeeps | naos/src/kernel/ipc/channel.cc:571-597 | emptying a queue gives back exactly what it held |
| Channel.Budgets.Reserve | naos/src/kernel/ipc/channel.cc:25-61 | reserves all three counters or none, giving back what a half-way failure had taken |
| Channel.ReceiveQueue.Enqueue | naos/src/kernel/ipc/channel.cc:351-418 | in-place code meets its specification and keeps totals and budgets consistent |
| Channel.ReceiveQueue.Claim | naos/src/kernel/ipc/channel.cc:420-434 | claims the head or tells an empty queue from a closed peer |
| Channel.ReceiveQueue.Commit | naos/src/kernel/ipc/channel.cc:455-475 | consumes the message if and only if it is the claimed head |
| Channel.ReceiveQueue.DiscardHead | naos/src/kernel/ipc/channel.cc:477-495 | drops an unclaimed head and releases its budget |
| Channel.ReceiveQueue.DiscardAll | naos/src/kernel/ipc/channel.cc:571-597 | drops every message of an unclaimed queue, in order |
| Transfer.SendAllOrNothing | naos/src/kernel/ipc/channel.cc:284-348 | a message that fits is sent whole, moving exactly the MOVE handles, or leaves table, queue and budgets identical |
| Transfer.SendSucceedsExactly | naos/src/kernel/ipc/channel.cc:275-349 | a send succeeds if and only if frame and batch are in order, the peer is open, and queue and global budgets have room |
| Transfer.SendTells | naos/src/kernel/ipc/channel.cc:284-316 | a send in order fails because the peer has no owner, the queue is full or a budget is, each in both directions |
| Transfer.SendRefusals | naos/src/kernel/ipc/channel.cc:275-282 | the answers to a frame too large, a batch that cannot be taken, and a message too large for the channel |
| Transfer.UnfitSendLoses | naos/src/kernel/ipc/channel.cc:275-282 | a message that does not fit is refused with its moved capabilities gone and still counted |
| Transfer.RefusedSendIsHarmless | naos/src/kernel/ipc/channel.cc:275-282 | a refused send changes nothing if and only if the message fits the channel's limits or moves nothing |
| Transfer.ReceiveAllOrNothing | naos/src/kernel/ipc/channel.cc:890-1078 | either the head's resources are all active under new handles and the message is consumed, or only the handle counter changed and the same head is unclaimed |
| Transfer.ReceiveSucceedsExactly | naos/src/kernel/ipc/channel.cc:890-1078 | a receive succeeds if and only if an unclaimed message fits the frame, the caller's memory is sound and the table has room for every resource |
| Transfer.ReceiveTells | naos/src/kernel/ipc/channel.cc:420-434 | a receive from an empty queue changes nothing and tells an open peer from one that is gone |
| Transfer.ReceiveRefusals | naos/src/kernel/ipc/channel.cc:890-1007 | the answers of a receive that finds a message but cannot deliver it |
| ChannelCalls.Send | naos/src/kernel/ipc/channel.cc:731-818 | the call over the mutable table and queue meets the send specification |
| ChannelCalls.EnqueueBatch | naos/src/kernel/ipc/channel.cc:275-349 | queues and commits, or restores, or returns early with the batch lost |
| ChannelCalls.Receive | naos/src/kernel/ipc/channel.cc:890-1078 | the call meets the receive specification; its activate-failed and commit-failed branches are unreachable |
| CapabilityBags.DetachBag | naos/src/kernel/resource.cc:470-489 | detaching a batch takes exactly the moved objects out of the table |
| CapabilityBags.FillBag | naos/src/kernel/resource.cc:102-125 | receiving a batch adds exactly its objects |
| IpcCalls.DuplicateTable | naos/src/kernel/resource.cc:203-238 | a duplicate adds no raw endpoint and no authority beyond its source |
| IpcCalls.RestrictTable | naos/src/kernel/resource.cc:240-343 | a restrict keeps the holders of every raw endpoint and adds no authority |
| IpcTransfers.SendKeeps | naos/src/kernel/ipc/channel.cc:731-818 | a send keeps all system invariants, and one that fits neither makes nor loses a raw endpoint |
| IpcTransfers.ReceiveKeeps | naos/src/kernel/ipc/channel.cc:890-1007 | a receive keeps all system invariants and conserves raw endpoints |
| IpcTransfers.DiscardKeeps | naos/src/kernel/ipc/channel.cc:1080-1102 | a discard keeps all system invariants |
| IpcRuns.CreateKeeps | naos/src/kernel/syscall/channel.cc:184-252 | creating a channel keeps all system invariants and grants no authority beyond the two ends |
| IpcRuns.CreateHolds | naos/src/kernel/syscall/channel.cc:184-252 | when a channel is made, in both directions; each of its ends gains one holder, or none when the handles cannot be written, and every other endpoint keeps its holders |
| IpcRuns.CreatedEnds | naos/src/kernel/syscall/channel.cc:184-252 | the two new handles name the two ends, in order, transferable and not duplicable; the channel is empty with the limits chosen; nothing else changed |
| IpcRuns.ForkKeeps | naos/src/kernel/resource.cc:345-402 | a fork keeps raw endpoints linear although it copies unique entries of other kinds |
| IpcRuns.EndpointsStayLinear | naos/src/kernel/resource.cc:203-343 | over every run of system calls a raw endpoint never has two holders across all tables and messages |
| IpcRuns.AuthorityOnlyShrinks | naos/src/kernel/resource.cc:203-489 | every capability at the end of a run descends from one at its start, or one the kernel granted, with subset rights and features, no larger revision and the same scope |
| IpcRuns.BudgetsAreConserved | naos/src/kernel/ipc/channel.cc:25-68 | in every reachable state queue totals are sums over messages, global counters are sums over channels, and all are within limits |
| IpcRuns.TransfersConserve | naos/src/kernel/ipc/channel.cc:731-1007 | in every reachable state a fitting send or a receive moves raw endpoints between holders without making or losing any |
| IpcDelivery.SendCrosses | naos/src/kernel/ipc/channel.cc:284-316 | a send through one end leaves that end's own queue alone and appends exactly the message to the other's, if and only if it is in order and the other end has an owner |
| IpcDelivery.KernelSendCrosses | naos/src/kernel/ipc/channel.cc:351-418 | the same for the kernel's own messages |
| IpcDelivery.ReceiveTakesHead | naos/src/kernel/ipc/channel.cc:420-475 | a receive at one end leaves the other's queue alone and hands over exactly the head of its own, payload and capabilities, or leaves it |
| IpcDelivery.SentIsReceived | naos/src/kernel/ipc/channel.cc:731-1007 | a message sent through one end of an idle channel arrives whole at the first receive at the other end that has room for it |
| IpcDelivery.DeliveredInOrder | naos/src/kernel/ipc/channel.cc:275-495 | over every run the messages sent towards an end are, in order, those its holders got or that were thrown away there, followed by those still waiting |
| IpcLedger.StepAccount | naos/src/kernel/ipc/channel.cc:501-529 | every call makes and ends exactly the holders its ledger entry names: grants, new ends, duplicates, inherited and copied capabilities against closed, discarded, collected and lost ones |
| IpcLedger.HoldersAreAccountedFor | naos/src/kernel/ipc/channel.cc:501-529 | over every run the holders there are and those that were ended are those that were made |
| IpcLedger.KernelHoldOwns | naos/src/kernel/ipc/channel.cc:501-511 | a hold of the kernel's own counts as one owner of exactly that end, and its release undoes it |
| OwnerCounts.CountsAtRest | naos/src/kernel/ipc/channel.cc:501-529 | when no operation is in progress owners are table entries plus queued slots plus kernel holds, and roots are table entries |
| OwnerCounts.NeverZeroWhileHeld | naos/src/kernel/resource.cc:492-554 | for a raw channel endpoint, at every callback of every run, the count is at least the number of holders; so too for the other counted objects while no fork copies them |
| OwnerCounts.HungUpExactly | naos/src/kernel/terminal_views.cc:7-41 | in such runs the drop to zero happens only once nobody holds the object, and at rest it has happened if and only if nobody does |
| OwnerCounts.ForkWindowExact | naos/src/kernel/resource.cc:387-400 | between the insertion of a fork's copy and its count, a step reads zero for a held object if and only if all holders there were before the fork go within that window |
| OwnerCounts.ForkMayHangUp | naos/src/kernel/resource.cc:387-400 | a run in which a terminal is hung up while a forked child holds its control |
| OwnerCounts.TransferRoundTrip | naos/src/kernel/resource.cc:492-554 | taking, queueing and receiving an object gives back every count |
| OwnerCounts.CarriedIsInstalled | naos/src/kernel/resource.cc:512-556 | an object in transit can be put back or delivered, with the owner count unchanged and one root more |
| OwnerCounts.CarriedIsDropped | naos/src/kernel/ipc/channel.cc:275-282 | or dropped, with one owner less |
| Tasklets.OnePlace | naos/src/kernel/tasklet.cc:31-94 | in every interleaving a tasklet is in exactly one list, batch or execution when its state is not idle, and nowhere when it is |
| Tasklets.NeverTwice | naos/src/kernel/tasklet.cc:57-94 | no tasklet runs on two CPUs at once |
| Tasklets.RaiseIsNeverLost | naos/src/kernel/tasklet.cc:31-94 | after a raise of an enabled tasklet an unstarted pass or a rerun mark remains until a pass starts |
| Tasklets.QueuedPassStarts | naos/src/kernel/tasklet.cc:57-72 | in every reachable state a free runner draining a CPU starts its list at the head, with the rest as its batch |
| Tasklets.NoPassWithoutRaise | naos/src/kernel/tasklet.cc:31-94 | in every interleaving a tasklet is taken up, or waits to be, at most once per raise |
| Tasklets.NoStaleLinks | naos/src/kernel/tasklet.cc:66-68 | a tasklet that is idle or running keeps no link into a list it has left |
| Tasklets.PassEnds | naos/src/kernel/tasklet.cc:74-91 | in every reachable state a running pass can end, with the tasklet idle, or queued again exactly if it was raised meanwhile and is enabled |
| Tasklets.DoneRunnerLeaves | naos/src/kernel/tasklet.cc:64-92 | a runner whose batch is done can leave |
| Tasklets.LinksFrame | naos/src/kernel/tasklet.cc:31-94 | rewriting the link of a tasklet that waits nowhere leaves every per-CPU list and detached batch intact |
| CallRing.Ring.Enqueue | naos/src/kernel/cpu.cc:19-30 | appends unless full, and asks for an interrupt if and only if the ring was empty |
| CallRing.Ring.TryDequeue | naos/src/kernel/cpu.cc:32-42 | takes the oldest operation if there is one |
| CallRing.NoCallStranded | naos/src/kernel/smp.cc:26-74 | in every interleaving a waiting call has an unposted or pending interrupt or a draining target, and calls run once each in order |
| CallRing.WaitingCallRuns | naos/src/kernel/smp.cc:26-34 | from any such state posting and delivering leads the target to the oldest waiting call |
| CallRing.AcceptedExactly | naos/src/kernel/cpu.cc:19-30 | a call is accepted if and only if the ring has room and its sender has no interrupt to post first |
| CallRing.AcceptedCallsCanFinish | naos/src/kernel/smp.cc:26-74 | from every reachable state all accepted calls can be run without another call |
| InputPublisher.LossIsVisible | naos/src/kernel/input_event_source.cc:186-288 | between publishes every dropped event is followed by a marker or the latch is set |
| InputPublisher.ReservedSlotIsForMarkers | naos/src/kernel/input_event_source.cc:105-108 | an ordinary event is only sent while fewer than the capacity are queued, so the extra slot only ever holds a marker |
| InputPublisher.ReceiverSeesMarkers | naos/src/kernel/input_event_source.cc:186-288 | the receiver reads exactly what was sent, markers in their place |
| InputPublisher.OwedMarkerComesFirst | naos/src/kernel/input_event_source.cc:230-238 | with the latch set and room for a marker, a whole publish sends the marker before its event is sent or lost, whatever is received meanwhile |
| InputPublisher.RoomMeansDelivery | naos/src/kernel/input_event_source.cc:241-280 | with room, an open peer and nothing owed, a whole publish sends the event and nothing else, whatever is received meanwhile |
| InputPublisher.LossIsMarkedAtOnce | naos/src/kernel/input_event_source.cc:241-280 | while the marker's slot is free a publish ends with nothing owed: the event was sent, or its loss marked at once |
| InputPublisher.ClosedPeerGetsNothing | naos/src/kernel/input_event_source.cc:230-288 | a publish to a closed peer sends nothing and gives up, ends the subscription or owes a marker, by the stated conditions |
| InputPublisher.EverythingCanBeRead | naos/src/kernel/input_event_source.cc:186-288 | from every reachable state the receiver can read on until it has read all that was sent |
| JobControlRuns.AttachTies | naos/src/kernel/task.cc:1953-1996 | a successful attach keeps one session per terminal if and only if the terminal is not held by session 0 or the caller is in session 0 |
| JobControlRuns.AttachSucceedsExactly | naos/src/kernel/task.cc:1953-1977 | an attach is granted if and only if a live leader of an existing session asks for an existing terminal and either insists or holds no other while no other session but 0 holds this one |
| JobControlRuns.AttachAndOthers | naos/src/kernel/task.cc:1953-1996 | without force no other session changes; with it, the one that held the terminal, unless it is session 0, is left without |
| JobControlRuns.AttachGives | naos/src/kernel/task.cc:1979-1996 | after a successful attach session, terminal, members and foreground group all name each other |
| JobControlRuns.SessionZeroKeepsItsTerminal | naos/src/kernel/task.cc:1969-1977 | a run from the empty state after which two sessions hold one terminal |
| JobControlRuns.ReleaseTies | naos/src/kernel/task.cc:1807-1829 | parting a session from a terminal keeps all other pairs |
| JobControlRuns.ExitKeeps | naos/src/kernel/task.cc:1831-1866 | leaving keeps terminals and sessions agreed and both indexes exact |
| JobControlRuns.LeaderExitFreesTerminal | naos/src/kernel/task.cc:1831-1866 | when a session leader leaves, its terminal is held by no session and has no foreground group |
| JobControlRuns.SetPgidKeeps | naos/src/kernel/task.cc:1869-1903 | moving between groups keeps them, an emptied foreground group included |
| JobControlRuns.SetSidKeeps | naos/src/kernel/task.cc:1936-1951 | a new session keeps them |
| JobControlRuns.SetForegroundKeeps | naos/src/kernel/task.cc:2042-2068 | changing the foreground group changes session and live terminal together |
| JobControlRuns.SetPgidMoves | naos/src/kernel/task.cc:1869-1903 | a successful move puts the target into the group asked for unless that number belongs to another session; nobody else changes group, everybody keeps their session; a refusal changes nothing |
| JobControlRuns.SetSidLeads | naos/src/kernel/task.cc:1936-1951 | a successful call makes the caller leader of a session and a group of its own and a member of no other group |
| JobControlRuns.DetachParts | naos/src/kernel/task.cc:1998-2014 | a leader's session and terminal let go of each other; anyone else only forgets the terminal |
| JobControlRuns.ExitUnlinks | naos/src/kernel/task.cc:1831-1866 | a process that left is a member of no session and no group |
| JobControlRuns.SetPgidSucceedsExactly | naos/src/kernel/task.cc:1869-1903 | when a move is granted, in both directions, over processes and their groups |
| JobControlRuns.SetSidSucceedsExactly | naos/src/kernel/task.cc:1936-1951 | a new session is granted if and only if the caller is alive and does not lead its group |
| JobControlRuns.SetForegroundSucceedsExactly | naos/src/kernel/task.cc:2042-2068 | when a foreground change is granted, in both directions |
| JobControlEffects.SpawnJoins | naos/src/kernel/task.cc:277-288 | a new process joins its parent's session and group, or its own, and learns the session's terminal and foreground group; nothing else changes |
| JobControlEffects.UnregisterLeaves | naos/src/kernel/task.cc:290-309 | a session is left if and only if it has another member or a terminal, a group if and only if it has another member; all others are as they were |
| JobControlEffects.DeleteForgets | naos/src/kernel/task.cc:439-455 | reaping forgets the process and takes it out of its session and group alone |
| JobControlEffects.DeadIsRefused | naos/src/kernel/task.cc:1869-1996 | a process without threads stays where it is and is refused every call that needs a live one |
| JobControlEffects.ReleaseParts | naos/src/kernel/task.cc:1807-1829 | session and terminal part completely and exactly the members forget the terminal and its foreground group |
| JobControlEffects.DetachTerminalParts | naos/src/kernel/task.cc:2018-2028 | when a terminal's driver goes, no session but 0 holds it any more and nothing else changes |
| JobControlEffects.RevokeEnds | naos/includes/kernel/terminal_identity.hpp:52-66 | a revoked terminal is dead, without leases, and keeps its foreground group |
| JobControlEffects.RevokedIsForGood | naos/includes/kernel/terminal_identity.hpp:52-72 | over every run a revoked terminal stays dead and shows the foreground group of that moment |
| JobControlEffects.SetPgidForeground | naos/src/kernel/task.cc:323-350 | a move clears the session's foreground group if and only if the target was the last member of it, and the leader sees what the session shows |
| JobControlEffects.ExitLeaves | naos/src/kernel/task.cc:1831-1866 | exactly what is left of every session and terminal when a process leaves, leader or not |
| JobControlEffects.ExitGroups | naos/src/kernel/task.cc:1831-1866 | its own group goes if and only if it was the last member; others stay |
| JobControlEffects.ExitForgets | naos/src/kernel/task.cc:1831-1866 | when a leader leaves, every member forgets the terminal |
| JobControlEffects.ExitOnce | naos/src/kernel/task.cc:1831-1866 | leaving a second time changes nothing |
| JobControlEffects.AttachTells | naos/src/kernel/task.cc:1979-1996 | what every process knows after an attach: members of the caller's session, of the session taken over, and all others |
| JobControlEffects.AttachTerminals | naos/src/kernel/task.cc:1979-1996 | what becomes of every terminal: the one attached, the one held before, and all others |
| JobControlEffects.AttachRefusals | naos/src/kernel/task.cc:1953-1977 | the answer to an attach that is refused, which changes nothing |
| JobControlEffects.SetPgidRefusals | naos/src/kernel/task.cc:1869-1903 | the answer to a move that is refused, which changes nothing |
| JobControlEffects.SetSidRefusals | naos/src/kernel/task.cc:1936-1951 | the answer to a new session that is refused, which changes nothing |
| JobControlEffects.SetForegroundRefusals | naos/src/kernel/task.cc:2042-2068 | the answer to a foreground change that is refused, which changes nothing |
| JobControlRuns.SessionAndTerminalAgree | naos/src/kernel/task.cc:1953-2068 | over every run that never attaches to session 0, a session holding a terminal is the one it names, and while it is live their foreground groups agree |
| JobControlRuns.OneSessionPerTerminal | naos/src/kernel/task.cc:1953-2068 | in such runs no terminal controls two sessions |
| JobControlTable.Table.RevokeAndTakeForeground | naos/includes/kernel/terminal_identity.hpp:52-66 | revokes at most once and hands out the foreground group of that moment |
| JobControlTable.Table.SetProcessGroup | naos/src/kernel/task.cc:1869-1903 | keeps terminals, sessions and both indexes agreed; moves the target alone, or changes nothing |
| JobControlTable.Table.SetSession | naos/src/kernel/task.cc:1936-1951 | keeps them agreed; the caller leads a session and a group of its own, or nothing changed |
| JobControlTable.Table.DetachSessionTerminal | naos/src/kernel/task.cc:1807-1829 | the loop makes exactly the session's members forget the terminal |
| JobControlTable.Table.AttachControllingTerminal | naos/src/kernel/task.cc:1953-1996 | when it is granted, in both directions; unless the caller is in session 0 keeps all agreed, a forced steal included; without force no other session changes; on success session and terminal name each other and the caller's group is in the foreground, otherwise nothing changed |
| JobControlTable.Table.DetachControllingTerminal | naos/src/kernel/task.cc:1998-2014 | keeps them agreed; a leader's session is left without a terminal, any other caller changes no session and no terminal |
| JobControlTable.Table.SetForegroundProcessGroup | naos/src/kernel/task.cc:2042-2068 | keeps them agreed; on success the group has members and both the session and its live terminal show it, otherwise nothing changed |
| JobControlTable.Table.CleanupProcess | naos/src/kernel/task.cc:1831-1866 | keeps them agreed; the process is a member of nothing afterwards, and a leader's terminal names no session |

## Left out

- Protocol invocations, virtual memory areas and filesystems: not part of this model.
- The allocator, hash map, vector and linked list: taken as simple maps, sequences and an allocator of unused pages; out-of-memory branches other than the modelled limits are left out.
- User copies and address checks: a copy, a bad range or an overlap is a parameter that makes the call fail at that point; the send frame's address checks come before anything is taken and are left out.
- Waiting and waking threads, and `wait_many`: not part of this model.
- Large pages, the kernel half of the address space, TLB flushes and the reference counts of leaf frames: not part of this model. The frame copying inside `map` is left out.
- PagingFork.ForkCopiesExactly: the loop is followed up to the end of the user half; with all 256 user entries of a root present the code goes on into the kernel half, which is not part of this model.
- Restrict, take and receive on one table by several threads are covered at table level (`TableRuns`) and at callback level (`OwnerCounts`); in `IpcRuns` each system call is one step.
- IpcTransfers.SendKeeps: conservation is claimed for messages that fit the channel's limits; larger ones are covered by Transfer.UnfitSendLoses.
- Batches queued in protocol objects, which the collector does not trace: not part of this model.
- OwnerCounts.ForkWindowExact: for a fork that starts, and a window that ends, with no other operation on the object half-way; the object is still held at the end.
- InputPublisher.LossIsVisible: covers publishes that come one after another to one subscription; overlapping publishes, resubscription and the encoding of events are left out.
- Tasklets.RaiseIsNeverLost: the soft interrupt that starts a drain is not modelled.
- CallRing.NoCallStranded: the interrupt controller is modelled as one pending flag per target.
- A kernel assertion that fails (joining a process group of another session) stops the kernel; the model leaves the state unchanged there.
- Agreement between a process group's session and its members' sessions, signals, wait queues and scheduling: not part of this model.
- Per-process copies of the controlling terminal and foreground group are updated as in the source, but only the session and the terminal are claimed to agree.
- The I/O lease counter appears only as the condition under which a foreground change is refused.
