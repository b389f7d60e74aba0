# Verification of UROAM's stateful components

This project models the parts of UROAM that keep real state and proves what they maintain over whole runs.

| file | models |
|---|---|
| `ProcessTable.dfy`, `SearchTree.dfy`, `ProcessTracking.dfy` | the process index of `kernel/tracking.c`: 1024 slots threaded in place by a search tree on pid |
| `ByteSwap.dfy` | the in-place byte reversal kernels of `aal/aal.c` |
| `ReflectedWalk.dfy`, `MemoryTracker.dfy` | the allocation tracker of `integrations/uroam/ai_hooks.py` and the clamped counter behind it |
| `Memopt.dfy` | global accounting and bump pool of `src/shared/memopt.c` |
| `ScanModule.dfy` | timer, work queue, load and unload of `kmod/uroam_kernel.c` as interleaved steps |
| `BlockPool.dfy`, `WorkloadContext.dfy` | `MemoryPool` and the nested contexts of `integrations/uroam/core.py` |
| `ProcessClassifier.dfy`, `ControlLoop.dfy` | classification and one tick of `daemon/main.go` |
| `ModuleLifecycle.dfy` | load and unload of `kernel/main.c` with `hooks.c`, `pressure.c`, `numa.c`, `ipc.c` and the start of `tracking.c` |
| `IdleDebounce.dfy` | the idle optimizer of `src/idle/mod.rs` |
| `WorkloadClassifier.dfy` | `src/classification/mod.rs` and the dispatch of `src/optimization/mod.rs` |
| `ConfigText.dfy`, `ConfigTree.dfy` | argument texts and dotted-path updates of `src/user/uroam_cli.py` |
| `Substring.dfy` | substring membership and the option type |

Objects with fields are classes whose methods are proved against specification functions; the laws are lemmas about those functions. Check the project with `dafny verify dfyconfig.toml`.

## Where the code does not do what it says

The model follows the code. In these places a reader of comments, names or documentation would expect something else; each has its exact condition proved.

- `uroam_tracking_exit` announces clearing the tracked processes but clears only the count; lookups still find them (`ProcessIndex.Exit`).
- `uroam_pressure_init` reports success after giving everything back when its thread does not start, so unloading, or a later failure of the load, releases the trigger and the group twice (`UroamModule.PressureInit`, `Init`, `Exit`).
- `uroam_tracking_init` sets up NUMA even when `enable_numa_aware` is off; the distance table then outlives the module (`UroamModule.Exit`, `LoadAndUnload`).
- The failing load of `kernel/main.c` and the unload release in reverse order except for two kprobes (`UroamModule.Init`, `Exit`).
- `aal_byte_swap128` with an odd number of 64-bit words rewrites eight bytes past the last word (`ByteSwap128`, `WholePairs`).
- The bump pool compares a sum that can wrap around, so it can grant more than it has and then the same bytes twice (`BumpPool.Alloc`, `GrantsInside`, `NextGrantDisjoint`, `OverrunExample`).
- The scan of all processes ends at the first pid number not in use (`ProcessTable.ScanCoversIff`).
- Replacing the configuration inside a context leaves the context's settings on the old object (`WorkloadContext.AlwaysRestoredIffEndsOnEntry`, `ReplacedObjectKeepsContext`).
- A dominant AI training workload can be given the idle profile (`OwnProfileIff`, `TrainingCanBeIdle`), and two interactive patterns can never match (`CapitalPatternsNeverMatch`).
- A failed write of the idle settings leaves them marked as applied, so a retry reports success and writes nothing (`IdleDebounce.ApplyTwice`).
- `set_parameter` on a missing prefix reports success and changes nothing (`ReadBackIffPrefixExists`).

## Model

| member | source | states |
|---|---|---|
| ProcessTracking.ProcessIndex.TreeSearch | kernel/tracking.c:188-205 | walking the links returns exactly the slot a linear scan of the indexed slots finds, or nothing when no slot holds the pid |
| ProcessTracking.ProcessIndex.TreeInsert | kernel/tracking.c:210-233 | reports a duplicate exactly when an indexed slot already has the pid and then changes no link; otherwise the links form a search tree over one more slot, whatever the rebalancer did |
| ProcessTracking.ProcessIndex.InsertColor | kernel/tracking.c:229-230 | any list of rotations and recolourings keeps a search tree over the same slots with the same in-order list and touches no record |
| ProcessTracking.ProcessIndex.RotateLeftAt | kernel/tracking.c:230 | the in-place link writes of one left rotation keep the tree well linked (parents included) and the in-order list |
| ProcessTracking.ProcessIndex.RotateRightAt | kernel/tracking.c:230 | the same for a right rotation |
| ProcessTracking.ProcessIndex.RefreshSlot | kernel/tracking.c:260-264 | a known process gets the name, usage and node of this visit in its slot; pid, priority, workload flags and all other slots stay |
| ProcessTracking.ProcessIndex.AddSlot | kernel/tracking.c:265-283 | a new process is appended, indexed and announced once; the duplicate branch of the insertion cannot be taken |
| ProcessTracking.ProcessIndex.UpdateProcess | kernel/tracking.c:246-286 | one visit refines the abstract table update and keeps the index invariant: tree nodes are exactly slots 0..count-1, count is at most 1024, announcements list the tracked pids |
| ProcessTracking.ProcessIndex.Scan | kernel/tracking.c:291-305 | the walk over pid numbers visits the tasks behind 1, 2, 3, ... in order up to the first free number, with any rebalancing, and keeps the index invariant |
| ProcessTracking.ProcessIndex.VisitNumber | kernel/tracking.c:298-302 | a number in use without a task is skipped |
| ProcessTable.ScanCoversIff | kernel/tracking.c:291-305 | a scan that ended at a free pid number visited every task exactly if none has a free number below its own |
| ProcessTracking.ProcessIndex.GetProcess | kernel/tracking.c:338-347 | the pointer (slot) handed out is the one a linear scan of the indexed slots finds, or null when none holds the pid |
| ProcessTracking.ProcessIndex.PointerSurvivesScan | kernel/tracking.c:246-347 | a pointer obtained before a scan is what a lookup finds after it, and shows the same process with its priority and flags |
| ProcessTable.LookupSurvives | kernel/tracking.c:246-347 | a pid once found is found in the same slot after any further visits |
| ProcessTracking.ProcessIndex.Exit | kernel/tracking.c:393-414 | the count is cleared but the links are not: the index fits the emptied table only if it was empty, and lookups keep finding the old records |
| ProcessTracking.ProcessIndex.Explained | kernel/tracking.c:246-286 | in every reachable state the tracked pids are the first 1024 distinct pids ever visited and every record is explained by its first and last visit |
| ProcessTracking.ProcessIndex.ExplainedFields | kernel/tracking.c:246-286 | in every reachable state the record in a slot has priority and flags computed from the name at the first visit of its pid, and name, usage and node byte of the last visit |
| ProcessTracking.ProcessIndex.constructor | kernel/tracking.c:352-359 | the initial state is an empty table with an empty tree |
| ProcessTracking.MatchesAny | kernel/tracking.c:77-102 | the pattern loop decides whether some pattern occurs in the name |
| ProcessTracking.ProcessPriority | kernel/tracking.c:107-127 | 0 exactly for a name with an AI and an inference pattern, 1 exactly for one with a gaming and no AI pattern, otherwise 2 |
| ProcessTracking.GapFits | kernel/tracking.c:214-227 | linking the new slot at the gap the descent reached puts its pid at the one position that keeps the in-order list sorted |
| ProcessTable.TrackedPids | kernel/tracking.c:257-283 | after any run of visits the table holds exactly the first 1024 distinct pids in order of first appearance, each once |
| ProcessTable.TrackedRecords | kernel/tracking.c:257-283 | after any run every record is explained by a first and a last visit of its pid |
| ProcessTable.SlotFields | kernel/tracking.c:257-283 | field by field: priority and flags by the patterns in the first name, name, usage and node modulo 256 from the last visit |
| ProcessTable.UpdateFields | kernel/tracking.c:257-283 | one visit: a new slot exactly for an unknown pid while there is room; the slot of a known pid takes name, usage and node; other slots stay |
| ProcessTable.SlotsInVisitOrder | kernel/tracking.c:265-275 | of two slots the earlier one belongs to the process seen first |
| ProcessTable.SlotsAreStable | kernel/tracking.c:257-283 | whatever is visited later, a filled slot keeps its pid, priority and workload flags |
| ProcessTable.FindFrom | kernel/tracking.c:188-205 | the reference: the first position from k on that holds the pid |
| SearchTree.ReplaceSubtree | kernel/tracking.c:214-230 | overwriting the link stored at one place replaces the subtree below it and nothing else |
| SearchTree.RotateLeftLinked | kernel/tracking.c:230 | the four link writes of a left rotation turn one well-linked shape into the rotated one |
| SearchTree.RotateRightLinked | kernel/tracking.c:230 | the mirror image |
| SearchTree.WalkDown | kernel/tracking.c:192-203 | comparing with a node and going to that side keeps the wanted pid between everything left and everything right of the subtree |
| SearchTree.WalkEnd | kernel/tracking.c:190-205 | when the walk ends at a null link no node of the tree carries the pid |
| ByteSwap.ByteSwap16 | aal/aal.c:472-477 | the buffer becomes the one with every complete 2-byte group reversed and all other bytes as before, in either host byte order |
| ByteSwap.ByteSwap32 | aal/aal.c:479-487 | the same for 4-byte groups |
| ByteSwap.ByteSwap64 | aal/aal.c:489-501 | the same for 8-byte groups |
| ByteSwap.ByteSwap128 | aal/aal.c:503-525 | the same for 16-byte groups, for every pair of words the loop touches |
| ByteSwap.SwapWord16 | aal/aal.c:475 | the mask-and-shift expression reverses the bytes of the word in memory |
| ByteSwap.SwapWord32 | aal/aal.c:482-485 | the same for 32 bits |
| ByteSwap.SwapWord64 | aal/aal.c:492-499 | the same for 64 bits |
| ByteSwap.ReverseGroupsTwice | aal/aal.c:472-525 | reversing the same groups twice restores the buffer, so every kernel is its own inverse |
| ByteSwap.WidePairsFromWords | aal/aal.c:503-525 | reversing 16-byte groups equals reversing every 8-byte word and exchanging the words of each pair |
| ByteSwap.WholePairs | aal/aal.c:505-506 | the 128-bit kernel stays inside its len bytes exactly when the number of 64-bit words is even |
| MemoryTracker.UROAMMemoryTracker.Enable | integrations/uroam/ai_hooks.py:45-46 | recording is on from here; nothing else changes |
| MemoryTracker.UROAMMemoryTracker.Disable | integrations/uroam/ai_hooks.py:48-49 | recording is off from here; nothing else changes |
| MemoryTracker.UROAMMemoryTracker.RecordAllocation | integrations/uroam/ai_hooks.py:51-57 | ignored while disabled; otherwise total and tag grow by the size |
| MemoryTracker.UROAMMemoryTracker.RecordFree | integrations/uroam/ai_hooks.py:59-65 | ignored while disabled; otherwise the freed total grows by the size and the tag falls by it but not below zero |
| MemoryTracker.UROAMMemoryTracker.GetStats | integrations/uroam/ai_hooks.py:67-74 | current is allocated minus freed, and the per-tag values sum to current plus what the clamp swallowed |
| MemoryTracker.TagIsBestSuffix | integrations/uroam/ai_hooks.py:45-65 | with non-negative sizes a tag holds the largest net allocation over all suffixes of its recorded events |
| MemoryTracker.TagIsBestRestart | integrations/uroam/ai_hooks.py:45-65 | for sizes of any sign only suffixes at the start or right after a free count |
| MemoryTracker.Conservation | integrations/uroam/ai_hooks.py:51-75 | the sum of all per-tag values minus (allocated - freed) is exactly the amount clipped |
| MemoryTracker.ClippedIffOverFreed | integrations/uroam/ai_hooks.py:65 | the clipped amount is never negative, and zero exactly if no free ever exceeded what its tag held |
| ReflectedWalk.ValueIsBestRestart | integrations/uroam/ai_hooks.py:57-65 | closed form of a counter clamped on the way down, without assumptions on signs |
| ReflectedWalk.ValueIsBestSuffix | integrations/uroam/ai_hooks.py:57-65 | closed form for non-negative increments: the largest suffix net |
| ReflectedWalk.ValueIsNetPlusClipped | integrations/uroam/ai_hooks.py:57-65 | the clamp adds exactly what it swallowed |
| ScanModule.NeverMisused | kmod/uroam_kernel.c:79-83 | in no interleaving of timer, worker, load and unload is the work queue used outside its lifetime or the timer set after unloading |
| ScanModule.QueuedWorkIsDone | kmod/uroam_kernel.c:79-83 | work once queued is started and then finished in every run that gets past the flush of the unload |
| ScanModule.FiringLeadsToScan | kmod/uroam_kernel.c:79-83 | every firing of the timer is followed by a queueing, a start and an end of the scan in every run that gets past the flush |
| ScanModule.ResourcesNest | kmod/uroam_kernel.c:187-250 | sysctl table, status file, directory and queue are held in nested order, and timer and worker are active only while what they use exists |
| ScanModule.NothingLeft | kmod/uroam_kernel.c:187-250 | until a load has fully succeeded the timer is not armed; a failed load and a finished unload hold nothing and no step can follow |
| ScanModule.TimerStaysDeleted | kmod/uroam_kernel.c:236-250 | after the timer is deleted no later run contains a firing, a queueing or a re-arming |
| ScanModule.FlushDrains | kmod/uroam_kernel.c:238-239 | from the flush on every worker step removes work, at most three happen, and the flush can return exactly when none is left |
| ScanModule.NeverStuck | kmod/uroam_kernel.c:187-250 | unless the module is gone some agent can move |
| ScanModule.TimerDeletionWaits | kmod/uroam_kernel.c:237-238 | the wait in del_timer_sync can end exactly when the callback rests, some agent can move until then, and a run waiting there has at most seven steps and five more per firing of the timer |
| ScanModule.UnloadGoesForward | kmod/uroam_kernel.c:236-250 | the unload never goes back to an earlier statement |
| ScanModule.InvHolds | kmod/uroam_kernel.c:187-250 | which resources exist and who may be active at every point of load and unload |
| BlockPool.MemoryPool.constructor | integrations/uroam/core.py:640-657 | the free list is exactly the blocks the allocator gave, in order; failed answers are skipped |
| BlockPool.PreallocatedSound | integrations/uroam/core.py:640-657 | whatever the allocator answers, the pool starts in a state where each block is in one place and the counters agree |
| BlockPool.MemoryPool.Allocate | integrations/uroam/core.py:659-665 | the youngest free block, or what the system allocator returns when none is free; lists, counter and client are given exactly |
| BlockPool.MemoryPool.Free | integrations/uroam/core.py:667-673 | back to the free list while it has fewer than count blocks, otherwise to the system allocator |
| BlockPool.SoundForever | integrations/uroam/core.py:640-673 | over any run of a client that frees only what it holds: every block is in one place, free list at most count, allocated plus free equals the pre-allocated number, allocated at most the blocks held and never below minus the failed pre-allocations |
| BlockPool.ExactlyOnePlace | integrations/uroam/core.py:659-673 | every block ever obtained is in exactly one of free list, client and released |
| BlockPool.FreeListDistinct | integrations/uroam/core.py:659-673 | the free list never holds a block twice |
| BlockPool.AllocateUndoesFree | integrations/uroam/core.py:659-673 | free followed by allocate restores everything exactly when the pool had room |
| WorkloadContext.Api.RunContext | integrations/uroam/core.py:531-592 | a context manager with any body has the effect of the context command of the program semantics, exceptions included; the object current at exit has the workload type and priority seen at entry |
| WorkloadContext.Api.RunAll | integrations/uroam/core.py:393-592 | running any nested program of contexts, setters, replacements, exceptions and handlers follows that semantics |
| WorkloadContext.Api.SetPriority | integrations/uroam/core.py:393-402 | changes the priority of the current configuration object only |
| WorkloadContext.Api.SetWorkloadType | integrations/uroam/core.py:405-414 | changes the workload type of the current configuration object only |
| WorkloadContext.Api.SetConfig | integrations/uroam/core.py:525-528 | makes another object current without changing any |
| WorkloadContext.ContextUndoesBody | integrations/uroam/core.py:531-592 | unless its body replaces the configuration a context undoes everything: the whole state is as at entry, whatever setters, contexts, exceptions and handlers the body nests |
| WorkloadContext.OnlyContextsChangeNothing | integrations/uroam/core.py:531-592 | a program that only nests contexts, raises and catches changes nothing at all |
| WorkloadContext.RaisePassesContexts | integrations/uroam/core.py:531-592 | an exception passes through any number of contexts, undoing each, and skips what follows up to the nearest handler |
| WorkloadContext.InSequence | integrations/uroam/core.py:531-592 | a program in two parts runs the second from where the first ended, unless that raised |
| WorkloadContext.OthersUntouched | integrations/uroam/core.py:531-592 | no program changes an object that is neither current nor brought in by set_config |
| WorkloadContext.EndsIsRun | integrations/uroam/core.py:525-592 | which object is current at the end and whether an exception escapes can be read off the program text, following set_config, raise, try and with alone |
| WorkloadContext.AlwaysRestoredIffEndsOnEntry | integrations/uroam/core.py:531-592 | a context gives the object current at entry its settings back, whatever they were, exactly if by its text the body ends on that object |
| WorkloadContext.EntryObjectRestored | integrations/uroam/core.py:531-592 | for one value of the settings: it comes back exactly if the text of the body ends on that object, or it is the single value the body leaves behind in any case |
| WorkloadContext.ReplacedObjectKeepsContext | integrations/uroam/core.py:525-592 | the failing input: replacing the configuration inside a context leaves the settings of that kind, given for each of the four, on the old object for good, so its own are lost exactly if they were different |
| Memopt.MemoptGlobals.InitOnce | src/shared/memopt.c:23-40 | resets every counter and sets the pool total to 1 GiB unless already initialised |
| Memopt.MemoptGlobals.ShutDown | src/shared/memopt.c:47-52 | clears the flag and pool_used and nothing else |
| Memopt.MemoptGlobals.AllocFlags | src/shared/memopt.c:58-88 | counts the size once exactly if one of the mappings succeeds |
| Memopt.MemoptGlobals.Release | src/shared/memopt.c:90-99 | one free more and 4096 bytes less, never below zero; null is ignored |
| Memopt.MemoptGlobals.Realloc | src/shared/memopt.c:101-108 | an allocation followed by a free of the old block, if there is one and the new mapping succeeded |
| Memopt.PoolUsedIsWalk | src/shared/memopt.c:82-96 | pool_used is the clamped walk since it was last zeroed, hence its largest suffix net |
| Memopt.PoolUsedBounded | src/shared/memopt.c:23-99 | in every run 0 <= pool_used <= total_allocated |
| Memopt.PoolUsedAccount | src/shared/memopt.c:23-99 | without a shutdown since the last init pool_used = total_allocated - 4096 * free_count + clipped amount |
| Memopt.PoolUsedCountsBlocks | src/shared/memopt.c:23-99 | with 4096-byte allocations only, pool_used = 4096 * (allocation_count - free_count) exactly if no free came before its allocation |
| Memopt.BumpPool.Alloc | src/shared/memopt.c:149-163 | a request is granted exactly if the wrapped sum (used + size) mod 2^64 is at most the pool size, at base + used; a granted request leaves the pool exactly if used + size - 2^64 is between zero and the pool size, which a caller can check before |
| Memopt.GrantsInside | src/shared/memopt.c:149-163 | over any run of requests all granted ranges lie inside the pool exactly if no request met that condition when it was made |
| Memopt.GrantsTile | src/shared/memopt.c:149-163 | until then the grants follow each other without gap or overlap and fill [0, used) |
| Memopt.NextGrantDisjoint | src/shared/memopt.c:149-163 | the next non-empty grant is disjoint from all earlier ones exactly if no request met that condition so far |
| Memopt.OverrunExample | src/shared/memopt.c:149-163 | the failing input: a 4096-byte pool grants 16 bytes, then 2^64 - 8 bytes, then 8 bytes inside the first block |
| Memopt.TilesOrdered | src/shared/memopt.c:149-163 | tiling ranges are in order, disjoint and end where the next begins |
| Memopt.TilesCover | src/shared/memopt.c:149-163 | every offset below the end is in a granted range |
| ProcessClassifier.ContainsAny | daemon/main.go:112-124 | the hand-written search is exactly substring membership |
| ProcessClassifier.ClassifyProcess | daemon/main.go:77-110 | each class and each priority exactly by the lists the name is in and the marks in name and command line, in the order of the switch |
| ProcessClassifier.CollectProcesses | daemon/main.go:167-189 | the list of a tick: readable processes in enumeration order with their class |
| ProcessClassifier.CollectedNext | daemon/main.go:167-189 | a readable process is appended with its own pid, name, memory, swap and class; any other leaves the list as it is |
| ProcessClassifier.CollectedPriorities | daemon/main.go:77-110 | in a collected list AI and gaming processes have priority 0 or 1 |
| ControlLoop.Daemon.DetectIdle | daemon/main.go:213-231 | idle exactly if no process has priority 0 or 1 and usage and stalls are low |
| ControlLoop.Daemon.Tick | daemon/main.go:333-386 | every writable key ends with the closed form of the current state, all others with their old value, for any earlier store and idle flag; with distinct pids a writable score ends as -900, -500 or 300 for priority 0, 1 or more |
| ControlLoop.Daemon.ApplySwap | daemon/main.go:233-277 | the swap sums and ratios decide swappiness and page-cluster, then the scores are written |
| ControlLoop.Daemon.ProtectHighPriority | daemon/main.go:279-295 | with distinct pids a process of priority 0, 1, 2 or more gets -900, -500, 300; below 0 its score is left |
| ControlLoop.Daemon.ApplyIdle | daemon/main.go:297-331 | what the idle part writes over the rest |
| ControlLoop.Daemon.ApplyPressure | daemon/main.go:343-373 | what the opening block writes, and which workloads it saw |
| ControlLoop.Daemon.ApplyGaming | daemon/main.go:388-405 | the values the gaming part tries to write |
| ControlLoop.Daemon.ApplyAI | daemon/main.go:407-426 | the values the AI part tries to write |
| ControlLoop.Daemon.ApplyCache | daemon/main.go:428-440 | the value the cache part tries to write, if any |
| ControlLoop.Daemon.WriteSysfs | daemon/main.go:199-211 | a write to a path that cannot be opened changes nothing |
| ControlLoop.TickWritesAt | daemon/main.go:333-440 | the whole chain of overwriting writes leaves exactly the closed form under every key |
| ControlLoop.TicksAgree | daemon/main.go:333-440 | two daemons with any stores and idle flags tick on one state: under a key both can write they agree afterwards exactly if the tick decides about it or they agreed before, and six keys are always decided |
| ControlLoop.TickTwiceIsOnce | daemon/main.go:333-440 | of two daemons with equal stores one ticks once and one twice: stores and idle flags are equal again |
| ControlLoop.RunTicks | daemon/main.go:463-473 | after the loop over any list of states every writable key holds what the last tick deciding about it decided, and every other key its old value |
| ControlLoop.TickForgetsHistory | daemon/main.go:333-440 | corollary of Tick for one key: decided keys forget the earlier store, the others keep their value |
| ControlLoop.TickTwice | daemon/main.go:333-440 | corollary of Tick: two effects of one state in a row are one |
| ControlLoop.RunKeepsLastDecision | daemon/main.go:333-440 | after any run of ticks every key holds what the last tick deciding about it decided |
| ControlLoop.TickIgnoresOrder | daemon/main.go:233-386 | permuting the processes changes no global key, and with distinct pids no score either |
| ControlLoop.OomByPriority | daemon/main.go:279-295 | with distinct pids the decision about a process is -900 for priority 0, -500 for 1, 300 from 2 on, none below 0 |
| ControlLoop.OomWritesInValues | daemon/main.go:279-295 | the score writes leave those values and touch no other key |
| ControlLoop.SwapPolicyInValues | daemon/main.go:233-277 | swappiness and page-cluster by sums alone: more than 15 percent of high-priority memory swapped, less than 30 percent of low-priority memory but over 500 MiB, memory use over 80 percent, or none |
| ControlLoop.FactsInValues | daemon/main.go:213-440 | every condition a tick branches on, in readings and processes |
| ControlLoop.IdleTick | daemon/main.go:297-331 | what an idle tick leaves under eleven keys |
| ControlLoop.BusyTick | daemon/main.go:233-440 | what any other tick leaves under six keys |
| ControlLoop.AITick | daemon/main.go:407-426 | what is left when AI processes run, with games or not |
| ControlLoop.GamingTick | daemon/main.go:388-405 | what is left when games and no AI processes run |
| ControlLoop.PlainTick | daemon/main.go:343-373 | what is left when neither runs |
| ControlLoop.SumPermuted | daemon/main.go:238-246 | the swap sums do not depend on the order of the processes |
| ControlLoop.SumOfParts | daemon/main.go:238-246 | sums add up over parts of the list |
| ControlLoop.SwapSumsPartition | daemon/main.go:238-246 | high and low priority swap add up to total swap |
| ControlLoop.IdleMeansNothingRuns | daemon/main.go:213-231 | for a collected list an idle tick means no AI or gaming process, and ends with swappiness 90, KSM running at 5000 pages and a 40 percent zswap pool |
| ModuleLifecycle.SetupInValues | kernel/main.c:364-483 | when a load succeeds, when it reaches tracking, when the monitor is lost, when a table exists, and what a loaded module holds in which order, by parameters and failures |
| ModuleLifecycle.UroamModule.CreateProcEntries | kernel/main.c:195-230 | all four entries, or none after a failure, released youngest first |
| ModuleLifecycle.UroamModule.RemoveProcEntries | kernel/main.c:235-245 | all four entries go, youngest first |
| ModuleLifecycle.UroamModule.CreateSysfsEntries | kernel/main.c:283-301 | object and file, or neither |
| ModuleLifecycle.UroamModule.RemoveSysfsEntries | kernel/main.c:306-312 | file and object go, youngest first |
| ModuleLifecycle.UroamModule.NetlinkInit | kernel/ipc.c:233-251 | the socket exists exactly on success |
| ModuleLifecycle.UroamModule.NetlinkExit | kernel/ipc.c:256-263 | the socket goes and the pointer is cleared |
| ModuleLifecycle.UroamModule.PressureInit | kernel/pressure.c:184-236 | success is reported whenever group and trigger were created, even when the thread failed and both were returned |
| ModuleLifecycle.UroamModule.PressureExit | kernel/pressure.c:241-263 | trigger and group are released unconditionally, so a monitor that is not running makes this a release of things not held |
| ModuleLifecycle.UroamModule.FtraceInit | kernel/hooks.c:122-139 | buffer and flag are set exactly on success |
| ModuleLifecycle.UroamModule.InstallKprobes | kernel/hooks.c:264-306 | both probes or none, with the flags to match |
| ModuleLifecycle.UroamModule.EnableHookTracing | kernel/hooks.c:158-170 | ftrace if it can be had, otherwise kprobes |
| ModuleLifecycle.UroamModule.HooksInit | kernel/hooks.c:329-345 | always succeeds, in exactly one of three states: buffer alone, both probes, nothing, flags agreeing with what is held |
| ModuleLifecycle.UroamModule.HooksExit | kernel/hooks.c:350-357 | everything is released; two probes go in the order they came |
| ModuleLifecycle.UroamModule.NumaInit | kernel/numa.c:314-345 | a missing distance table is allocated on a multi-node machine; a present one is kept |
| ModuleLifecycle.UroamModule.NumaExit | kernel/numa.c:350-364 | the distance table is freed |
| ModuleLifecycle.UroamModule.TrackingInit | kernel/tracking.c:352-388 | the thread, and NUMA once more whether or not it is enabled |
| ModuleLifecycle.UroamModule.TrackingExit | kernel/tracking.c:393-407 | the thread is stopped |
| ModuleLifecycle.UroamModule.Init | kernel/main.c:364-452 | succeeds exactly for the failure patterns that touch no fatal stage; a failing load holds nothing, and released each resource once and youngest first under the exact condition given |
| ModuleLifecycle.UroamModule.Exit | kernel/main.c:457-483 | a loaded module ends with nothing on its stack; the exact conditions for a double release and for a leaked distance table; released youngest first exactly unless both kprobes are in |
| ModuleLifecycle.LoadAndUnload | kernel/main.c:364-483 | load followed by unload is clean exactly if the monitor did not silently lose its thread and a table exists only under enable_numa_aware, and releases youngest first exactly unless it got past the early stages with both kprobes in |
| IdleDebounce.IdleOptimizer.CheckIdle | src/idle/mod.rs:64-81 | the answer is that of the trace of calls; the period starts at the first check below 40 percent and ten processes and ends at the next that is not |
| IdleDebounce.IdleOptimizer.ApplyIdleOptimizations | src/idle/mod.rs:83-151 | writes the plan of the level up to the first refused write and answers Ok exactly if none was refused; a call that finds optimisations started writes nothing and answers Ok |
| IdleDebounce.IdleOptimizer.ApplyMinimal | src/idle/mod.rs:98-108 | the two writes to files that exist |
| IdleDebounce.IdleOptimizer.ApplyNormal | src/idle/mod.rs:110-125 | the minimal writes, then swappiness, cache pressure and the KSM pages |
| IdleDebounce.IdleOptimizer.ApplyAggressive | src/idle/mod.rs:127-138 | the normal writes, then a cache drop above 512 MiB of used swap and page-cluster |
| IdleDebounce.AttemptIsLongest | src/idle/mod.rs:98-138 | what gets written is the longest prefix of accepted writes, and Ok means all of them |
| IdleDebounce.PlansInValues | src/idle/mod.rs:98-138 | the seven writes of the three levels in their order, each with its value and condition |
| IdleDebounce.LevelsNest | src/idle/mod.rs:98-138 | a higher level first does all a lower one does, and what stops the lower one stops it |
| IdleDebounce.ApplyTwice | src/idle/mod.rs:83-96 | a start that breaks off is not made up for: the next call writes nothing and answers Ok |
| IdleDebounce.IdleOptimizer.CancelWithin100ms | src/idle/mod.rs:184-194 | ends optimising and the idle period |
| IdleDebounce.IdleOptimizer.ResetAll | src/idle/mod.rs:196-200 | ends both and forgets the cancel |
| IdleDebounce.IdleStartIsFirstOfRun | src/idle/mod.rs:64-81 | the debounce period starts at the first check of the unbroken idle run that reaches to the present |
| IdleDebounce.AnswerMeansLongRun | src/idle/mod.rs:64-81 | a check answers true exactly if a check at least the threshold earlier, or itself, started an unbroken run of idle checks without cancel or reset |
| IdleDebounce.StartsIffStoppedSince | src/idle/mod.rs:83-88 | an apply starts optimisations exactly if a cancel or reset came after every earlier apply |
| IdleDebounce.StartsOncePerPeriod | src/idle/mod.rs:83-88 | optimisations start at most once between cancels or resets |
| WorkloadClassifier.ClassifyProcess | src/classification/mod.rs:241-278 | each of the seven classes exactly by which patterns occur in name and command line |
| WorkloadClassifier.PriorityByClass | src/classification/mod.rs:280-287 | P0 exactly for inference and interactive, P1 exactly for gaming and compilation, never P3 |
| WorkloadClassifier.ListedFields | src/classification/mod.rs:168-239 | a scan lists its entries in order with their own pid, name, memory and swap, the class of their texts and its priority |
| WorkloadClassifier.CapitalPatternsNeverMatch | src/classification/mod.rs:89-93 | two interactive patterns have capitals and can never match a lower-cased name |
| WorkloadClassifier.Classifier.ScanProcesses | src/classification/mod.rs:168-239 | after a scan the counts are exactly the numbers of listed processes of each class |
| WorkloadClassifier.Classifier.GetCurrentWorkload | src/classification/mod.rs:289-305 | for any iteration order the answer is a most frequent class, or Idle for an empty list |
| WorkloadClassifier.Classifier.IsIdle | src/classification/mod.rs:307-312 | decided by memory use and the absence of gaming, inference and interactive processes |
| WorkloadClassifier.PidListsPartition | src/classification/mod.rs:314-328 | the high and low pid lists together list every process once |
| WorkloadClassifier.PidListsByPriority | src/classification/mod.rs:314-328 | a pid is in the high list exactly if some P0 or P1 process has it, in the low list exactly if some other one has |
| WorkloadClassifier.CountTotal | src/classification/mod.rs:235 | the nine counts add up to the number of processes |
| WorkloadClassifier.OwnProfileIff | src/optimization/mod.rs:25-45 | a workload gets its own profile exactly if memory use has reached 40 percent or some gaming, inference or interactive process is listed |
| WorkloadClassifier.OwnProfileGuaranteed | src/optimization/mod.rs:25-45 | being dominant secures the own profile exactly for inference, gaming and interactive workloads |
| WorkloadClassifier.TrainingCanBeIdle | src/optimization/mod.rs:25-45 | the failing input: the scan of a single python process running train.py makes training dominant and gets the idle profile |
| WorkloadClassifier.Classifier.RunPass | src/optimization/mod.rs:21-48 | the idle profile exactly below 40 percent without gaming, inference and interactive processes; otherwise AI, gaming, compilation or balanced exactly by the dominant workload of the fresh scan |
| WorkloadClassifier.Dispatch | src/optimization/mod.rs:29-45 | each profile exactly for its workloads |
| ConfigTree.Cli.Walk | src/user/uroam_cli.py:107-108 | the loop reaches the dictionary of the prefix, a fresh one if a part is missing, or stops at a scalar |
| ConfigTree.Cli.SetItem | src/user/uroam_cli.py:78-125 | in place: fails exactly if a scalar is in the way and then changes and saves nothing; otherwise the tree is the functional update |
| ConfigTree.Cli.EnableFeature | src/user/uroam_cli.py:78-88 | the update of the split path with True |
| ConfigTree.Cli.DisableFeature | src/user/uroam_cli.py:90-100 | the update of the split path with False |
| ConfigTree.Cli.SetParameter | src/user/uroam_cli.py:102-125 | the update of the split path with the converted value; any spelling of true and false is stored as that boolean |
| ConfigText.ConvertInValues | src/user/uroam_cli.py:111-122 | any spelling of true or false becomes that boolean, plain digits their number, other text what float takes, or itself |
| ConfigText.LeadingZero | src/user/uroam_cli.py:114-115 | leading zeros of a number do not matter |
| ConfigTree.WordsReadBack | src/user/uroam_cli.py:102-122 | the booleans, and a text nothing else takes, are read back under the typed path exactly if its prefix exists |
| ConfigTree.WordsAreSwitches | src/user/uroam_cli.py:78-125 | setting a parameter to a spelling of true or false leaves configuration and file as enable or disable does |
| ConfigText.JoinSplit | src/user/uroam_cli.py:104 | joining the parts of a split path gives the typed path, and no part has a dot |
| ConfigText.SplitJoin | src/user/uroam_cli.py:104 | every list of parts without dots can be typed, and is what the split gives |
| ConfigText.ConvertDecimal | src/user/uroam_cli.py:112-115 | a number typed in decimal is stored as that number |
| ConfigTree.NumberReadsBack | src/user/uroam_cli.py:102-122 | a number set under a typed path is read back as that number there, or nothing is if the prefix is missing |
| ConfigTree.AssignInPlace | src/user/uroam_cli.py:110-122 | assigning the last key in one dictionary object updates exactly that path of the tree and keeps its objects unshared |
| ConfigTree.PutIsAssign | src/user/uroam_cli.py:105-122 | the tree after the assignment is the functional update |
| ConfigTree.FailsIffScalarInWay | src/user/uroam_cli.py:107-122 | an update fails exactly if a proper prefix of the path leads to a scalar |
| ConfigTree.ReadBackIffPrefixExists | src/user/uroam_cli.py:102-122 | the written value is read back exactly if the prefix exists; otherwise the whole tree is unchanged |
| ConfigTree.OthersUnchanged | src/user/uroam_cli.py:102-122 | every path that does not overlap the updated one keeps its value |

## Left out

- All input and output: /proc, /sys, netlink messages, sockets, mounts, subprocesses and the saving of files. Readings become parameters; sysfs is a map with a fixed set of writable keys.
- The rebalancing code behind rb_insert_color is part of the kernel and not of this repository; it is any list of rotations and recolourings, so the balance of the tree is not stated.
- ProcessTracking.ProcessIndex.Scan takes what each lookup of a pid number gives as a map, since a scan asks for a number at most once; find_get_pid is a kernel function that answers for the exact number. The memory counters of a task are given. Spin locks appear as atomicity of each update.
- Pointers to nodes are slot numbers, with -1 for null. The index of tracking.c is stated between init and exit; ProcessIndex.Exit says what happens at exit.
- rb_erase is never called by the module, so removal is not modelled.
- ByteSwap128: with an odd number of 64-bit words the loop also rewrites the word after the last one; the contract then asks for a buffer that extends over it. Alignment and strict aliasing of the word pointer are not modelled.
- MemoryTracker and Memopt counters are unbounded integers; wrap-around of the 64-bit statistics counters is not modelled. BumpPool does model it for used + size.
- Memopt.MemoptGlobals.Release: the unmapping of 4096 bytes is not modelled, only the accounting. memopt_calloc is an allocation and is not modelled separately.
- BlockPool: a block is a token, so an address that the system allocator hands out again after a release is a different block. Handing None or a foreign block to free is outside the client contract.
- ScanModule: the body of the work function, the status file and the sysctl values do not touch the protocol. How often the timer fires while del_timer_sync waits depends on the clock; TimerDeletionWaits bounds the wait by it.
- ControlLoop works with exact rationals for percentages, stalls and swap ratios instead of floating point, and with unbounded sums. The SwapUsed field that the idle part overwrites in the discarded state is a local sum. Every write to drop_caches acts at once in the system; the model keeps the value last written. The writes at daemon start, the polling loop and logging are not modelled. Sysfs paths are constructors instead of strings.
- ModuleLifecycle: module parameters stay fixed between load and unload. The distance table is tracked by its pointer and not by release order. The NUMA balancer, kprobe address rewriting and enabling hook tracing a second time are not modelled.
- IdleDebounce.IdleOptimizer.ApplyNormal: the start of the preload program, whose outcome the source ignores, is not modelled; nor is the reading of the used swap.
- WorkloadClassifier takes the lower-cased texts and the parsed memory numbers as input. The sysctl writes of each profile are constant lists and are not modelled.
- WorkloadClassifier.Classifier.RunPass: reading the system information is the parameter newPercent, and the failures of the reads are not modelled.
- ConfigTree.Cli.SetParameter: what Python makes of a text that is neither a boolean word nor ASCII digits (a float, or an integer in other digits) is a parameter, and int takes any number of digits. Dictionaries shared through YAML anchors are excluded by the invariant. Objects are numbers in one heap map.
- uroam_numa_get_best_node, pressure levels, the netlink messages, gaming and configuration constants, command-line front ends and the Python daemon would add only easy members or are placeholders.
