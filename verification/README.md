# Proofs about the coherence simulator and its SPLASH-2 workloads

This project models, in Dafny, the directory-based MSI cache simulator under `src/simulator` and the
concurrent and algorithmic cores of four of the programs it is fed with: radiosity, FMM, Barnes-Hut and the
ray tracer. Check everything with `dafny verify dfyconfig.toml`.

## What is modelled

**Directory protocol.** `Protocol` describes one directory line and the steps a read, a write and an eviction
take it through, for plain MSI and for the adaptive variant that pushes a written line to its frequent
readers; what follows is proved for all runs. `PackedWords`, `DirectoryWords` and `PackedProtocol` run the same
protocol on the bit masks and 2-bit lanes of the directory words and prove the two equal over every run.
`CacheSets` and `AddressSplit` cover the sets of a cache and the address arithmetic, `Columns` what an access and a
store's pushes do to the sets of one address across all processors. `Simulator` has the classes: directory, cache set
and controller, updated step by step as in the source, with a ghost log of all events (`EventLog`) that ties them to
the protocol even where a push evicts a line and re-enters the directory.

**Radiosity's tasks.** `WorkQueues` is a step system over any number of workers, with work stealing, the polling
barrier and several phases; `StealScan` is the scan order it uses. `TaskPool` has the linked descriptors and their
free lists. `ForkJoin` is the continuation-passing walk of the element quadtree. `VisibilitySplit` and
`VisibilityTasks` cut an interaction list into tasks and run them.

**Cost zones.** `PrefixZones` defines a zone as a prefix-sum interval of a weighed list and proves that adjacent
zones share the list out. `BarnesZones` and `FmmZones` prove the two pruned tree walks equal to it, under the
shipped child and direction tables (`ChildOrders`, `BarnesOrders`). `Partitions` has a processor's box lists
and `SubtreeCosts` and `CellCosts` the spinning bottom-up reductions that compute the costs of FMM and of
Barnes-Hut.

**Spatial trees.** `ParticleHeap`, `ParticleCascade` and `ParticleTree` insert particles into the FMM quadtree,
`AdjacencyLists` finds the neighbours of its leaves, `OctantPaths` and `ConcurrentOctree` build the Barnes-Hut
octree under all interleavings, and `Bintree` prunes and looks up the ray tracer's grid. `RunLength` encodes a
scanline. `Arithmetic`, `Sequences`, `Loops` and `BoxGeometry` hold what several of these share.

A concurrent part is a set of steps, each one lock region or one unlocked look at shared data, which
interleave in any order; claims are about every reachable state or every run. Single-threaded parts that
change fields are classes and methods, proved against a function of the old state.

## Where the code does not do what is said of it

- Adaptive protocol: a new writer is entered among the sharers before the line is looked up, so its store to a
  valid line is always reported as a hit (`AdaptiveStoreReport` says exactly when the report is right;
  `AdaptiveStoreHitWithoutCopy` is a run where it is not). The counters such a writer takes down are cleared right
  afterwards, so taking them down has no effect.
- The push goes to readers with at least two read misses since the last change of writer; one is not
  enough (`QualifiedIsTwoReads`, `LaneCountsReadMisses`).
- `evict` reports address 0 when way 0 is the victim (`EvictionNamesVictim`, `WrongAddressEvicted`). Its counters
  are not a recency order: a new line inherits the counter of the line it replaces (`CountersAddUp`). Nothing here
  therefore claims that the directory always mirrors the caches: claims are about the invalidations actually made, and
  about a line's sharers right after a store to it (`StoreSingleLine`).
- FMM zones: a childless root with less work than processors is inserted by every processor
  (`EachBoxInOnePartition`).
- Inserting particles need not end. The cascade of subdivisions ends exactly when the overflowing leaf's 41 particles
  are not all in one place (`CascadeEndsExactly`); an empty grid takes a list in every order of it exactly when no 41
  of its particles are in one place (`EveryOrderEnds`, `FortyOneInTheMiddle`). Without the words "in every order" that
  is not so: on the border of boxes more can be taken, depending on where the search starts (`BorderTakesMore`).
- Octree insertion reaches its error exit exactly when eleven bodies agree in all bits but the lowest
  (`ErrorExactlyOnCrowds`).
- A bintree over a grid of a single cell is never filtered and keeps all primitives (`BintreeLookup`).

## Model

| member | source | states |
|---|---|---|
| Protocol.Run | src/simulator/coherence.H:75-82 | over any run of reads, writes and evictions, every read count stays within 0..3 and every sharer is an existing processor |
| Protocol.PlainSafety | src/simulator/coherence.cpp:5-87 | plain MSI, every run: INVALID iff no sharers, and MODIFIED only with exactly one sharer, so no state assert and no owner lookup can fail |
| Protocol.PlainEviction | src/simulator/coherence.cpp:38-59 | plain MSI, after every run: evicting the owner of a MODIFIED line makes it INVALID without sharers, any other eviction changes nothing |
| Protocol.SharersHoldCopies | src/simulator/coherence.cpp:157-256 | plain MSI, every run: p's sharer bit is set iff p accessed the address after every other processor's last write to it and after p's own last eviction |
| Protocol.HitIffHoldsCopy | src/simulator/coherence.cpp:185-256 | plain MSI, every run: an access is reported a hit iff that same condition on the history holds |
| Protocol.AdaptiveSafety | src/simulator/coherence.cpp:90-154 | adaptive protocol, every run: INVALID iff no sharers; a MODIFIED line has its last writer among the sharers and every other sharer has a read count of at least 2 |
| Protocol.AdaptiveEviction | src/simulator/coherence.cpp:38-59 | adaptive, after every run: an eviction takes a MODIFIED line out of that state iff it strikes the last writer, and then leaves it SHARED if anyone still shares it, INVALID otherwise |
| Protocol.LaneCountsReadMisses | src/simulator/coherence.H:75-108 | each 2-bit count equals min(3, that reader's read misses since the last change of writer) |
| Protocol.ConsumersKeepHitting | src/simulator/coherence.cpp:101-139 | a reader counted twice keeps its copy through any number of further writes by the same writer, reads by anyone and evictions of others, and its reads are hits |
| Protocol.PlainConsumersMiss | src/simulator/coherence.cpp:62-87 | under plain MSI the same write makes every other processor's next read a miss |
| Protocol.AdaptiveStoreReport | src/simulator/coherence.cpp:140-151 | a store's hit report agrees with the writer holding the line iff the line is INVALID, or the writer is already the last writer, or it is a sharer |
| Protocol.AdaptiveStoreHitWithoutCopy | src/simulator/coherence.cpp:140-151 | concrete run: processor 1's first access ever is reported as a hit |
| PackedWords.IsSetIsShiftAndMask | src/simulator/coherence.H:41-44 | the bit test by repeated halving is the test of (v >> p) & 1 |
| PackedWords.IsSetAfterSet | src/simulator/coherence.H:60-63 | setting bit p sets it and leaves every other bit as it was |
| PackedWords.IsSetAfterClear | src/simulator/coherence.H:65-68 | clearing bit p clears it and leaves every other bit as it was |
| PackedWords.LaneIsShiftAndMask | src/simulator/coherence.H:75-82 | the lane read by repeated quartering is (v >> 2p) & 3 |
| PackedWords.LaneIncrease | src/simulator/coherence.H:75-82 | adding one to a lane below 3 changes that lane by one and no other lane: there is no carry |
| PackedWords.CountersFit | src/simulator/coherence.H:75-82 | counting in one of k lanes keeps the word within 2k bits |
| PackedWords.QualifiedIsTwoReads | src/simulator/coherence.H:93-96 | testing bit 2p + 1 is testing for a count of at least 2 |
| DirectoryWords.SetSharer | src/simulator/coherence.H:60-63 | on the word, set_sharer adds exactly that processor to the set of sharers and stays within 15 bits |
| DirectoryWords.ClearSharer | src/simulator/coherence.H:65-68 | clear_sharer removes exactly that processor and makes the word no larger |
| DirectoryWords.NoSharers | src/simulator/coherence.cpp:54-58 | comparing the whole word with zero is testing for the empty set of sharers |
| DirectoryWords.CountsIncrease | src/simulator/coherence.H:75-82 | counting a read on the word is the saturating count on the sequence of lanes |
| DirectoryWords.NewWordsAreFresh | src/simulator/coherence.H:33-39 | the words of a new line stand for an INVALID, unshared line without last writer and with all counts zero |
| PackedProtocol.UpdateLastWriterView | src/simulator/coherence.H:103-108 | on words: the writer is recorded, entered among the sharers, and all lanes become 0 |
| PackedProtocol.FetchStands | src/simulator/coherence.cpp:15-32 | the word-level fetch does to the line what the set-level one does, with the same hit report |
| PackedProtocol.FetchAndInvalidateStands | src/simulator/coherence.cpp:62-87 | on words: the writer ends as the only sharer, MODIFIED, hit iff its bit was set before |
| PackedProtocol.ReadStands | src/simulator/coherence.cpp:185-213 | word-level read refines the protocol's read |
| PackedProtocol.InvalidateStands | src/simulator/coherence.cpp:38-59 | word-level eviction refines the protocol's eviction, in both variants |
| PackedProtocol.PushStands | src/simulator/coherence.cpp:117-136 | the push loop over the words leaves exactly the qualified readers among the other processors it visits |
| PackedProtocol.WriteStands | src/simulator/coherence.cpp:90-154 | word-level write, in both variants and all branches, refines the protocol's write |
| PackedProtocol.PackedRunStands | src/simulator/coherence.cpp:185-256 | every run on packed words stands for the same run on lines and reports the same hits |
| CacheSets.Victim | src/simulator/cache.H:94-106 | the victim is the leftmost way with the least counter |
| CacheSets.ApplyKeepsInv | src/simulator/cache.H:47-88 | an access keeps cached tags distinct and leaves the accessed tag cached |
| CacheSets.AddressesWereAsked | src/simulator/cache.H:64-76 | in every run each cached way holds the address of an access that was made under its tag |
| CacheSets.CountersAddUp | src/simulator/cache.H:53-76 | over every run the counters of a set add up to the number of replacing accesses made to it |
| CacheSets.NoEarlyEviction | src/simulator/cache.H:92-113 | with loads and stores only, an eviction is reported only when every way is cached |
| CacheSets.WorkingSetStays | src/simulator/cache.H:64-113 | while at most as many distinct tags as ways were asked for, exactly those are cached and nothing was evicted |
| CacheSets.EvictionNamesVictim | src/simulator/cache.H:92-113 | the address handed to the directory is the victim's own iff the victim is not way 0 or way 0 holds address 0 |
| CacheSets.WrongAddressEvicted | src/simulator/cache.H:64-111 | concrete run of two accesses to an empty direct-mapped set: the line at address 64 is evicted and the directory is told 0 |
| AddressSplit.GetNumBits | src/simulator/cache.H:217-222 | the loop returns the exponent of the power of two at or below its argument |
| AddressSplit.SplitRoundTrip | src/simulator/cache.H:203-214 | tag, set index and offset are in range and add up to the address |
| AddressSplit.SplitInjective | src/simulator/cache.H:203-214 | equal tag, index and offset only for equal addresses |
| AddressSplit.SplitUnique | src/simulator/cache.H:203-214 | tag, index and offset are the only such parts: a tag with its low bits clear, an index and an offset in range that add up to the address |
| AddressSplit.TagIsEven | src/simulator/cache.H:209-214 | no address has the all-ones tag of an empty way |
| Columns.SharerHolds | src/simulator/coherence.cpp:101-136 | whoever shares a line after a store has it in its set, if the writer had it |
| Columns.OnlyRecallsCount | src/simulator/cache.H:64-76 | a pushed line does not count as a use of its set, the line that a writer brings back does |
| Columns.ReportsElsewhere | src/simulator/coherence.cpp:101-136 | nothing that a store evicts is logged under the address it writes |
| Simulator.Directory.Owner | src/simulator/coherence.H:51-58 | the scan ends at the least sharer and, on a shared line, never runs past the last processor |
| Simulator.Directory.Fetch | src/simulator/coherence.cpp:5-35 | hit iff already a sharer; otherwise the reader joins and the line becomes SHARED; no other line changes |
| Simulator.Directory.FetchAndInvalidate | src/simulator/coherence.cpp:62-87 | the writer ends as the only sharer of a MODIFIED line; hit iff it was a sharer |
| Simulator.Directory.UpdateLastWriter | src/simulator/coherence.H:103-108 | new last writer, entered among the sharers, all counts zero |
| Simulator.Directory.InvalidateCopy | src/simulator/coherence.cpp:38-59 | an eviction takes the protocol's eviction step on that line; it is entered in the log, and all lines stay consistent with it, except that one striking the line being written takes effect without an entry |
| Simulator.Directory.ProcessRead | src/simulator/coherence.cpp:185-216 | after a load every line is still what the protocol makes of its own events, and the hit report is the protocol's for the history of that address |
| Simulator.Directory.ProcessWrite | src/simulator/coherence.cpp:219-256 | the same for a store, whatever evictions the pushes cause; every processor's set takes exactly the access that the store makes to it; pushes that strike the written line itself are part of the one logged write, the evictions of other lines are logged each, in order |
| Simulator.Directory.WriteMiss | src/simulator/coherence.cpp:171-182 | an INVALID line becomes MODIFIED under its new last writer, counts zero |
| Simulator.Directory.PushAndInvalidate | src/simulator/coherence.cpp:90-154 | although pushes evict and re-enter the directory, the written line ends exactly as the protocol's write step says; each processor's set has taken its access, or is as it was, and the log has the evictions that these cause |
| Simulator.Directory.TakeOver | src/simulator/coherence.cpp:140-151 | a new writer ends as the only sharer with all counts zero and is reported a hit |
| Simulator.Directory.PushByLastWriter | src/simulator/coherence.cpp:101-139 | the sharers become the writer and the other readers counted at least twice; hit iff the writer still held the line; the writer's set changes only if it did not, and the readers' sets have the line brought in |
| Simulator.Directory.PullIn | src/simulator/coherence.cpp:104-108 | the processor's set takes the access and holds the tag, the other sets of the address are as before, the log gains the one eviction reported or none, and the written line can lose at most that processor's own copy |
| Simulator.Directory.Hold | src/simulator/coherence.cpp:104-115 | the last writer is a sharer afterwards; hit iff it was before, and then its set is as it was, otherwise its set has the line brought in |
| Simulator.Directory.PushToReaders | src/simulator/coherence.cpp:117-136 | after the loop the sharers are exactly the writer and its qualified readers, the readers' sets have taken the pushed line, all others are as before, and the log has the evictions in order |
| Simulator.Directory.PushOne | src/simulator/coherence.cpp:119-135 | a processor other than the writer becomes a sharer and has the line brought into its set iff it qualifies; nobody else's bit or set changes |
| Simulator.Directory.PushTurn | src/simulator/coherence.cpp:117-136 | one turn of the loop: the sets, the sharers and the log are those of the visited processors |
| Simulator.CacheSet.constructor | src/simulator/cache.H:41-44 | a new set is empty with zero counters |
| Simulator.CacheSet.Fetch | src/simulator/cache.H:47-61 | finds the first way with the tag, counts a replacing access on it, and reports its status |
| Simulator.CacheSet.Evict | src/simulator/cache.H:92-113 | returns the leftmost least counter and reports at most that way's recorded address to the directory |
| Simulator.CacheSet.FetchSingleLine | src/simulator/cache.H:64-88 | takes the set through one access step and the directory through at most one eviction, which with loads and stores only needs a full set |
| Simulator.Controller.constructor | src/simulator/cache.H:149-169 | all processors' sets are distinct objects, empty and consistent, for all power-of-two sizes |
| Simulator.Controller.TagIsReal | src/simulator/cache.H:209-214 | an address has the tag of an empty way only if the whole address is its tag and all ones |
| Simulator.Controller.FetchCacheLine | src/simulator/cache.H:188-195 | the indexed set of that processor, and no other, takes one access and holds the tag; the directory is told of exactly the eviction that this causes, with its address, or of none |
| Simulator.Controller.LoadSingleLine | src/simulator/cache.H:182-186 | one load: the set has taken the access and holds the tag; the eviction this causes, then the read, are logged, with the protocol's hit report on the history so far |
| Simulator.Controller.StoreSingleLine | src/simulator/cache.H:176-180 | one store: the line is brought in, then each processor's set takes the access that the store makes to it; the evictions of both, then the write, are logged, with the protocol's hit report; every sharer listed afterwards holds the line |
| StealScan.PositionIsDrift | src/splash2/codes/apps/radiosity/taskman.C:480-491 | with a single wrap per turn the queue index stays in range and is the start plus the alternating drift |
| StealScan.ScanIsPermutation | src/splash2/codes/apps/radiosity/taskman.C:440-491 | visits and queues correspond one to one: each of the n queues is looked at exactly once |
| StealScan.NextQueue | src/splash2/codes/apps/radiosity/taskman.C:479-491 | one turn of the code's offset arithmetic reaches the next queue of that order |
| StealScan.FindQueue | src/splash2/codes/apps/radiosity/taskman.C:440-493 | run alone, the scan stops at the first non-empty queue in that order, and finds nothing over all queues only if all are empty |
| WorkQueues.StepInv | src/splash2/codes/apps/radiosity/taskman.C:63-139 | every step of every worker keeps the barrier count, the multiset of tasks, and that each non-empty queue has a worker who will come across it |
| WorkQueues.ProceedFinds | src/splash2/codes/apps/radiosity/taskman.C:440-493 | no queue is forgotten, even when a worker gives up its scan because it lost a race for a queue |
| WorkQueues.NothingLeftBehind | src/splash2/codes/apps/radiosity/taskman.C:63-139 | every interleaving: when all workers stand at the final barrier all queues are empty and each task was executed exactly as often as created |
| WorkQueues.CounterCounts | src/splash2/codes/apps/radiosity/taskman.C:108-139 | every interleaving: the barrier count is the number of counted workers, at most n while any is counted, and a worker resets it only when no worker is counted |
| WorkQueues.BarrierHolds | src/splash2/codes/apps/radiosity/taskman.C:117-139 | every interleaving: a worker at the barrier loop goes on to the final barrier iff all workers are counted; until then it waits and may poll |
| WorkQueues.NobodyPassesEarly | src/splash2/codes/apps/radiosity/taskman.C:117-139 | every interleaving: a step that brings a worker to the final barrier is its own and finds all workers counted, so none setting up or running a task |
| WorkQueues.PollFindsWork | src/splash2/codes/apps/radiosity/taskman.C:124-136 | a waiting worker takes a task by polling, undisturbed, whenever some queue has one |
| WorkQueues.OwnerTakesNewest | src/splash2/codes/apps/radiosity/taskman.C:452-459 | a worker takes from the front of its own queue |
| WorkQueues.ThiefTakesTail | src/splash2/codes/apps/radiosity/taskman.C:460-472 | a thief takes from the end of another's |
| WorkQueues.SomeoneCanAdvance | src/splash2/codes/apps/radiosity/taskman.C:117-139 | from every reachable state short of the final barrier some worker can go on without polling |
| WorkQueues.AdvanceProgresses | src/splash2/codes/apps/radiosity/taskman.C:70-136 | each such step lowers the unfinished tasks or, with those equal, the distance to the barrier |
| WorkQueues.PhaseCanFinish | src/splash2/codes/apps/radiosity/taskman.C:63-139 | from every reachable state some interleaving brings all workers to the barrier |
| TaskPool.TaskLists.constructor | src/splash2/codes/apps/radiosity/taskman.C:623-668 | init_taskq: all descriptors in consecutive blocks on the shared free lists, everything else empty, counts equal to lengths |
| TaskPool.FewQueuesFit | src/splash2/codes/apps/radiosity/taskman.C:634-663 | every queue gets a descriptor if the square of one less than the queues is below the number of descriptors |
| TaskPool.BuildsFit | src/splash2/codes/apps/radiosity/radiosity.H:72-125 | so in every build they suffice for every accepted number of queues |
| TaskPool.InitTaskq | src/splash2/codes/apps/radiosity/rad_main.C:1144-1149 | init_taskq under each build: all descriptors in consecutive blocks, for 1 to MAX_TASKQUEUES queues |
| TaskPool.TaskLists.Enqueue | src/splash2/codes/apps/radiosity/taskman.C:377-413 | the queue's list gains the task at the chosen end, whether or not it was empty; no other list changes |
| TaskPool.TaskLists.TakeFirst | src/splash2/codes/apps/radiosity/taskman.C:452-459 | a list gives up exactly its first descriptor, or nothing if it is empty |
| TaskPool.TaskLists.Steal | src/splash2/codes/apps/radiosity/taskman.C:460-472 | another worker's queue gives up exactly its last descriptor, found by walking its links |
| TaskPool.TaskLists.WalkToLast | src/splash2/codes/apps/radiosity/taskman.C:463-464 | the walk ends at the last descriptor and the one before it |
| TaskPool.TaskLists.Refill | src/splash2/codes/apps/radiosity/taskman.C:523-541 | the first descriptors of a free list, at most 8, become the local list; fails iff the free list is empty |
| TaskPool.TaskLists.FreeTask | src/splash2/codes/apps/radiosity/taskman.C:578-609 | the descriptor goes on the local list, and at 16 the first 8 go to the shared list, so a local list never keeps 16 |
| TaskPool.TaskLists.Export | src/splash2/codes/apps/radiosity/taskman.C:590-608 | the first 8 local descriptors go, in order, to the front of the shared free list |
| TaskPool.Rewired | src/splash2/codes/apps/radiosity/taskman.C:377-609 | a change of links confined to two lists keeps every other list and the place of every other descriptor |
| TaskPool.ExactlyOnePlace | src/splash2/codes/apps/radiosity/taskman.C:377-609 | in every state the operations keep, a descriptor is in somebody's hands or on exactly one list, once |
| TaskPool.WalkIsTheList | src/splash2/codes/apps/radiosity/taskman.C:377-609 | following the links from a head meets the list in order and ends after exactly `count` steps: no cycle, no loose end |
| ForkJoin.StepInv | src/splash2/codes/apps/radiosity/elemman.C:749-880 | every start, task creation and join, anywhere in the tree, keeps each element's counter and partial sum in step with its children |
| ForkJoin.JoinInv | src/splash2/codes/apps/radiosity/elemman.C:824-854 | a join takes the counter down by one and adds a quarter of that child's radiosity once; the fourth one finishes the parent |
| ForkJoin.StepKeepsTree | src/splash2/codes/apps/radiosity/elemman.C:749-880 | no step changes the shape of the tree, the gathers or the emittances |
| ForkJoin.StepDecreases | src/splash2/codes/apps/radiosity/elemman.C:749-880 | every step is one of a fixed number, so no element starts, creates a child's task or joins twice |
| ForkJoin.CanStep | src/splash2/codes/apps/radiosity/elemman.C:749-880 | an element whose task exists has finished or can take a step below it |
| ForkJoin.FinishedIsFinal | src/splash2/codes/apps/radiosity/elemman.C:844-850 | a finished element and all below it have the radiosity of the recursive definition |
| ForkJoin.EveryScheduleIsRight | src/splash2/codes/apps/radiosity/elemman.C:749-880 | every schedule can go on until all roots have deposited, after exactly a fixed number of steps; the trees are the same throughout, and at the end every element has the radiosity that the recursive definition gives on the trees of the start, and the totals are theirs, whatever the order of finishing |
| ForkJoin.EveryScheduleAverages | src/splash2/codes/apps/radiosity/elemman.C:749-880 | where a patch's elements share its emittance, every schedule ends with each parent's radiosity the mean of its four children's, at all levels |
| VisibilitySplit.CreateVisibilityTasks | src/splash2/codes/apps/radiosity/taskman.C:249-332 | continuation at once iff nothing is undefined; solved at once iff few undefined or the queue is long; otherwise ceil(U/V) tasks that tile the list with 1 to V undefined entries each, no two tasks more than one apart |
| VisibilitySplit.CutIntoTasks | src/splash2/codes/apps/radiosity/taskman.C:292-331 | the residue loop cuts exactly ceil(U/V) such tasks, task k of n ending with undefined entry number ceil((k + 1) U / n) |
| VisibilitySplit.CutOff | src/splash2/codes/apps/radiosity/taskman.C:305-330 | the loop's invariant survives cutting off a task, and the last one takes the rest of the list |
| VisibilitySplit.SharesAreEven | src/splash2/codes/apps/radiosity/taskman.C:303-328 | tasks that end so have numbers of undefined entries at most one apart |
| VisibilityTasks.ComputeVisibilityValues | src/splash2/codes/apps/radiosity/visible.C:715-735 | exactly the undefined entries of the stretch are filled in; all others keep their values |
| VisibilityTasks.StepInv | src/splash2/codes/apps/radiosity/visible.C:742-769 | each computed entry and each locked update keeps the counter equal to the entries of unfinished tasks |
| VisibilityTasks.ContinuationCalledOnce | src/splash2/codes/apps/radiosity/visible.C:742-769 | every interleaving: the continuation is called once, exactly when all tasks have finished, and then every entry is defined |
| VisibilityTasks.SplitIsValid | src/splash2/codes/apps/radiosity/taskman.C:292-331 | what the split produces is a set of tasks to which that applies |
| PrefixZones.ZonesMeet | src/splash2/codes/apps/barnes/code.C:653-656 | adjacent zones of a weighed list, one after the other, are the zone of the outer bounds |
| PrefixZones.ZonesJoin | src/splash2/codes/apps/barnes/code.C:653-656 | any ascending bounds cut the list into zones that give it back without loss, repetition or reordering |
| PrefixZones.FlatStops | src/splash2/codes/apps/barnes/code.C:813-814 | leaving the loop at the upper bound loses nothing of the zone |
| BarnesOrders.OrdersAreValid | src/splash2/codes/apps/barnes/code.C:132-235 | each of the 32 shipped rows visits every octant exactly once, each next to the one before, and leads to a listed direction |
| ChildOrders.EachChildOnce | src/splash2/codes/apps/barnes/code.C:132-235 | summing children in a row's order is summing the children |
| BarnesZones.TraversalIsTheTree | src/splash2/codes/apps/barnes/code.C:813-824 | the unpruned walk meets every body as often as the tree stores it and costs what the root says, in every direction |
| BarnesZones.Processor.FindMyBodies | src/splash2/codes/apps/barnes/code.C:791-825 | the pruned walk appends exactly the bodies whose prefix cost in the unpruned walk lies in the processor's bounds, in that order |
| BarnesZones.Processor.CellBodies | src/splash2/codes/apps/barnes/code.C:812-824 | the loop over octants, left at the upper bound |
| BarnesZones.Processor.VisitOctant | src/splash2/codes/apps/barnes/code.C:814-822 | an octant wholly below the lower bound is skipped without loss, and its cost is passed |
| BarnesZones.Processor.LeafBodies | src/splash2/codes/apps/barnes/code.C:797-811 | the leaf's loop takes the leaf's share of the zone |
| BarnesZones.Processor.SetBounds | src/splash2/codes/apps/barnes/code.C:653-656 | workMin and workMax become the truncated bounds of this processor, whose values BoundsAreEven gives |
| BarnesZones.Processor.PartitionStep | src/splash2/codes/apps/barnes/code.C:653-663 | one processor's table is its zone of the common order |
| BarnesZones.BoundsAreEven | src/splash2/codes/apps/barnes/code.C:653-656 | the lower bound of processor p is the largest whole number not above p parts of cost/nproc, its upper bound that of p + 1, and past the total for the last |
| BarnesZones.ShareIsBounded | src/splash2/codes/apps/barnes/code.C:653-663 | no processor's bodies cost more than cost/nproc, rounded up, and the largest cost of one body |
| BarnesZones.ZonesPartitionTheBodies | src/splash2/codes/apps/barnes/code.C:791-825 | all processors' tables in turn are the common order of all bodies, each body as often as stored |
| CellCosts.StepInv | src/splash2/codes/apps/barnes/load.C:337-407 | every step keeps finished nodes' costs right, a node's flag up from when it is finished until its cell takes it, and partial sums in step with the octants passed |
| CellCosts.WaitsForLater | src/splash2/codes/apps/barnes/load.C:375-379 | a cell that waits does so for a processor that is at a leaf or at a cell created later |
| CellCosts.SomeoneCanStep | src/splash2/codes/apps/barnes/load.C:368-407 | while any processor is working, some processor can take a step |
| CellCosts.EveryRunSumsUp | src/splash2/codes/apps/barnes/load.C:322-408 | no interleaving deadlocks; all runs end after a fixed number of steps, and then every node has the cost of its subtree and only a root's flag is still up |
| CellCosts.ReadyForZones | src/splash2/codes/apps/barnes/load.C:322-408 | the tree with the costs of any such run is one the cost zones can be cut from |
| Partitions.Partition.InsertBox | src/splash2/codes/apps/fmm/partition_grid.C:103-126 | the partition's lists hold the boxes inserted so far, plus this one |
| Partitions.Partition.IterateBottom | src/splash2/codes/apps/fmm/partition_grid.C:86-97 | the walk visits every inserted box as often as inserted, childless ones first, then parents by falling level |
| Partitions.BottomOrderIsComplete | src/splash2/codes/apps/fmm/partition_grid.C:86-97 | the same about the lists themselves |
| FmmZones.Shipped | src/splash2/codes/apps/fmm/cost_zones.C:27-43 | the shipped tables visit each child exactly once in every direction |
| FmmZones.TraversalIsTheTree | src/splash2/codes/apps/fmm/cost_zones.C:100-118 | the unpruned walk, with each parent after its third child, meets every box as often as the tree holds it and costs the root's subtree cost |
| FmmZones.ParentsTurn | src/splash2/codes/apps/fmm/cost_zones.C:103-117 | a parent is met between its third and its fourth child |
| FmmZones.CostZonesHelper | src/splash2/codes/apps/fmm/cost_zones.C:88-120 | the pruned walk inserts exactly the processor's zone of that order; a childless box is inserted without a look at the upper bound |
| FmmZones.ParentTurns | src/splash2/codes/apps/fmm/cost_zones.C:100-118 | the loop over four turns, left at the upper bound |
| FmmZones.OneTurn | src/splash2/codes/apps/fmm/cost_zones.C:100-118 | a child's share and, in the third turn, the parent itself if it falls in the bounds |
| FmmZones.CostZones | src/splash2/codes/apps/fmm/cost_zones.C:46-63 | one processor's partition holds its zone of the whole grid |
| FmmZones.BoundsAreEven | src/splash2/codes/apps/fmm/cost_zones.C:51-59 | every processor's bounds are work/nproc apart, the last one's by the remainder more |
| FmmZones.ShareIsBounded | src/splash2/codes/apps/fmm/cost_zones.C:46-63 | no processor's boxes cost more than that width and the largest cost of one box |
| FmmZones.EachBoxInOnePartition | src/splash2/codes/apps/fmm/cost_zones.C:46-120 | every box is in exactly one partition iff the root is a parent, or the work is at least the number of processors, or there is one processor |
| SubtreeCosts.EveryRunSumsUp | src/splash2/codes/apps/fmm/cost_zones.C:66-85 | no interleaving deadlocks; all runs end after two steps per box, and then every box holds the cost of its whole subtree and every counter is 0 |
| SubtreeCosts.SomeoneCanStep | src/splash2/codes/apps/fmm/cost_zones.C:66-85 | while any processor is working, some processor can take a step |
| SubtreeCosts.CurrentFirst | src/splash2/codes/apps/fmm/partition_grid.C:86-97 | in bottom-up order the box a processor stands at comes before all it still has to do |
| SubtreeCosts.ParentFirstNeverFinishes | src/splash2/codes/apps/fmm/cost_zones.C:73-77 | if a processor lists a box before one of its own children, no run finishes |
| AdjacencyLists.PrunedHasNone | src/splash2/codes/apps/fmm/construct_grid.C:1000-1011 | a subtree that b neither touches nor lies below holds no neighbour of b |
| AdjacencyLists.UList.SetUListHelper | src/splash2/codes/apps/fmm/construct_grid.C:992-1014 | the pruned descent adds exactly the touching leaves below the box, in order |
| AdjacencyLists.SetUList | src/splash2/codes/apps/fmm/construct_grid.C:971-977 | the list is rebuilt as the touching leaves of the whole grid |
| AdjacencyLists.LeavesAreDisjoint | src/splash2/codes/apps/fmm/construct_grid.C:453-489 | dyadic leaves have pairwise disjoint interiors |
| AdjacencyLists.UListIsAdjacency | src/splash2/codes/apps/fmm/construct_grid.C:971-1052 | a leaf's list holds exactly the leaves of the whole tree that touch it, each once |
| AdjacencyLists.UListsAreSymmetric | src/splash2/codes/apps/fmm/construct_grid.C:971-1052 | two leaves are on each other's lists or on neither |
| AdjacencyLists.AdjacentIffBoundaryShared | src/splash2/codes/apps/fmm/box.C:297-320 | for two leaves the exact comparisons miss no contact: adjacent iff the closed squares meet |
| ParticleHeap.QuadrantContains | src/splash2/codes/apps/fmm/construct_grid.C:495-532 | the child a particle is handed to contains it |
| ParticleCascade.DealOneKeeps | src/splash2/codes/apps/fmm/construct_grid.C:501-528 | handing one particle to its child, made if missing, keeps links and geometry and loses nothing |
| ParticleCascade.SplitKeeps | src/splash2/codes/apps/fmm/construct_grid.C:494-532 | subdividing a leaf keeps all particles, hands each to a child, and leaves a parent with those children it needed |
| ParticleCascade.OnlyChildSame | src/splash2/codes/apps/fmm/construct_grid.C:372-376 | an overflowing only child is half as long and holds exactly the same particles |
| ParticleCascade.OnePlaceGoesOn | src/splash2/codes/apps/fmm/construct_grid.C:370-377 | from particles in one place the guard is still true after any number n of turns, the box halved n times and holding them all |
| ParticleCascade.ApartEnds | src/splash2/codes/apps/fmm/construct_grid.C:370-377 | two particles apart in an overflowing leaf bring the loop to an end |
| ParticleCascade.CascadeEndsExactly | src/splash2/codes/apps/fmm/construct_grid.C:370-377 | the loop comes to an end iff the leaf is not overflowing or its particles are not all in one place |
| ParticleTree.BelowKeeps | src/splash2/codes/apps/fmm/construct_grid.C:393-418 | one step down leads to a child that contains the particle and moves no particle |
| ParticleTree.PlacedKeeps | src/splash2/codes/apps/fmm/construct_grid.C:366-369 | the particle is added to a leaf that contains it, and to nothing else; that leaf alone may now hold 41 |
| ParticleTree.NoCrowdEnds | src/splash2/codes/apps/fmm/construct_grid.C:358-379 | insertion comes to an end from every valid tree and in every order if no 41 stored or listed particles are in one place |
| ParticleTree.CrowdFirst | src/splash2/codes/apps/fmm/construct_grid.C:358-379 | an empty grid that is given 41 particles of one place first never gets beyond them, whatever else follows |
| ParticleTree.EveryOrderEnds | src/splash2/codes/apps/fmm/construct_grid.C:358-379 | an empty grid takes a list in every order iff no 41 of its particles are in one place |
| ParticleTree.FortyOneInTheMiddle | src/splash2/codes/apps/fmm/construct_grid.C:358-379 | concrete list: insertion of 41 particles in the middle of a grid does not end |
| ParticleTree.BorderTakesMore | src/splash2/codes/apps/fmm/construct_grid.C:423-444 | concrete tree and list: 41 particles in one place on a border, spread over two leaves, and insertion ends |
| ParticleTree.Tree.CreateChild | src/splash2/codes/apps/fmm/construct_grid.C:453-489 | a new box in the free place, geometry and links in order, nothing else changed |
| ParticleTree.Tree.SubdivideBox | src/splash2/codes/apps/fmm/construct_grid.C:494-532 | the loop over the particles, in place: all are dealt to the children, none is lost, and the leaf becomes a parent |
| ParticleTree.Tree.FindInitialRoot | src/splash2/codes/apps/fmm/construct_grid.C:423-444 | the climb ends at a box whose closed square contains the particle |
| ParticleTree.Tree.FindHome | src/splash2/codes/apps/fmm/construct_grid.C:387-420 | the descent ends at a leaf containing the particle, making it if it is missing, and moves no particle |
| ParticleTree.Tree.SplitWhileFull | src/splash2/codes/apps/fmm/construct_grid.C:370-377 | the loop, in place, stops exactly where its cascade does, if an overflowing leaf's particles are not all in one place |
| ParticleTree.Tree.InsertOne | src/splash2/codes/apps/fmm/construct_grid.C:367-377 | one particle put in its leaf and the cascade it sets off, in place |
| ParticleTree.Tree.InsertParticlesInTree | src/splash2/codes/apps/fmm/construct_grid.C:358-379 | afterwards the particles are the old ones plus the list, each in a leaf that contains it, with at most 40 to a leaf |
| ParticleTree.HasOneHome | src/splash2/codes/apps/fmm/construct_grid.C:358-532 | a particle that occurs once is in exactly one box, a leaf that contains it |
| OctantPaths.ComputeSubIndex | src/splash2/codes/apps/barnes/load.C:294-314 | the loop over three coordinates with its running flag |
| OctantPaths.SubIndexIsBijective | src/splash2/codes/apps/barnes/load.C:294-314 | octant numbers and triples of coordinate bits correspond one to one |
| OctantPaths.LevelIsPower | src/splash2/codes/apps/barnes/load.C:209-256 | the level after d halvings is the d-th power of two from the top |
| OctantPaths.SharedWay | src/splash2/codes/apps/barnes/load.C:294-314 | two bodies share their first n octants iff their coordinates agree in the top n bits |
| OctantPaths.SharedButLowestBit | src/splash2/codes/apps/barnes/load.C:294-314 | all octants but the last agree iff all bits but the lowest do |
| ConcurrentOctree.DistributeBodies | src/splash2/codes/apps/barnes/load.C:410-462 | each body of the old leaf goes to its octant's new leaf, in order |
| ConcurrentOctree.StepInv | src/splash2/codes/apps/barnes/load.C:158-261 | every look and every locked region of every processor keeps the tree in order and loaded bodies in place |
| ConcurrentOctree.OneLeafEach | src/splash2/codes/apps/barnes/load.C:204-261 | no body is in two leaves |
| ConcurrentOctree.StepsShrink | src/splash2/codes/apps/barnes/load.C:204-261 | every step uses up one of finitely many |
| ConcurrentOctree.EveryRunBuildsGoodTrees | src/splash2/codes/apps/barnes/load.C:158-462 | every interleaving: each loaded body is in exactly one leaf, on its way by subindex; leaves hold 1 to 10; levels halve along edges; insertion ends |
| ConcurrentOctree.ErrorExactlyOnCrowds | src/splash2/codes/apps/barnes/load.C:204-261 | a run that stops has loaded every listed body unless it ended in the error exit, and it does that iff eleven bodies agree in all bits but the lowest |
| Bintree.PrimsInBox | src/splash2/codes/apps/raytrace/cr.C:337-419 | the output list is the sublist, in order, of primitives overlapping the box within its tolerance |
| Bintree.OverlapsMeans | src/splash2/codes/apps/raytrace/cr.C:373-408 | a box overlaps within the tolerance iff it has a point in common with the box grown by the tolerance, on all three axes |
| Bintree.KeptMeans | src/splash2/codes/apps/raytrace/cr.C:365-415 | a primitive is kept as often as it was listed if it overlaps, and dropped otherwise |
| Bintree.PruningIsHarmless | src/splash2/codes/apps/raytrace/cr.C:337-419 | filtering by the box of an ancestor, with its larger tolerance, removes nothing a cell keeps |
| Bintree.SubdivBintree | src/splash2/codes/apps/raytrace/cr.C:488-598 | the largest axis is halved and each half gets the filtered list |
| Bintree.CreateBintree | src/splash2/codes/apps/raytrace/cr.C:613-632 | subdivision ends and reaches single cells |
| Bintree.HalfKeepsCell | src/splash2/codes/apps/raytrace/cr.C:488-598 | a half keeps all its node has for any of its cells, and a single cell keeps nothing else |
| Bintree.Descend | src/splash2/codes/apps/raytrace/cr.C:674-716 | one turn of the lookup enters the half that holds the cell |
| Bintree.BintreeLookup | src/splash2/codes/apps/raytrace/cr.C:656-733 | the lookup ends at the leaf of the cell asked for, and its list is the flat filter of the root's list by that cell |
| Bintree.CellListMeans | src/splash2/codes/apps/raytrace/cr.C:337-419 | the flat filter of a cell lists a primitive iff it has a point in common with the cell grown by its tolerance |
| Bintree.BuildAndLookup | src/splash2/codes/apps/raytrace/cr.C:434-733 | built and looked up: for at least two cells a side a primitive is on a cell's list, as often as given, iff it has a point in common with the cell grown by its tolerance; a grid of one cell keeps all |
| RunLength.RunLengthEncode | src/splash2/codes/apps/raytrace/fbuf.C:70-112 | the entries expand to exactly the quantised scanline, counts are bytes, there are at most xsize entries, and neighbours differ unless the first is full |
| RunLength.BytesSurvive | src/splash2/codes/apps/raytrace/fbuf.C:78-87 | pixels made from bytes are quantised to those bytes, channel by channel |
| RunLength.MaximalIsShortest | src/splash2/codes/apps/raytrace/fbuf.C:85-107 | no encoding of the same scanline has fewer entries |

## Left out

- Simulator: access costs, hop counts, profiling and statistics; home nodes; the instrumentation that feeds it; the assertion that a counter never reaches all ones.
- Simulator.Directory.ProcessWrite: the class keeps sharers as sets and counts as sequences; that the packed words behave the same is proved for whole runs in PackedProtocol, not inside the class.
- Simulator.Controller.FetchCacheLine: when neither offset nor index takes a bit of the address, the all-ones address is left out, since its tag is that of an empty way.
- Simulator.Directory.InvalidateCopy: an eviction that strikes the line being written is not entered in the log of events; the write's own entry stands for it.
- PackedWords: 32-bit shifts are products and quotients by powers of two, for at most 15 processors, where no shift leaves an `int` and nothing overflows; address masks in AddressSplit likewise, without a 64-bit limit. `clear_read_count` has no caller.
- WorkQueues.NothingLeftBehind: what a task does is left open except that it may put new tasks on any queue; the lengths of waits do not matter and are not modelled.
- TaskPool: several workers' operations are taken one whole operation at a time, and the search of `get_task` through all shared free lists, with its exit when none has a descriptor, is reduced to asking one of them.
- ForkJoin.EveryScheduleIsRight: one of three identical colour channels; gathered radiosity is an arbitrary number per element; refinement and the bookkeeping of `process_rays` and `process_rays2` before the gather are not modelled, nor is cost-based assignment.
- VisibilityTasks.ContinuationCalledOnce: creating the tasks is one step, so nothing is said about a task that finishes while later ones are still being created; the visibility of an entry is an arbitrary number.
- SubtreeCosts: how `ComputeCostOfBox` arrives at a cost, apart from its being at least 1 in FmmZones, and that each box is in exactly one partition, which is a precondition here.
- BarnesZones and FmmZones: costs are unbounded integers and the average is an exact quotient; the table's capacity and its error exit are not modelled.
- Partitions.Partition.InsertBox: a partition's doubly linked lists are sequences, so removal by pointer (`RemoveBoxFromPartition`) is not captured.
- BarnesZones, FmmZones, AdjacencyLists and Bintree: trees that are only read, or filled once, are values; aliasing and filling a bintree node in place are not captured.
- CellCosts: masses, positions and quadrupoles, of which only the costs are summed; that every processor's tables list what it created is a precondition.
- AdjacencyLists, ParticleTree and Bintree: coordinates are exact reals, so rounding of centres, lengths and tolerances is left out, as are the fixed lengths of the interaction lists.
- ParticleTree.Tree.InsertParticlesInTree: every particle must lie in the root's square, since outside it the climb to the initial root leaves the tree, and no 41 in one place.
- ConcurrentOctree: nodes are named by their paths, so reuse of the old leaf's memory and parent pointers are not captured; the cached root is left out because `loadtree` starts from the global root in any case; freeing is not modelled.
- OctantPaths: converting a position to integer coordinates (`intcoord`).
- Bintree: the ray's walk through the grid, and a null root.
- RunLength.RunLengthEncode: writing the entries to the file; channels are quantised as real numbers, and a value outside a byte's range wraps.
- W-lists and V-lists of FMM, merging of local trees, multipole expansions, form factors, BSP insertion, display and configuration: no property here, or numerics.
