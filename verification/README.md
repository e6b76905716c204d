# Verified models of the concurrent engines and instruments of efficios-trie-benchmark

This project models the parts of the benchmark suite whose correctness is argued in
comments: a queued spinlock, five list and hash engines with lock-free readers, a lock
protocol for list writers, a slab allocator, a skiplist audit, a rate limiter and two
end-of-run conservation checks.  `dafny verify dfyconfig.toml` checks all of it.

## How the models are built

A concurrent engine is a deterministic step function over *moves*: a move names a thread
and lets it make one load, store or read-modify-write, or start its next operation; a move
that is not possible does nothing.  `Exec(config, schedule)` is the state after a whole
schedule, and every theorem is about every configuration and every schedule.  A *history*
(`History`) is computed beside the run from the same schedule; steps never read it.
Memory is sequentially consistent.  Following a pointer to memory that is not allocated
sets a `fault` flag, so "no use after free" is the theorem that the flag is never set.
Freed addresses may be handed out again, except in the plan / lock / validate and the
three-hash models.

Library operations are modelled by their contracts: `call_rcu` frees a block only after
every read section open at the call has ended; a transaction's commit is one atomic
compare-and-swap of several words that may also fail for no reason; `dc_*` calls are
atomic operations on a map of names; `mmap` returns memory that overlaps no other mapping.
Sequential loops are methods with loops, and the slab cache and the pacer are classes.

| files | what they model |
|---|---|
| `QSpin*.dfy`, `LockWord.dfy` | the queued spinlock of `dcache_qspinlock.h`: any number of threads and locks |
| `SortedChain.dfy`, `RcuArena.dfy` | sorted chains under concurrent change, and memory reclaimed after grace periods |
| `RcuHash*.dfy` | the rcu_hlist engine: per-bucket writer locks, lock-free lookups |
| `TxnHash*.dfy` | the txn_hlist engine: optimistic sorted insert, validated delete, lookups through marked nodes |
| `RingList.dfy`, `Existence*.dfy` | the existence list, split layout |
| `Seqlock*.dfy` | the seqlock engine over a type-stable ring |
| `Lockset.dfy`, `Plan*.dfy` | plan / lock / validate, and how the harness drives it |
| `Slots.dfy`, `MainConfig.dfy` | the churn slots, and the configurations that main builds |
| `Skiplist*.dfy` | the skiplist audit and the counting descent |
| `Slab.dfy` | the per-CPU slab allocator |
| `Pace.dfy` | writer pacing |
| `ThreeHash*.dfy` | the three-hash rotation |
| `Namespace*.dfy` | the directory-cache benchmark's bookkeeping and census |

## Where a promise does not hold as stated

* The step guards of `chl_contains` and `thl_contains` count nodes against a limit derived
  from the list engines' sizes, not from the bucket.  A lookup that trips one answers 0
  whether or not the key is there.  Some run makes a lookup of k trip it exactly if k has
  more than the limit of smaller keys in its bucket for `chl_contains`, and at least the
  limit for `thl_contains`, which also counts the node it stops at (both `GuardTripsIff`).
* A seqlock walk that is accepted is atomic unless 2^64 stores to the sequence number fall
  into it (`AcceptedIsAtomic`, `AcceptsIff`); `WrapTears` builds a run in which exactly
  that many make it accept a torn walk.
* The longest gap that the skiplist audit reports is counted by some lookup exactly if it
  is not a *hidden tail*: the unique longest gap, at the end of the list, closed by nothing
  and ending in a tower whose key is the largest unsigned long (`AuditIsWorstCase`,
  `HiddenTailExample`).
* The slab allocator never checks that an object fits its superblock; blocks stay inside
  exactly if the rounded size plus the header is at most 16 MiB (`BlocksFit`).
* The census treats numbers from 1000000 up as directories and main does not limit the
  number of leaves; it passes on an intact namespace exactly up to that many leaves
  (`CensusPassesIff`).
* A mutation of the namespace can fail exactly if there is an owner and only one directory
  (`FailsIff`, `OneDirectoryFails`, `TargetDiffers`); main asks for two.
* A backward walk starts from INT_MAX and takes a node with that key for a violation.  Only
  the slot anchored at node 2^30 - 1 has it.  Some run of the existence list reports a
  violation exactly if there is such a slot and readers walk backward
  (`ExistenceWalks.ViolationIff`), and a walk of the seqlock list does exactly if the node
  is in the list (`QuietTraverse`, `ReportsIff`).  main never builds that slot as long as
  its step limit fits an int (`KeysFit`).

## Model

| member | source | states |
|---|---|---|
| `QSpinTheorems.MutualExclusion` | experiments/dcache/dcache_qspinlock.h:137-241 | For any number of threads and locks and any interleaving of fast path, pending path, transient pending undo and queue, at most one thread owns a lock; the locked byte is set exactly while someone does; no null node is followed |
| `QSpinTheorems.NodePrivacy` | experiments/dcache/dcache_qspinlock.h:177-223 | One node per thread suffices: a thread that keeps or is about to use a pointer to another's node finds it still queued on the same lock, with its next unset if it is to be linked |
| `QSpinTheorems.TailNamesWaiter` | experiments/dcache/dcache_qspinlock.h:111-124 | A nonzero tail fits 16 bits and leads through the node table to a thread queued on that very lock |
| `QSpinTheorems.NoStrandedHead` | experiments/dcache/dcache_qspinlock.h:211-223 | A head that took the locked byte alone and waits for its next always has another thread that is committed to link behind it, at most ten accesses away |
| `QSpinTheorems.RescueProgress` | experiments/dcache/dcache_qspinlock.h:217-223 | Whatever runs next, that wait ends or some committed thread is at least as near to ending it, strictly nearer when it is the one that moves |
| `QSpinTheorems.NoLockup` | experiments/dcache/dcache_qspinlock.h:137-224 | While a thread is inside an operation on a lock, a user holds that lock or some thread's next access on it changes the state |
| `QSpinCalls.LockReturns` | experiments/dcache/dcache_qspinlock.h:226-236 | In any interleaving, a lock call that is back with its user has taken at least one access of its own, and the user now holds exactly that lock more |
| `QSpinCalls.TrylockReturns` | experiments/dcache/dcache_qspinlock.h:126-134 | A trylock that is back with its user holds the lock if and only if the word was free at its last access |
| `QSpinCalls.WayIn` | experiments/dcache/dcache_qspinlock.h:143-157 | The first access of a lock call decides by who is there: it returns exactly if nobody is, tries the pending byte exactly if there is only an owner, spins exactly if there is only a pending waiter, and queues otherwise |
| `QSpinCalls.BecomesPending` | experiments/dcache/dcache_qspinlock.h:156-164 | The fetch_or makes the caller the pending waiter if and only if nobody is pending or queued; otherwise it queues |
| `QSpinCalls.ShortSpin` | experiments/dcache/dcache_qspinlock.h:143-154 | The spin on a hand-over takes at most its number of turns, ends early only if the word changes, and goes on to the pending byte if and only if nobody is pending or queued |
| `QSpinCalls.QueuesOnlyIfBusy` | experiments/dcache/dcache_qspinlock.h:182-190 | A thread goes on to the tail exchange only if the word was busy at its access before |
| `QSpinCalls.AbortsOnlyIfCrowded` | experiments/dcache/dcache_qspinlock.h:111-124 | The program gives up only with more than 65535 threads, since every thread registers at most once |
| `QSpinFairness.Fifo` | experiments/dcache/dcache_qspinlock.h:186-224 | Queued threads acquire in the order of their tail exchanges and none is skipped |
| `QSpinFairness.BoundedBypass` | experiments/dcache/dcache_qspinlock.h:126-134 | From a thread's exchange until it acquires, only threads that exchanged earlier and at most one other, the owner's pending waiter, acquire |
| `QSpinPreserve.Invariant` | experiments/dcache/dcache_qspinlock.h:126-241 | The inductive invariant that ties lock words, nodes, node table and program points to owner, pending waiter and queue holds after every schedule |
| `LockWord.WordTests` | experiments/dcache/dcache_qspinlock.h:77-98 | On the packed 32-bit word, the masked tests of the code are the field tests of the model |
| `LockWord.PackInjective` | experiments/dcache/dcache_qspinlock.h:77-89 | A whole-word compare-exchange compares all three fields |
| `SortedChain.Link` | src/bench_list_scale.c:2868-2877 | One store that links a node between neighbours keeps a bucket a sorted, duplicate-free chain from head to tail |
| `SortedChain.Unlink` | src/bench_list_scale.c:2868-2877 | One store that unlinks a node does too |
| `SortedChain.Hop` | src/bench_list_scale.c:2834-2838 | A walker on a linked or unlinked node steps to a node it may stand on with a larger key, and a key it jumps over was absent at some instant since it started |
| `RcuArena.FreeStep` | src/bench_list_scale.c:2793-2796 | Freeing a block whose grace period is over takes nothing from any walk in progress |
| `RcuHashInvariant.Invariant` | src/bench_list_scale.c:2828-2877 | The inductive invariant of chains, locks, grace periods and walkers holds after every schedule |
| `RcuHashTheorems.LookupLinearizable` | src/bench_list_scale.c:2828-2840 | A finished lookup answered what an uninterrupted lookup would have answered at an instant between its start and its end, even through unlinked nodes; it can trip the step guard only for a key with more than the limit of smaller keys in its bucket |
| `RcuHashGuard.GuardTripsIff` | src/bench_list_scale.c:2834-2836 | And it trips it in some run if and only if there are that many |
| `RcuHashTheorems.UpdatesAtomic` | src/bench_list_scale.c:2856-2877 | The answer for a key flips at exactly the publishing and the unlinking store of a toggle of that key |
| `RcuHashCalls.KeyParity` | src/bench_list_scale.c:2856-2877 | After every schedule, a key is present if and only if an odd number of its toggles have stored: every toggle that has returned flipped its key exactly once, whoever else ran |
| `RcuHashCalls.LookupEnds` | src/bench_list_scale.c:2834-2839 | Every lookup has its answer within 2 * limit + 2 accesses of its own, whatever runs meanwhile |
| `RcuHashCalls.WriterNearer` | src/bench_list_scale.c:2865-2876 | Inside the bucket's lock every access of a writer brings it strictly nearer to the unlock, and nothing else sets it back |
| `RcuHashCalls.LockIsBusy` | src/bench_list_scale.c:2865-2876 | A writer that waits for a bucket's lock waits for a writer inside that lock on that bucket |
| `RcuHashCalls.NoLeak` | src/bench_list_scale.c:2868-2875 | With no toggle under way, every allocated node is on the walk of a bucket or waits for sections that are open now |
| `RcuHashTheorems.AlwaysSorted` | src/bench_list_scale.c:2856-2877 | After every step, following next from a bucket's head through growing keys reaches its tail |
| `RcuHashTheorems.NoUseAfterFree` | src/bench_list_scale.c:2828-2877 | No reader and no writer follows a pointer to freed memory |
| `RcuHashTheorems.Contains` | src/bench_list_scale.c:2828-2840 | The lookup loop on a still chain: the guard trips if and only if more than the limit of smaller keys are in the bucket, and otherwise the answer is membership |
| `TxnHashInvariant.Invariant` | src/bench_list_scale.c:2571-2678 | The inductive invariant of chains, marks, back slots, grace periods, lookups and optimistic plans holds after every schedule |
| `TxnHashTheorems.AlwaysSorted` | src/bench_list_scale.c:2510-2513 | With any number of adders and deleters, every bucket stays strictly sorted from head to null after every step |
| `TxnHashTheorems.UpdatesAtomic` | src/bench_list_scale.c:2636-2678 | Membership of a key flips at exactly the successful commits for that key: a delete that succeeds removes a present key, an insert adds an absent one |
| `TxnHashCalls.KeyParity` | src/bench_list_scale.c:2601-2678 | After every schedule, a key is present if and only if its toggles begun, less the pending ones and the losers, are odd in number: a toggle that has returned flipped its key exactly once or lost |
| `TxnHashCalls.LookupEnds` | src/bench_list_scale.c:2577-2584 | Every lookup has its answer within 2 * limit + 2 accesses of its own, whatever runs meanwhile |
| `TxnHashCalls.NoLeak` | src/bench_list_scale.c:2624-2659 | With no toggle under way, every allocated node is on the walk of a bucket or waits for sections that are open now |
| `TxnHashTheorems.LoserJustified` | src/bench_list_scale.c:2625-2666 | An insert drops its node only if the key was present at an instant since its toggle began, and a delete finds its victim marked only if the key was absent at one |
| `TxnHashTheorems.LookupLinearizable` | src/bench_list_scale.c:2571-2600 | A finished lookup of a batch answered what an uninterrupted lookup would have answered at an instant between its start and its end, even through marked nodes; it can trip the step guard only for a key with at least the limit of smaller keys in its bucket |
| `TxnHashGuard.GuardTripsIff` | src/bench_list_scale.c:2577-2581 | And it trips it in some run if and only if there are that many |
| `TxnHashTheorems.NoUseAfterFree` | src/bench_list_scale.c:2571-2678 | No reader and no writer follows a pointer to freed memory |
| `ExistenceTheorems.BothWaysAgree` | src/bench_existence_list.c:497-555 | After every single store, the forward walk filtered by the existence test is the reverse of the filtered backward walk |
| `ExistenceTheorems.ChangesAtFlip` | src/bench_existence_list.c:514-554 | That list changes only by the store to a group's state, and then by exactly the key of the toggled gap |
| `ExistenceToggle.ShownIff` | src/bench_existence_list.c:514-553 | After every schedule, a gap shows a node if and only if its toggles, less one that has not flipped yet, are odd in number: every toggle flips its gap exactly once |
| `ExistenceToggle.IdleShows` | src/bench_existence_list.c:497-555 | Between toggles the list shows exactly the stable keys and the keys of the slots toggled an odd number of times, in order |
| `ExistenceToggle.ToggleAlone` | src/bench_existence_list.c:497-555 | From any state with an idle writer, a toggle run to its end flips the key 2a + 1 and no other |
| `ExistenceToggle.WriterNearer` | src/bench_existence_list.c:514-554 | Every store of a toggle brings it strictly nearer to its end, which is at most 7 steps away, and no other step moves it |
| `ExistenceToggle.NoLeak` | src/bench_existence_list.c:524-554 | Between toggles every node is in the list or waits to be freed and every group waits to be freed, each only for sections open now |
| `ExistenceTheorems.WalkComplete` | src/bench_existence_list.c:426-478 | A walk whose loads interleaved with the writer in any way ended without a trip of the step guard, with strictly monotone keys and every stable node visited exactly once, in both directions, unless it was a backward walk that met the key INT_MAX first |
| `ExistenceWalks.WalkEnds` | src/bench_existence_list.c:448-478 | Every walk ends within 8n + 1 loads of its own, whatever runs meanwhile |
| `ExistenceWalks.ViolationIff` | src/bench_existence_list.c:434-438 | Some run reports an order violation if and only if there is a slot with the key INT_MAX and a reader walks backward |
| `ExistenceTheorems.WalkTruthful` | src/bench_existence_list.c:426-446 | For every gap, the verdict of a walk without violation, visited or not, was right at some instant of the walk |
| `ExistenceTheorems.NoUseAfterFree` | src/bench_existence_list.c:372-406 | No reader loads from a freed node or a freed group |
| `ExistenceReaders.Invariant` | src/bench_existence_list.c:372-555 | The inductive invariant of links, tags, groups, grace periods and walks holds after every schedule |
| `ExistenceInvariant.GapShows` | src/bench_existence_list.c:372-381 | In every state the two links of a gap agree on whether it shows a node and which one |
| `SeqlockTheorems.AcceptedIsAtomic` | src/bench_list_scale.c:1021-1045 | An accepted walk equals the forward and backward traversal of the list at the single instant of its first load of the sequence number, unless 2^64 stores to the number fall into it, and reports a violation if and only if the key INT_MAX was in the list then |
| `SeqlockTheorems.AcceptsIff` | src/bench_list_scale.c:1037-1040 | The final load accepts exactly if the number of stores since the first is a multiple of 2^64 |
| `SeqlockTheorems.QuietTraverse` | src/bench_list_scale.c:899-920 | Whenever the number is even, the traversal shows all stable nodes and the present churn nodes in order, and the same backward without violation, if and only if the key INT_MAX is not in the list |
| `SeqlockWrap.ReportsIff` | src/bench_list_scale.c:912-918 | Some even instant of some run shows a violation if and only if there is a slot with the key INT_MAX |
| `SeqlockTheorems.AttemptEnds` | src/bench_list_scale.c:906-918 | Every attempt, torn or not, reaches its final check within 4 * STEP_LIMIT + 5 loads of its own, whatever the writers do |
| `SeqlockTheorems.LinksValid` | src/bench_list_scale.c:871-884 | Torn readers and writers only ever follow links to nodes of the list |
| `SeqlockToggle.PresentIff` | src/bench_list_scale.c:886-895 | After every schedule, a slot is present if and only if its toggles, less a pending one, are odd in number |
| `SeqlockToggle.IdleList` | src/bench_list_scale.c:1046-1057 | Between toggles a forward walk finds exactly the stable keys and the keys of the slots toggled an odd number of times, in order |
| `SeqlockToggle.WriterNearer` | src/bench_list_scale.c:871-883 | Every store of a toggle brings it strictly nearer to its end, and no reader moves it |
| `SeqlockWrap.WrapTears` | src/bench_list_scale.c:1021-1057 | A run with exactly 2^64 stores in one attempt whose accepted walk has halves that disagree |
| `Lockset.LocksetKeys` | src/bench_list_scale.c:717-736 | The insertion sort and the skipping of equal neighbours yield the distinct lock addresses in ascending order |
| `Lockset.KeysSorted` | src/bench_list_scale.c:706-712 | That key set is strictly ascending and neither loses nor adds a lock |
| `PlanCommit.Invariant` | src/bench_list_scale.c:1937-1993 | The inductive invariant of locks, plans, links and tombstones holds after every schedule of arbitrary inserts and deletes, for any assignment of nodes to stripes |
| `PlanTheorems.NoWaitCycle` | src/bench_list_scale.c:737-743 | Writers never wait for each other's locks in a circle |
| `PlanTheorems.SomeHolderRuns` | src/bench_list_scale.c:645-648 | Whenever a writer waits for a lock, some writer that holds a lock can take its next step |
| `PlanTheorems.LinksInverse` | src/bench_list_scale.c:620-627 | At a node x on the forward walk, however stripes collide: x is tombstoned if and only if some writer is unlinking it; the prev of its successor is not x if and only if some writer is between the stores of an insert after x or of the unlinking of x; the next of its predecessor is not x if and only if some writer is between the stores of the unlinking of the node before x |
| `PlanTheorems.CommitsAtomic` | src/bench_list_scale.c:1941-1993 | The forward list changes only by the last store of a commit, which inserts the new node right after the anchor that its insert named, or takes out the victim of its delete |
| `PlanCalls.CommitsOnce` | src/bench_list_scale.c:1941-1993 | In every schedule, every operation begun by a writer has been committed exactly once, by the last store of its own insert or delete, except the one still on its way |
| `PlanCalls.Returns` | src/bench_list_scale.c:1962-1991 | A writer returns only from the release of its last lock and holds none afterwards; callers may then name the new node, or no longer the deleted one |
| `PlanCalls.RetriesCount` | src/bench_list_scale.c:1952-1956 | The retry counter is the number of failed validations whose locks have been given back |
| `PlanAlone.OperationAlone` | src/bench_list_scale.c:1937-1993 | An operation that starts while no other is under way can be run to its end without a retry; an insert then leaves the list with one new node right after its anchor, a delete without its node, and nothing else changed |
| `PlanAlone.KnownIsListed` | src/bench_list_scale.c:1968-1991 | With no operation under way, the list holds exactly the nodes that callers may name, and exactly the other nodes are tombstoned |
| `PlanTheorems.NoNodeLost` | src/bench_list_scale.c:1970-1993 | A node whose insert has returned is on the forward walk until it is tombstoned |
| `PlanTheorems.LinksValid` | src/bench_list_scale.c:1941-1988 | No writer follows a link to anything but a node |
| `PlanHarness.NoPlanGoesStale` | src/bench_list_scale.c:630-633 | With slots owned by one writer each, distinct anchors and stable nodes never deleted, every validation succeeds and the retry counter stays 0 |
| `MainConfig.MainNeverStale` | src/bench_list_scale.c:3580-3588 | The anchors and the slot ownership that main sets up meet that, for any list size, number of slots and writers and any assignment of nodes to stripes |
| `MainConfig.OwnsItsSlots` | src/bench_list_scale.c:3269-3272 | In it a writer may toggle an anchor if and only if its slot is one of wid, wid + nw, wid + 2nw, ... |
| `MainConfig.LastAnchored` | src/bench_list_scale.c:3582-3588 | The last stable node is an anchor if and only if there are as many slots as nodes |
| `MainConfig.KeysFit` | src/bench_list_scale.c:3567-3588 | If keys and step limit fit an int, no slot has the key INT_MAX, and the configuration is one of the existence list and of the seqlock engine |
| `Slots.Anchors` | src/bench_list_scale.c:3570-3588 | The anchors grow strictly, so slots have distinct anchors, and each is a stable node |
| `Slots.ToggledSlots` | src/bench_list_scale.c:3194-3202 | A writer toggles slots of its own only, in bounds if and only if it owns one, and goes through all of them |
| `Slots.SlotsPartition` | src/bench_list_scale.c:3269-3289 | Every slot belongs to exactly one writer |
| `Skiplist.AuditList` | src/skiplist_detect.c:137-176 | The nested loops report, for every level below the top, the number, maximum and violations of the runs between taller towers, their total and their maximum |
| `Skiplist.RunsAccount` | src/skiplist_detect.c:129-136 | There is one gap more than taller towers, and the runs add up to the towers of exactly that height |
| `Skiplist.LookupDetect` | src/skiplist_detect.c:197-225 | The descent reports at every level the open run before the key, their sum and maximum, whether one trips, and membership of the key |
| `Skiplist.WorstIs` | src/skiplist_detect.c:216-219 | The reported worst level is the highest with the most hops, or -1 if there are none |
| `SkiplistTheorems.OpenIsTrailing` | src/skiplist_detect.c:191-196 | The hops at a level are exactly the towers of that height with a smaller key that no taller tower with a smaller key follows |
| `SkiplistTheorems.HopsBounded` | src/skiplist_detect.c:14-23 | No lookup counts more hops at a level than the audit's longest gap |
| `SkiplistTheorems.AuditIsWorstCase` | src/skiplist_detect.c:9-23 | Some lookup of an unsigned long counts exactly the audit's longest gap, if and only if that gap is not a hidden tail |
| `SkiplistTheorems.HiddenTailExample` | src/skiplist_detect.c:165-168 | A list whose longest gap no lookup counts in full |
| `Slab.SlabCache.Alloc` | src/bench_list_scale.c:492-514 | A block that is not live, disjoint from every live block, inside one superblock of the arena past its header: the block freed last if the arena has one; else the block at the bump offset of the current superblock, with no new mapping, if it fits; else the first block of a new aligned superblock inside the mapping. Nothing else changes |
| `Slab.SlabCache.Free` | src/bench_list_scale.c:517-528 | Masking the address finds the arena that carved the block, whoever frees it, and the block goes to the front of that arena's list |
| `Slab.SlabCache.UserWrite` | src/bench_list_scale.c:429-433 | What a user writes into a live block changes that word only and disturbs no free list |
| `Slab.CarveOk` | src/bench_list_scale.c:506-511 | Carving at the bump offset keeps all blocks disjoint and inside their superblocks |
| `Slab.BlocksFit` | src/bench_list_scale.c:500-511 | All blocks, wherever the bump offset is, stay inside their superblocks if and only if rounded size plus header is at most 2^24 |
| `Slab.Accounting` | src/bench_list_scale.c:492-528 | Blocks carved are the live ones plus the free-listed ones |
| `Pace.Pacer.Wait` | experiments/dcache/dcache_bench_pace.h:70-91 | An unpaced call returns at once. A paced one is stopped, without using a slot, if and only if the run has ended at a turn whose sample is before the slot; it is released at the first sample that reaches the slot, and the release extends the schedule |
| `Pace.NeverEarly` | experiments/dcache/dcache_bench_pace.h:15-16 | Release k is never before start plus k periods, for any monotone clock and any preemption |
| `Pace.BurstBound` | experiments/dcache/dcache_bench_pace.h:24-28 | Any window of length T holds at most 2 + (T + slack) / period releases |
| `Pace.NoDriftIff` | experiments/dcache/dcache_bench_pace.h:86-89 | The schedule has no drift up to release k if and only if no call up to it came more than the slack late |
| `Pace.PeriodRounds` | experiments/dcache/dcache_bench_pace.h:54-62 | A writer is unpaced exactly if the rate is not positive; otherwise the period is its exact share, rounded |
| `ThreeHashTheorems.KeyIsLinked` | src/bench_txn_3hash.c:279-334 | Over any interleaving of updaters, every owned key is linked, as its current node in the bucket of its current table |
| `ThreeHashRounds.RotationIs` | src/bench_txn_3hash.c:279-334 | Key j is linked in table (j + r) mod 3, where r is how often its turn has come among the moves its updater has committed in this schedule, and an updater stops rotating only after whole rotations |
| `ThreeHashRounds.Populated` | src/bench_txn_3hash.c:279-289 | Every key of an updater is linked before its first rotation |
| `ThreeHashRounds.DrainEmpties` | src/bench_txn_3hash.c:353-366 | After an updater's drain, every node still in a chain is the current node of another updater's key |
| `ThreeHashRounds.DrainNearer` | src/bench_txn_3hash.c:353-366 | Every step of the drain brings it strictly nearer to its end and no other updater sets it back |
| `ThreeHashTheorems.NothingElseLinked` | src/bench_txn_3hash.c:290-331 | Every node at every position of a chain is the current node of exactly one owned key, linked nowhere else |
| `ThreeHashTheorems.NoKeyLost` | src/bench_txn_3hash.c:353-366 | No commit finds a key missing, and the drain, whose chain walk interleaves with the other updaters, counts no lost key |
| `ThreeHashTheorems.KeysDistinct` | src/bench_txn_3hash.c:593-597 | Updaters' keys do not overlap |
| `ThreeHashTheorems.ShareIff` | src/bench_txn_3hash.c:132-135 | Two moves touch a common chain if and only if their keys are congruent modulo the number of buckets |
| `ThreeHashTheorems.AliasIff` | src/bench_txn_3hash.c:599-615 | Some commit makes two moves in one bucket if and only if its span exceeds the number of buckets |
| `ThreeHashTheorems.DisjointIsSound` | src/bench_txn_3hash.c:614-631 | A run declares its commits disjoint only if they are, by default if and only if they are, and main refuses a request if and only if it is to declare aliasing commits disjoint |
| `ThreeHashInvariant.WalkFinds` | src/bench_txn_3hash.c:143-154 | The drain's walk, also on nodes deleted under it, never runs past the node it looks for, and every step goes to an older node |
| `NamespaceTheorems.NoMutationFails` | experiments/dcache/bench_dcache.c:654-741 | Over any interleaving of moves, flips, exchanges and cached absences, no owner's mutation fails |
| `NamespaceEffects.FlipMoves` | experiments/dcache/bench_dcache.c:689-711 | After every schedule, a flip moves the leaf's object from the name it wears to its other name in the same directory, takes the old name away, records it, and changes no other name or record |
| `NamespaceEffects.FileMoveMoves` | experiments/dcache/bench_dcache.c:716-736 | A file move does the same towards the drawn directory, or the one after it, cyclically, if the leaf is there already |
| `NamespaceEffects.SwapTrades` | experiments/dcache/bench_dcache.c:665-684 | An exchange trades the objects of the leaf and of the drawn one, or the one after it if it drew itself, and changes no other name or record |
| `NamespaceEffects.CacheAdds` | experiments/dcache/bench_dcache.c:819-827 | Caching an absence adds that name as negative if it was absent, and changes nothing else |
| `NamespaceEffects.AltIsParity` | experiments/dcache/bench_dcache.c:704-705 | A leaf wears its second name if and only if it has been flipped an odd number of times |
| `NamespaceTheorems.LookupInRange` | experiments/dcache/bench_dcache.c:775-829 | Every positive lookup of a name yields an id in the range of that name's owner |
| `NamespaceTheorems.EachObjectOnce` | experiments/dcache/bench_dcache.c:559-568 | Every object is in the namespace under exactly one name, the one recorded as directory, alternative and carrier |
| `NamespaceTheorems.Census` | experiments/dcache/bench_dcache.c:869-882 | The callback's byte per leaf is the number of sightings modulo 256, and it counts no stray if and only if every leaf number met is in range and met once |
| `NamespaceTheorems.CensusPassesIff` | experiments/dcache/bench_dcache.c:1226-1236 | Over a walk of the namespace after any run, in any order, the census finds every id exactly once and no stray, if and only if there are at most 1000000 leaves |
| `NamespaceTheorems.FailsIff` | experiments/dcache/bench_dcache.c:1050-1052 | Some run has a failed mutation if and only if there is an owner and only one directory |
| `NamespaceTheorems.OneDirectoryFails` | experiments/dcache/bench_dcache.c:717-741 | In a run with a single directory the first file move fails |
| `Namespace.TargetDiffers` | experiments/dcache/bench_dcache.c:722-725 | The drawn target differs from the current directory, for every draw, if and only if there are at least two directories |

## Left out

- Weak memory ordering, fences and compiler reordering: steps are sequentially consistent.
- Fair scheduling and full liveness: a wait is shown to have a thread that can end it, not that this thread runs.
- Queued spinlock: the counter of registered nodes is unbounded, so its wrap after 2^32 registrations is not modelled; the program aborts long before.
- Bit locks and tombstones share a word in the program; the model keeps them in separate fields.
- Reclamation in the plan / lock / validate model: a deleted node's address is not reused, because writers run inside read sections.  Nor is it in the three-hash model, where the drain's walk may still stand on it.  The txn_sw_list arm, whose links are written by a library, is covered only as far as its protocol is the rculist arm's.
- thl_build and chl_build: runs start from empty buckets.
- Random-position mode and forward-only list engines other than the existence list's.
- The inline-rcu_head and perfbook arms of the existence list, and its single-writer assertion.
- The stop flag of seq_read, which ends a reader between attempts.
- RLU, MV-RLU, txn_list and the other engines whose steps are library calls.
- The skiplist engine itself: the instruments run on a list that stands still, and hop counters do not wrap.
- The three-skiplist rotation, which repeats the three-hash bookkeeping.
- `dc_*` engines, readdir and reverse-walk readers, static names, and the address-identity build of the directory-cache benchmark.
- Parsing of options, timing, tracing, NUMA placement, throughput counters and plots.
- Pace.Period: computes over reals; the program computes over doubles.
- Pace.Pacer.Wait: reads a finite sequence of clock samples and reports when the spin outlasts it.
- More than 2^30 stable nodes, for which keys would overflow an int; the step limit of the list engines is not wrapped to an int either.
- Slab.SlabCache.Alloc: the superblock list and NUMA binding are not modelled; the mapping's address is a parameter.
