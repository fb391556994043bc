# A verified model of the linear-logic runtime

This project models the concurrent runtime of a parallel linear-logic virtual machine and proves what
its scheduler, its fact stores and its synchronisation primitives keep.  Everything is in Dafny 4.11;
`dafny verify dfyconfig.toml` checks the whole project.

## What is modelled

- **Scheduler** (`Scheduler*.dfy`).  Threads own nodes, send work into each other's queues, remember whom
  to wake, swap their activity state and stop when a counter reaches zero.  The model is a step system
  over all threads.  A state swap and its counter update are two steps, as in the code; a thread in
  between owes the update.  The three kinds of coordination calls (priority, static or moving, owner)
  are made on nodes of any thread and hold the node lock over several steps.  Running a node is an
  abstract step that may clear its own flag and send work.  `SchedulerWitnesses.dfy` holds the runs in
  which the scheduler fails.
- **Tuple trie** (`Trie*.dfy`, `TupleTrie.dfy`).  Typed tuples are flattened into tokens with a match
  stack; chains of children become hash buckets; leaves have reference counts and a leaf list; deletion
  marks first and commits later; index deletion cuts a branch.  The search is the iterator with its
  stack of continuation frames, and its specification is the plain filter over tuples.
- **Linear facts** (`HashTable*.dfy`, `LinearStore.dfy`).  The nested hash table with splitting and upward
  collapse, its iterator with four frames, and the store that switches between lists and tables.
- **Queues** (`Heap.dfy`, `DoubleQueue.dfy`, `BoundedQueue.dfy`, `LinearQueue.dfy`).  The position-tracking
  heap, the linked queue, the counter tree and the multi-producer queue as a step system.
- **Synchronisation** (`TreeBarrier.dfy`, `BarrierProtocol.dfy`, `QueuedLock.dfy`, `TicketLock.dfy`).  The
  barrier tree and its protocol, the queued lock and the ticket lock as step systems.
- **Conservation** (`Aggregates.dfy`, `Allocator.dfy`, `NodeIds.dfy`).  Incremental aggregates, the
  size-class allocator and node ids.

Where the source changes an object in place the model has a class whose methods are proved against
specification functions; concurrent code is a step function with inductive invariants, and the main
results hold in every state of every run.

## Where the code keeps its promise only under a condition

- Static, moving and owner calls take any node (vm/exec.cpp:1428, 1445, 1470), but remove it from the
  queues of the calling thread, because the test in `remove` compares queue tags and tags do not name
  threads (thread/coord.cpp:335, 382, 451).  `SchedulerWitnesses.NodeInTwoQueues` is a run in which a node
  gets into the queues of two threads.  Placement is kept by a step if and only if it is not such a removal
  (`SchedulerPlacement.StepKeepsPlaced`), and by a call exactly when the node is the caller's own or its
  tag names no queue it has to leave (`SchedulerForeign.CallKeepsPlaced`); runs without calls of the other
  kind never get there (`SchedulerForeign.NoForeignTakes`).  The results on termination are about runs
  without such removals.
- The termination barrier can fire while work is left, because a thread state is swapped before the
  counter is updated.  `SchedulerWitnesses.BarrierCanFireEarly` is such a run.
  `SchedulerRuns.TerminationSafetyIsExact` gives the exact condition for runs without stealing (no
  increment owed when the counter reaches zero), and `SchedulerAtomic.AtomicTerminationSafety` shows that
  runs in which swap and update are not separated need none.
- With stealing it can fire early even then: a thief that gives up inside the loop of `busy_wait` drops the
  answer of `set_inactive_if_no_work` (thread/thread.cpp:247), and with it the only sign of nodes that were
  sent to it.  `SchedulerWitnesses.ThiefCanLoseItsWork` is such a run.  The scheduler's invariant holds
  throughout a run if and only if this does not happen (`SchedulerRuns.InvariantInEveryRun`).  Termination
  is safe with stealing if and only if every such drop is made good before the barrier fires: at some point
  the thread has no work left, is going to look at its queues again, or is going to be woken
  (`SchedulerRuns.StealingSafetyIsExact`, `SchedulerAtomic.AtomicStealingIsExact`).
- `remove_node_priority` aborts on an idle node of another thread (`SchedulerWitnesses.AbortIsReached`),
  and no other abort of the coordination switches is reachable
  (`SchedulerPlacement.AbortsOnlyOnForeignIdle`).
- The first call of `find_next` treats every frame it restores as one it enters
  (db/trie.cpp:1140), so a restored node below a hash is taken for the hash.  It happens exactly when,
  before the first hit, a hash at a level without an exact field has a first child with nothing to be
  found below it, and a further child (`TrieIterator.FirstTells`, `TrieMatch.MatchPredicate`).
  `TrieMatch.FirstCallCanCrash` gets there with nine inserts; `TrieMatch.SafeSearch` and
  `TrieMatch.SafeOnChains` are two conditions under which it does not happen.
- Deleting a tuple that has no reference left promises a second commit, which settles the reference total
  twice, and a commit removes a leaf that a further pending commit still needs.  `TupleTries.TupleTrie.Delete`,
  `Commit`, `DeleteByLeaf` and `DeleteByIndex` say exactly when the books stay right.  Deleting an absent
  tuple of a predicate without fields reads a leaf that is not there, and an exact list that the walk of
  `delete_by_index` reaches aborts.
- A search without exact fields walks the leaf list, which still shows deletions that are not committed
  (`TrieMatch.LeavesAreFilter`).
- The barrier tree spans all threads for radix 2, but not for every radix
  (`BarrierTrees.BuildTree`, `BarrierTrees.TernaryTreeDoesNot`).
- The ticket lock needs fewer than 65536 tickets out when one is drawn, and no less: 65537 threads can get
  two of them in (`TicketLocks.TwoInside`).
- `push_head` does not write the prev field of the new node, so it is right exactly for nodes whose prev
  field is null (`DoubleQueues.DoubleQueue.PushHead`); nodes that come from `pop_tail` keep theirs.
- `top_list` of the bounded queue takes the size of the whole list it appends to off its counters, so they
  stay exact only for a list that was empty (`BoundedQueues.BoundedPQueue.TopList`).
- An aggregate that is told to retract an absent tuple forgets an earlier change
  (`Aggregates.AddedStaysCurrent`), and what it announced can stand for a group that is gone
  (`Aggregates.AbsentRetractionLosesChange`); `Aggregates.TupleAggregate.Generate` is exact if and only if
  no group has forgotten a change.
- The size table of mem/mixedgroup.hpp reads an unwritten entry when it is empty
  (`Allocators.UnguardedFirstSize`); the allocator is modelled with the guard of mem/node.hpp:143.

- A free list of a new size in a full table aborts (mem/mixedgroup.hpp:88), exactly then
  (`Allocators.MixedGroup.Deallocate`).  The small group of the pool never gets there
  (`Allocators.DeallocateSmall`), the medium group does (`Allocators.MediumTableOverflows`).

## Model

| member | source | states |
|---|---|---|
| SchedulerPlacement.StepKeepsPlaced | thread/thread.cpp:120-295 | a step of any thread, stealing and coordination calls on nodes of any thread included, keeps each node in the one queue its tag names if and only if it does not take the node out of the wrong thread's queue |
| SchedulerPlacement.OneQueuePerNode | thread/thread.cpp:397-446 | a node is in at most one queue, and exactly when its tag says so, of its current owner |
| SchedulerPlacement.OwnerChangeRetriesOnce | thread/coord.cpp:419-494 | the retry loop of an owner change ends at its second look, with the lock free and the owner set, or left to the thread that runs the node |
| SchedulerPlacement.AbortsOnlyOnForeignIdle | thread/coord.cpp:187-222 | the only abort that can be reached is removing the priority of another thread's idle node, and it is reached exactly then |
| SchedulerWitnesses.AbortIsReached | thread/coord.cpp:187-222 | a run that reaches the abort for another thread's idle node |
| SchedulerPlacement.AdoptKeeps | thread/thread.cpp:209-236 | a thief that adopts a stolen node, or passes it on, keeps placement |
| SchedulerPlacement.RobKeeps | thread/thread.cpp:253-295 | a theft from a queue keeps placement |
| SchedulerPlacement.TakeKeeps | thread/coord.cpp:258-303 | removing a node under its queue's mutex, only while the tag still names a queue of the thread that is asked, keeps placement |
| SchedulerPlacement.PutKeeps | thread/coord-include.hpp:2-55 | putting it into the other queue keeps placement |
| SchedulerForeign.CallKeepsPlaced | thread/coord.cpp:305-494 | a static, moving or owner call that nobody interrupts keeps placement if and only if the node is the caller's own, or its tag names no queue that it has to leave |
| SchedulerForeign.NoForeignTakes | vm/exec.cpp:1428-1478 | a run whose calls are all of that kind takes no node out of a wrong queue, whatever happens between the steps of a call |
| SchedulerWitnesses.NodeInTwoQueues | thread/coord.cpp:326-340 | a run in which a static call puts a node into the queues of two threads |
| SchedulerTermination.StepKeepsLaw | thread/thread.hpp:115-175 | counter plus owed increments minus owed decrements is the number of active threads, after every step |
| SchedulerTermination.StepKeepsCovered | thread/thread.cpp:300-354 | a non-empty queue always has somebody awake: its owner, or a thread that is going to wake it; with stealing, unless a thief drops the last sign of its work |
| SchedulerTermination.StepKeepsLive | thread/thread.cpp:361-446 | a step keeps placement, counter law, coverage and the facts of the nodes together if and only if it takes no node out of a wrong queue and drops no flag that was still needed |
| SchedulerTermination.StepKeepsResumes | thread/thread.cpp:344-354 | without stealing, a thread that saw work before it activates itself still has it |
| SchedulerTermination.AsleepIsQuiescent | thread/termination_barrier.hpp:26-36 | when all threads sleep and owe nothing, no queue, wake-up or unprocessed fact is left |
| SchedulerRuns.PlacementInEveryRun | thread/thread.cpp:120-295 | node placement in every state of a run, with stealing, if and only if no step takes a node out of a wrong queue |
| SchedulerRuns.InvariantInEveryRun | thread/thread.cpp:300-446 | the whole invariant in every state of a run, with stealing, if and only if moreover no thief drops the last sign of its work |
| SchedulerRuns.CounterInEveryRun | thread/termination_barrier.hpp:26-36 | the counter never goes below zero and is positive when a decrement is owed |
| SchedulerRuns.BarrierIsExact | thread/termination_barrier.hpp:31-36 | when the barrier fires all threads are inactive and owe nothing if and only if no increment was owed |
| SchedulerRuns.StealingSafety | thread/thread.cpp:170-354 | termination safety with stealing: once done, then and ever after no queue, wake-up, held node or unprocessed fact is left, if no increment is owed when the counter first reaches zero and every thief that drops the last sign of its work makes it good before |
| SchedulerRuns.StealingSafetyIsExact | thread/thread.cpp:170-354 | both conditions are necessary as well: the barrier fires only with nothing left to do and all threads asleep if and only if both hold, and with no increment owed, done means nothing left to do if and only if the drops are made good |
| SchedulerRuns.TerminationSafety | thread/thread.cpp:300-354 | without stealing, once done, then and ever after nothing is left to do and all threads sleep, if no increment is owed at zero |
| SchedulerRuns.TerminationSafetyIsExact | thread/thread.hpp:115-175 | that condition is necessary as well |
| SchedulerWitnesses.BarrierCanFireEarly | thread/thread.hpp:121-122 | a run of two threads in which the barrier is done with work queued |
| SchedulerWitnesses.ThiefCanLoseItsWork | thread/thread.cpp:244-248 | a run with stealing and atomic swaps in which a dropped flag is not made good, and the barrier is done with work queued |
| SchedulerAtomic.AtomicIsPaidUp | thread/thread.hpp:115-175 | where swap and update are not separated, the condition holds by itself |
| SchedulerAtomic.AtomicTerminationSafety | thread/thread.cpp:300-446 | termination safety for such runs without stealing, without a condition on the counter |
| SchedulerAtomic.AtomicStealingSafety | thread/thread.cpp:170-446 | and with stealing, when every thief that drops the last sign of its work makes it good |
| SchedulerAtomic.AtomicStealingIsExact | thread/thread.cpp:170-446 | and only then |
| TrieValues.FlattenPrefixFree | db/trie.cpp:127-232 | the type-driven flattening is injective and prefix-free |
| TrieValues.PathIdentifiesTuple | db/trie.cpp:677-817 | two tuples reach the same leaf if and only if they are equal |
| TrieTree.CountedBelow | db/trie.cpp:20-56 | all leaves below a node have paths that go through it |
| TrieOps.CountAtFound | db/trie.cpp:127-232 | what match finds in a chain or bucket is the only child a tuple can be below |
| TrieOps.LookupExact | db/trie.cpp:722-817 | the walk of check_insert finds a leaf exactly for the tuples stored, and its count is their references |
| TrieOps.SetCountOk | db/trie.hpp:319-342 | adding or subtracting at a leaf changes the references of that tuple only |
| TrieGrow.RehashOk | db/trie.cpp:429-504 | redistributing a chain loses, adds and misplaces no node |
| TrieGrow.OnlyScalarsConverted | db/trie.cpp:347-397 | the abort of convert_hash for other types is unreachable |
| TrieGrow.RoomOk | db/trie.cpp:347-397 | convert_hash and expand keep the tree and everything in it |
| TrieGrow.FlatDistinct | db/trie.cpp:506-548 | the nodes of a hash are distinct over all buckets |
| TrieGrow.GraftOk | db/trie.cpp:677-785 | inserting a new path adds one leaf with one reference and changes nothing else |
| TriePrune.CutCount | db/trie.cpp:612-670 | cutting a branch takes exactly what is below it |
| TriePrune.CutWF | db/trie.cpp:561-609 | no dead interior node is left, and hash totals stay exact |
| TriePrune.CountAtExact | db/trie.cpp:886-932 | what is below the end of a path are the tuples whose path goes on from there |
| TuplePatterns.PathBegins | db/trie.cpp:886-932 | walking exact fields down the tree is matching the first fields of a tuple |
| TupleTries.AtIsThrough | db/trie.cpp:897-925 | the walk of delete_by_index finds a node exactly when the path of some leaf goes through it |
| TupleTries.BagOk | db/trie.cpp:20-56 | the references of a tree are a multiset of tuples, one by one and in total |
| TupleTries.TupleTrie.constructor | db/trie.cpp:940-940 | an empty trie is the empty multiset |
| TupleTries.TupleTrie.Insert | db/trie.cpp:963-982 | the multiset grows by the tuple; the answer tells whether it was new; a new leaf ends the leaf list |
| TupleTries.TupleTrie.Delete | db/trie.cpp:984-1009 | the multiset loses the tuple; absent tuples change nothing; the last reference leaves a pending leaf; the books stay right unless, and only unless, the tuple has a leaf without references; without fields an absent tuple has no leaf to look at |
| TupleTries.TupleTrie.Commit | db/trie.cpp:819-884 | the leaf goes unless the tuple came back, and the reference total is settled; the books stay right if and only if the tuple came back or no second deletion of it is pending |
| TupleTries.TupleTrie.DeleteByLeaf | db/trie.cpp:830-884 | deletion that commits at once; the books stay right if and only if the leaf stays or no deletion of it is pending |
| TupleTries.TupleTrie.DeleteByIndex | db/trie.cpp:886-932 | exactly the tuples whose leading exact fields match go, from the tree, the list and the total; it aborts exactly when the walk reaches an exact list; the books stay right if and only if no pending tuple is hit |
| TupleTries.TupleTrie.BasicInvariants | db/trie.hpp:413-430 | the assertions of basic_invariants hold in every valid state |
| TrieSearch.StepMatches | db/trie.cpp:1152-1320 | taking a node updates the match stack so that it matches the rest exactly when it matched the whole |
| TrieSearch.HitsAtFound | db/trie.cpp:1113-1346 | a tuple is found through the one child on its path |
| TrieSearch.SearchIsFilter | vm/exec.cpp:252-299 | the hits are the stored tuples that pass the filter, each once |
| TrieIterator.RestStep | db/trie.cpp:1243-1305 | stepping through buckets visits every child once |
| TrieIterator.ChooseHits | db/trie.cpp:1104-1111 | taking a child and pushing the alternative loses no hit |
| TrieIterator.ChooseFirst | db/trie.cpp:1137-1140 | the outcome of the first call is kept by each turn |
| TrieIterator.FirstTells | db/trie.cpp:1113-1346 | the first call goes wrong exactly when, before the first hit, a hash at a free level has a first child with nothing to be found below and a further child; otherwise it finds something if and only if there is something |
| TrieIterator.SearchIterator.FindNext | db/trie.cpp:1113-1346 | moves to the next hit in tree order, and crashes exactly in a first call that restores a frame below a hash |
| TrieIterator.SearchIterator.Increment | db/trie.hpp:580-592 | one hit further, or the end |
| TrieMatch.Search | db/trie.cpp:1354-1366 | iterating to the end yields the filter, unless the first call crashes |
| TrieMatch.MatchPredicate | db/trie.cpp:1348-1366 | the three ways a search starts, with their results and the exact crash condition |
| TrieMatch.LeavesAreFilter | db/trie.cpp:1350-1351 | the leaf list is the filter exactly when no pending tuple is without references |
| TrieMatch.SafeOnChains | db/trie.cpp:1137-1140 | no crash when levels without an exact field are no hashes |
| TrieMatch.SafeSearch | db/trie.cpp:1348-1366 | no crash when exact fields come first and nothing is pending |
| TrieMatch.FirstCallCanCrash | db/trie.cpp:677-785 | nine inserts into an empty trie of pairs, after which a search by the second field crashes although a pair matches |
| HashTables.InsertWF | db/hash_table.hpp:151-219 | an insert keeps counters, distinct keys, slot paths and back indices exact, whatever it splits |
| HashTables.InsertLookup | db/hash_table.hpp:151-219 | an insert appends to the list of its key and changes no other lookup |
| HashTables.SpreadGet | db/hash_table.hpp:187-216 | splitting a chain changes no lookup |
| HashTables.EraseWF | db/hash_table.hpp:230-268 | an erase keeps the same, and collapses every table it empties |
| HashTables.EraseLookup | db/hash_table.hpp:230-285 | an erase takes the fact from the list of its key and changes no other lookup |
| HashTables.WalkOk | db/hash_table.hpp:364-388 | a walk over the slots meets every list that lookup can find, each key once |
| HashTableIterators.PushFrame | db/hash_table.hpp:350-382 | there is always room for the frame of a nested table |
| HashTableIterators.Iterator.FindBucket | db/hash_table.hpp:353-388 | stops at the next chain in slot order, with nothing skipped |
| HashTableIterators.Iterator.Next | db/hash_table.hpp:400-403 | one list further |
| HashTableIterators.Iterator.constructor | db/hash_table.hpp:410-415 | starts before all lists |
| HashTableIterators.AllLists | db/hash_table.hpp:342-416 | iterating to the end terminates and meets the lists in slot order |
| HashTableIterators.EachListOnce | db/hash_table.hpp:342-416 | these are the lists that lookup finds, each exactly once |
| LinearStores.BagIsLookup | db/hash_table.hpp:442-449 | a fact is in a table as often as in the list of its key |
| LinearStores.BagInsert | db/hash_table.hpp:425-431 | an insert adds exactly the fact |
| LinearStores.BagErase | db/hash_table.hpp:433-440 | an erase takes exactly the fact |
| LinearStores.ListToTable | db/linear_store.hpp:92-108 | turning a list into a table keeps the facts |
| LinearStores.TableToList | db/linear_store.hpp:110-132 | splicing the lists of a table together keeps the facts |
| LinearStores.LinearStore.AddFact | db/linear_store.hpp:206-229 | one more fact, the type bit right, other predicates unchanged, a table from eight facts on |
| LinearStores.LinearStore.AddFactList | db/linear_store.hpp:166-204 | the facts of a list are added; only a spliced list is left empty |
| LinearStores.LinearStore.IncrementDatabase | db/linear_store.hpp:231-273 | the same with the list always left empty |
| LinearStores.LinearStore.EraseFact | db/hash_table.hpp:433-440 | one fact of one predicate goes |
| LinearStores.LinearStore.CleanupIndex | db/linear_store.hpp:288-302 | exactly the sparse tables become lists, and no fact is lost |
| Heaps.RootIsBest | queue/safe_complex_pqueue.hpp:218-231 | the root of an ordered heap is a best element, in either direction |
| Heaps.UpStep | queue/heap_implementation.hpp:67-84 | a swap with the parent moves the only misplaced edge up |
| Heaps.DownStep | queue/heap_implementation.hpp:98-130 | a swap with the better child moves the misplaced edges down |
| Heaps.Replaced | queue/safe_complex_pqueue.hpp:68-94 | after a removal only one edge can be wrong, and the parent tells on which side |
| Heaps.ComplexPQueue.HeapifyUp | queue/heap_implementation.hpp:67-84 | restores order and positions, keeps the members, and the root if it is good enough |
| Heaps.ComplexPQueue.HeapifyDown | queue/heap_implementation.hpp:98-130 | the same downwards |
| Heaps.ComplexPQueue.Insert | queue/safe_complex_pqueue.hpp:35-43 | the object joins with its priority, tag and position |
| Heaps.ComplexPQueue.Pop | queue/safe_complex_pqueue.hpp:45-66 | a best object leaves, re-tagged, and the rest stays a heap |
| Heaps.ComplexPQueue.Remove | queue/safe_complex_pqueue.hpp:68-94 | the object leaves from any position; the root stays if it is another |
| Heaps.ComplexPQueue.TryRemove | queue/safe_complex_pqueue.hpp:189-198 | false, and nothing changed, exactly when the tag names another queue |
| Heaps.ComplexPQueue.MoveNode | queue/safe_complex_pqueue.hpp:200-213 | a new priority with order and members kept |
| Heaps.ComplexPQueue.PopHalf | queue/safe_complex_pqueue.hpp:139-161 | at most half and at most max distinct objects leave; they and the rest are the old contents; never the root |
| Heaps.HalfTakesSome | queue/safe_complex_pqueue.hpp:139-161 | something is taken whenever something may be |
| Heaps.HalfFallsShort | queue/safe_complex_pqueue.hpp:144-158 | but not always the half that is asked for: of four objects one |
| Heaps.PopBest | queue/safe_complex_pqueue.hpp:170-187 | the best of two queues |
| DoubleQueues.DoubleQueue.PushTail | queue/intrusive_implementation.hpp:118-138 | the node is linked behind the tail |
| DoubleQueues.DoubleQueue.PushHead | queue/intrusive_implementation.hpp:96-116 | the queue stays linked if and only if the prev field of the node was null |
| DoubleQueues.DoubleQueue.PopHead | queue/intrusive_implementation.hpp:53-75 | the first node leaves with its new tag |
| DoubleQueues.DoubleQueue.PopTail | queue/intrusive_implementation.hpp:77-93 | the last node leaves and keeps its prev field |
| DoubleQueues.DoubleQueue.Remove | queue/safe_double_queue.hpp:99-106 | a node leaves from anywhere, exactly when its tag names this queue |
| DoubleQueues.DoubleQueue.PopTailHalf | queue/safe_double_queue.hpp:51-71 | exactly the first half, or max, leave in order |
| BoundedQueues.PushOk | queue/bounded_pqueue.hpp:82-124 | a push appends to one priority and keeps every counter the number of items to its left |
| BoundedQueues.BestIsFirst | queue/bounded_pqueue.hpp:174-189 | the walk by counters ends at the smallest priority with items |
| BoundedQueues.DropOk | queue/bounded_pqueue.hpp:126-160 | taking items from there keeps the counters exact when they go down by as much |
| BoundedQueues.LogOfPower | utils/utils.hpp:43-65 | upper_log2 undoes next_power2 |
| BoundedQueues.BoundedPQueue.constructor | queue/bounded_pqueue.hpp:282-295 | for every range there is a leaf for every priority |
| BoundedQueues.BoundedPQueue.Push | queue/bounded_pqueue.hpp:108-124 | one item behind the others of its priority |
| BoundedQueues.BoundedPQueue.PushQueue | queue/bounded_pqueue.hpp:82-100 | a whole queue likewise |
| BoundedQueues.BoundedPQueue.Pop | queue/bounded_pqueue.hpp:174-197 | the oldest item of the smallest priority with items |
| BoundedQueues.BoundedPQueue.TopList | queue/bounded_pqueue.hpp:126-160 | all items of that priority go behind the caller's list, or none from an empty queue; the counters stay exact if and only if that list, or the queue, was empty |
| BarrierTrees.TreeBuilder.Build | utils/tree_barrier.hpp:81-107 | a subtree in which parents come first and counts are exact, cut off when ids run out |
| BarrierTrees.BuildTree | utils/tree_barrier.hpp:116-132 | the tree spans all threads if and only if a full tree of the computed depth is large enough |
| BarrierTrees.BinaryTreeSpans | utils/tree_barrier.hpp:116-132 | for radix 2 it always is |
| BarrierTrees.TernaryTreeDoesNot | utils/tree_barrier.hpp:116-132 | for radix 3 and five threads it is not |
| BarrierProtocols.StepKeepsInv | utils/tree_barrier.hpp:37-59 | every step keeps senses, edges and children counts consistent |
| BarrierProtocols.BarrierSafety | utils/tree_barrier.hpp:37-59 | in every run no thread leaves its k-th wait before all have entered theirs |
| BarrierProtocols.BarrierLiveness | utils/tree_barrier.hpp:37-59 | when all threads are inside, one can go on |
| BarrierProtocols.RootSense | utils/tree_barrier.hpp:52-56 | the assertion of the root after its flip holds |
| QueuedLocks.StepKeepsInv | utils/queued_spinlock.hpp:41-76 | every step keeps the line of entries linked in the order of the tail exchanges |
| QueuedLocks.MutualExclusion | utils/queued_spinlock.hpp:41-76 | at most one owner in every run |
| QueuedLocks.FirstComeFirstServed | utils/queued_spinlock.hpp:41-76 | threads enter in the order of their exchanges |
| QueuedLocks.NeverStuck | utils/queued_spinlock.hpp:67-76 | while threads are in line one of them can go on |
| TicketLocks.StepKeepsInv | utils/spinlock.hpp:33-56 | every step keeps tickets in line across the wrap-around |
| TicketLocks.ExclusionAndOrder | utils/spinlock.hpp:33-56 | at most one thread inside, in the order of drawing, with fewer than 65536 tickets out at each draw |
| TicketLocks.OneTooMany | utils/spinlock.hpp:51-56 | with all tickets out, one more draw lets a second thread in |
| TicketLocks.TwoInside | utils/spinlock.hpp:33-56 | a run of 65537 threads that gets there |
| TicketLocks.FewThreads | utils/spinlock.hpp:33-56 | at most 65536 threads never get there |
| LinearQueues.StepKeepsInv | queue/safe_linear_queue.hpp:44-87 | every step of pushers, splicers, helpers and the consumer keeps the chain, the ends and what was seen consistent |
| LinearQueues.HeadHasNext | queue/safe_linear_queue.hpp:120-141 | the assertions of pop: a queue that is not empty has a node behind its head |
| LinearQueues.FirstInFirstOut | queue/safe_linear_queue.hpp:120-141 | items are popped once, in the order of linking, and none is dropped |
| LinearQueues.EmptyMeansEmpty | queue/safe_linear_queue.hpp:89-92 | the head never passes the tail; with nobody pushing, empty is exact |
| LinearQueues.LaggingTail | queue/safe_linear_queue.hpp:44-87 | a tail that lags has a pusher at work |
| Aggregates.BestIsBest | db/agg_configuration.cpp:99-156 | the scan ends with the first leaf of maximal, or minimal, value |
| Aggregates.GenerateBest | db/agg_configuration.cpp:99-156 | the loop computes that leaf and the largest depth |
| Aggregates.GenerateSum | db/agg_configuration.cpp:158-180 | the loop sums values as often as they are referenced |
| Aggregates.AddedCounts | db/agg_configuration.cpp:11-57 | the values are a multiset under additions and retractions |
| Aggregates.AddedStaysCurrent | db/agg_configuration.cpp:33-36 | the mark for changes stays right except for an absent retraction over a change that matters |
| Aggregates.AbsentRetractionLosesChange | db/agg_configuration.cpp:33-36 | such a retraction leaves an announced fact behind: the group is erased, nothing is taken back, and a later assertion for it does not fit |
| Aggregates.EmittedFits | db/agg_configuration.cpp:366-398 | the events of generate fit what was announced, each retraction with the depth it undoes |
| Aggregates.TupleAggregate.AddToSet | db/tuple_aggregate.cpp:18-46 | the group of the tuple takes it, and stays current if retractions name present tuples |
| Aggregates.KeptByPass | db/tuple_aggregate.cpp:48-74 | a pass keeps the groups with values, their values and their order, and no others |
| Aggregates.PassOk | db/tuple_aggregate.cpp:48-74 | the events of a pass always fit; their replay is the aggregate of every group left if and only if no change was forgotten, and keeps fitting the groups if and only if no empty group had something announced |
| Aggregates.TupleAggregate.Generate | db/tuple_aggregate.cpp:48-74 | exactly the groups with values stay, with their values; replaying all events gives exactly the aggregate of every such group, and nothing for the others, if and only if no group had forgotten a change |
| Allocators.SmallNeverOverflows | mem/pool.hpp:147-152 | a table of small sizes always has room, as there are only 31 of them |
| Allocators.MakeSize | mem/pool.hpp:147-152 | the next multiple of four |
| Allocators.UnguardedFirstSize | mem/mixedgroup.hpp:78-79 | without the guard the first size is found again only if an unwritten entry allows it |
| Allocators.PageSize | mem/mixedgroup.hpp:98-112 | a new page fits the request |
| Allocators.MixedGroup.Search | mem/mixedgroup.hpp:37-79 | finds the size, or the place where it belongs |
| Allocators.MixedGroup.MakeEntry | mem/mixedgroup.hpp:80-90 | the table stays strictly sorted |
| Allocators.MixedGroup.Allocate | mem/mixedgroup.hpp:125-139 | the block is inside a page and overlaps no block in use; a small group stays small |
| Allocators.MixedGroup.Deallocate | mem/mixedgroup.hpp:141-150 | the block goes to the list of its size and no block is lost; it fails exactly for a new size in a full table, which a small group never meets |
| Allocators.AllocateSmall | mem/pool.hpp:164-178 | a request of at most 128 bytes gets a block of the next multiple of four, and the group stays small |
| Allocators.DeallocateSmall | mem/pool.hpp:205-219 | freeing it never overflows the table |
| Allocators.MediumTableOverflows | mem/mixedgroup.hpp:81-88 | a run of 33 requests of different sizes and their release after which the medium group of the pool aborts |
| NodeIds.CreateKeepsInv | thread/ids.cpp:116-151 | making a node keeps every id in one place |
| NodeIds.DeleteKeepsInv | thread/ids.cpp:43-86 | deleting a node, by its creator or another thread, likewise |
| NodeIds.SweepKeeps | thread/ids.cpp:88-101 | cleaning up nodes deleted by others likewise |
| NodeIds.OnePlaceInEveryRun | db/database.cpp:83-95 | in every run each id handed out is in exactly one range, list or dropped |
| NodeIds.IdsAreUnique | thread/ids.cpp:116-160 | no two nodes share an id, and none has that of an initial node |
| NodeIds.CreatedIsUnique | thread/ids.cpp:116-151 | the id of a new node is the id of no other node |

## Left out

- The bytecode interpreter, the printer, statistics, timers, I/O and command-line parsing.
- `stop_flag` and `set_force_inactive`: the kill path does not keep the counter law.
- Facts of threads (`new_thread_work`): they are in no queue, so the emptiness of queues does not see them.
- Nodes created while running: the scheduler has a fixed set of nodes, all queued at the start.
- What a removal from the wrong queue does to links, heap positions and size counters: the model leaves the entry in the owner's queue.
- `has_work` looks at its four queues one after the other; in the model it is one step.
- The rounds that `busy_wait` counts before it tries to steal, and the order in which victims are tried: a thief may try in any round, and may activate itself for a victim whose work is long gone.
- Priorities inside the scheduler: a node only has one or not; which node a queue yields is open there, and the queues have models of their own.
- Update in place of trie nodes and hash tables: trees and tables are values inside the classes that own them, so pointer aliasing between parent, child and sibling fields is not captured.
- Intrusive lists of tuples are sequences inside tries and stores; the linked form is modelled once, in the double queue.
- Depth counters of cycle predicates, `wipeout` and struct fields in searches.
- Reads one past the last bucket in the loops of `find_next`; the model stops at the last bucket.
- The warning about imbalanced hashes, which only prints.
- Erasing from a hash table while its iterator is live.
- Integer width of sums and reference counts; floating-point aggregates are the same scans over another type.
- Hash functions are parameters; the hash respects the equality of keys, and a new nested table starts without nested tables of its own.
- `initial_fast_insert` and `start_initial_insert` of the heap, `move_up` and `pop_if_not_empty` of the double queue.
- Memory reclamation and weak memory ordering: steps are sequentially consistent, and nodes of the multi-producer queue are never freed.
- Translated node ids, which move in step with node ids, and the final commit of ids to the database.
- The write past the full table of sizes that comes before the abort of mem/mixedgroup.hpp:88.
- `generate_sum_list_float` of the aggregates, which adds lists of floats field by field.
