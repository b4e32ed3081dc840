# Concurrent data structures, reclamation and sorting: a Dafny model

This project models the hard parts of a benchmark of concurrent data structures and of the Flock and
Parlay libraries it runs on, and proves properties of the model.

**Concurrent code** is a transition system. A state holds the shared words and one program counter per
thread, any number of threads; every load, store and compare-and-swap of a shared word is one step; `Exec`
is the state after a schedule, a sequence that says which thread moves and what an idle thread starts; and
every theorem is about `Exec(s, schedule)` for all schedules. Steps interleave (sequential consistency).
Fields called history in a comment record the past for the statements and decide nothing. What a thread
does is stated in terms of the schedule entry that began its call (`CallOf`, `Offered`, `Begins`): the
operation and the arguments are those given there, through all retries, to the return. Progress is proved
too: an operation is wait-free where its own steps bound it whatever the others do, and elsewhere a thread
that is left alone returns.

**Sequential code** is imperative: methods with loops over arrays, or over the fields of a class, proved
against what the source promises. Slices that are only read are passed as their contents, and calls that
the source runs in parallel on disjoint ranges are made one after the other.

| file | what it models |
|---|---|
| `Thunks`, `FlockLock`, `FlockSafety`, `FlockTheorems`, `FlockCalls`, `FlockProgress` | Flock's lock: many threads run one critical section at once, over a shared log and tagged words, and it behaves as if it ran once |
| `LogArrays` | the log as linked arrays of eight entries |
| `Epoch` | epoch-based reclamation, with the slot-by-slot scan |
| `HazptrStack`, `HazptrSafety`, `HazptrCalls` | the stack reclaimed with hazard pointers, addresses reused |
| `WorkStealingDeque`, `McasDeque`, `Queue` | the work-stealing deque, the Snark deque on multi-word compare-and-swap, the lock-free queue |
| `SortedList`, `ListProgress`, `HashBucket` | Flock's sorted doubly linked list and versioned hash bucket |
| `HashLayout`, `HashInsert`, `HashTable` | the deterministic hash table: concurrent insertion, sequential `find` and `deleteVal` |
| `Ordering`, `Quicksort`, `Merge`, `MergeSort`, `PivotTree`, `Radix`, `BucketSort` | the sorts, for any strict weak order |
| `TreeShapes`, `BinarySearchTree` | the binary search tree with duplicates, in an explicit memory |
| `BlockAllocator` | the pooling block allocator |
| `Progress` | how an operation is shown to be wait-free |

Where a property fails for some inputs, the exact condition is proved:

* `deleteVal` leaves exactly the other elements in every table with an empty cell, but searches keep
  finding them if and only if every element it looks at is rightly judged by `lessIndex`, which compares
  cyclic distances with half the table. `HashTable.DeleteCorrect` gives the equivalence, `RunsShort` (no
  run of occupied cells longer than half the table) is enough, and `HashTable.LongRunLosesKey` is a table
  of any size m from 8 on, with m/2 + 3 keys, in which a deletion puts another key out of reach. The
  constructor makes 100 + 1.5 size cells, so that those keys are within the declared size from m = 418 on.
* The comment on `push_bottom` says that it returns whether the deque was empty before. It returns whether
  `bot` was zero. That implies emptiness (`ReportedEmptyWasEmpty`), but not the other way round
  (`EmptyNotReported`): the report is right if and only if the `top` in `age` is zero or below `bot`, that
  is, unless thieves have emptied the deque since it was last reset (`ReportIsRightWhen`).
* `num_used_blocks` counts the blocks of every list that a task has fetched and not yet installed: it is
  exact if and only if there is none (`NumUsedIsExact`), and there can be one (`NumUsedOvercounts`). With
  `list_length` one, `free` never returns blocks to the pool (`OneNeverSplits`).
* In the sorted list `prev` inverts `next` at a node if and only if no thread is between its two writes,
  having linked a new predecessor to the node and not yet written the back link (`PrevInvertsNext`). An
  unlocked predecessor is not enough: the node that an insert has just linked is not locked
  (`BackLinkLags`).

## Model

| member | source | states |
|---|---|---|
| Thunks.CompleteRunUnique | include/flock-lib/flock/lf_types.h:27-44 | A critical section, as a deterministic program of loads, stores and compare-and-modifies, has at most one complete run on a given memory: the meaning that the lock must preserve. |
| FlockCalls.ExactlyOnce | include/flock-lib/flock/lf_lock.h:102-272 | For every interleaving of owners and helpers there is a serial order of different calls of the schedule, such that the critical sections are what the thunks given to these calls do when each is run once, alone and in that order, from the initial memory; whenever the lock is free, that is what memory has come from. |
| FlockTheorems.HolderRunsAlone | include/flock-lib/flock/lf_lock.h:128-151 | While a descriptor holds the lock, its log is a run of its thunk on the memory left by all sections before it, and memory is what that run has produced, up to one store not yet visible. |
| FlockCalls.ReturnsItsResult | include/flock-lib/flock/lf_lock.h:178-272 | A call that has returned, begun by any entry of the schedule, ran the thunk of that entry once, at its place in the serial order, and returned what the thunk returned there, in every continuation of the run too; or it was a try that gave up: then another thread held the lock during the call, and its thunk has not run and never will. A try that helps does not return while the holder it found has held the lock all along. |
| FlockProgress.TryWaitFree | include/flock-lib/flock/lf_lock.h:229-272 | If thunks return within k operations, a try is over after 6 k + 18 steps of its thread, whatever the others do. |
| FlockProgress.AloneReturns | include/flock-lib/flock/lf_lock.h:128-227 | Lock freedom: wherever the other threads have stopped, even in the middle of a critical section, a thread that is left alone comes to the end of its call, `with_lock` included, because it finishes the section of the holder. |
| FlockTheorems.StaleHelperHarmless | include/flock-lib/flock/tagged.h:108-134 | A thread still running a thunk whose descriptor no longer holds the lock changes neither memory, nor the lock word, nor any log. |
| FlockTheorems.NeverReentrant | include/flock-lib/flock/lf_lock.h:235-239 | Outside critical sections a thread never finds its own descriptor in the lock word. |
| FlockTheorems.LockChange | include/flock-lib/flock/lf_lock.h:102-114 | The lock word changes only from a counter to a descriptor that takes the lock, or from the holder's descriptor to the holder's counter plus one. |
| FlockTheorems.CounterStrictlyIncreases | include/flock-lib/flock/lf_lock.h:95-114 | If the lock is free at two moments of a run and was taken in between, its counter is strictly larger at the later one; if it was not taken, the counter is the same. |
| FlockTheorems.AllocatedOnce | include/flock-lib/flock/lf_types.h:263-274 | However many helpers run an allocation: whenever no thread is inside one, every object made is either given back or committed by exactly one log entry. |
| LogArrays.Agreement | include/flock-lib/flock/lf_log.h:65-108 | Of any two helpers, one has seen a prefix of the sequence of committed values the other has seen: at equal positions they have seen the same values. |
| LogArrays.ArraysAreLog | include/flock-lib/flock/lf_log.h:71-90 | Position i of the log is one cell for all helpers, entry i mod 8 of the i/8-th linked array, and it holds the i-th committed value. |
| LogArrays.CommittedOnce | include/flock-lib/flock/lf_log.h:94-108 | A committed entry never changes in the rest of the run. |
| LogArrays.CommittedWasOffered | include/flock-lib/flock/lf_log.h:94-108 | Nothing is made up: a committed value is the one that the schedule offered to some helper standing at that very position, or the mark where the program runs code once. |
| LogArrays.EachCommitSeesOne | include/flock-lib/flock/lf_log.h:65-108 | Every commit that the schedule begins on a helper sees exactly one value: none is skipped and none is seen twice. |
| LogArrays.CommitWaitFree | include/flock-lib/flock/lf_log.h:65-108 | A commit, the linking of a new array included, is over after at most four more steps of its helper, whatever the others do. |
| HashLayout.LessIndexIsHalf | include/flock-lib/parlay/hash_table.h:57-59 | `lessIndex(a, b)` holds exactly when b is ahead of a by a nonzero cyclic distance below half the table. |
| HashLayout.UniqueLayout | include/flock-lib/parlay/hash_table.h:74-77 | Two tables in probe order with the same key set have the same key in every cell: the order, with larger keys first from their home cell on, determines the layout. |
| HashInsert.InsertedIsOffered | include/flock-lib/parlay/hash_table.h:78-99 | What counts as inserted is what the initial table held and the elements that the schedule hands to idle threads. |
| HashInsert.TableHoldsInserted | include/flock-lib/parlay/hash_table.h:78-99 | After any interleaving of insertions, once all have returned, the table is in probe order and holds exactly the keys of the initial table and of the elements that the schedule handed to idle threads, each with data of one of these. |
| HashInsert.HistoryIndependent | include/flock-lib/parlay/hash_table.h:78-99 | Any two runs in which the same keys are so offered, to any threads in any interleaving, end with the same key in every cell. |
| HashInsert.LargestDataWins | include/flock-lib/parlay/hash_table.h:85-90 | If `replaceQ` prefers larger data, every key ends with the largest data offered for it. |
| HashInsert.SameElementsSameTable | include/flock-lib/parlay/hash_table.h:78-99 | Then two runs in which the same elements are offered end with identical tables. |
| HashInsert.AloneReturns | include/flock-lib/parlay/hash_table.h:78-99 | While some cell is empty, a thread that is left alone returns from its insertion within two steps a cell, whatever the others were doing when they stopped. |
| HashTable.OrderSurvives | include/flock-lib/parlay/hash_table.h:163-200 | The chain of hole fillings that starts at a hole ends in a table in probe order if and only if each step judges rightly every element it looks at. |
| HashTable.DeleteCorrect | include/flock-lib/parlay/hash_table.h:130-204 | A deletion from an ordered table with an empty cell leaves exactly the elements with other keys, and leaves the table ordered if and only if all elements looked at are rightly judged. |
| HashTable.ShortRunsDeleteCorrect | include/flock-lib/parlay/hash_table.h:130-204 | If no run of occupied cells is longer than half the table, deletion restores the probe order, across wrap-around. |
| HashTable.LongRunLosesKey | include/flock-lib/parlay/hash_table.h:57-59 | A family of ordered, half-full tables, one for every size from 8 on, in which deleting one key leaves another behind an empty cell. |
| HashTable.Hashtable.Find | include/flock-lib/parlay/hash_table.h:206-224 | `find` stops, and returns an element with the key if and only if the table holds one, whenever some cell is empty or holds a key that is not larger. |
| HashTable.Hashtable.FindReplacement | include/flock-lib/parlay/hash_table.h:170-184 | The search forward and back ends at the one cell that is the first whose element is empty or not judged to have its home after the hole. |
| HashTable.Hashtable.DeleteVal | include/flock-lib/parlay/hash_table.h:130-204 | `deleteVal` terminates, returns true and turns the array into the table that `DeleteCorrect` is about. |
| Epoch.ActiveNearCurrent | include/flock-lib/flock/epoch.h:100-142 | Every thread past its re-check in `announce` announces the epoch that was current at the entry of the schedule that let it in, which is at least the current one minus one, although the scan reads the slots one by one. |
| Epoch.SafeReclamation | include/flock-lib/flock/epoch.h:205-257 | When a thread is about to destruct an object, the schedule has called `retire` on that thread with that object before the entry at which any thread now active has entered. |
| Epoch.Accounted | include/flock-lib/flock/epoch.h:205-257 | The objects with which the schedule has called `retire` on a thread are those on their way into its list, waiting in its two lists, or destructed by it, with multiplicities, and there are no others. |
| Epoch.DestructedOnce | include/flock-lib/flock/epoch.h:217-257 | Each such call has its object in exactly one of these places, once. |
| Epoch.RetireWaitFree | include/flock-lib/flock/epoch.h:124-142 | `retire` returns after a number of its thread's steps that is bounded by the length of its older list and the number of threads, whatever the others do. |
| Epoch.RetireAlone | include/flock-lib/flock/epoch.h:205-257 | A `retire` that is left alone puts its link in front of the younger list; if the epoch has moved on by two since the thread's last look, it first destructs the whole older list, in order, and makes the younger one the older. |
| Epoch.EpochAdvances | include/flock-lib/flock/epoch.h:124-142 | When every other thread is outside or active in the current epoch, a `retire` that tries an update and is left alone moves the epoch on by one: threads that have left do not hold it up. |
| Epoch.VisitAlone | include/flock-lib/flock/epoch.h:100-123 | A thread that enters `with_epoch` and is left alone announces the current epoch within four steps, and leaving restores all slots. |
| WorkStealingDeque.JobsConserved | include/flock-lib/parlay/internal/work_stealing_deque.h:53-113 | In every run of one owner and any number of thieves, the jobs with which the moves have called `push_bottom` are the jobs returned, those still in the deque and the one in the hand of its push, with multiplicities. |
| WorkStealingDeque.PushedIsOffered | include/flock-lib/parlay/internal/work_stealing_deque.h:53-63 | The jobs pushed, followed by the one in the hand of its push, are the jobs with which the moves have called `push_bottom`, in order. |
| WorkStealingDeque.StepsAreAtomic | include/flock-lib/parlay/internal/work_stealing_deque.h:53-113 | Every step leaves the abstract deque alone, pushes the job at the bottom, pops the newest job for the owner or the oldest for a thief, and hands out exactly that job; the tag in `age` defeats reused indices. |
| WorkStealingDeque.EmptyPopIsEmpty | include/flock-lib/parlay/internal/work_stealing_deque.h:88-113 | `pop_bottom` comes back with nothing only if the deque is empty. |
| WorkStealingDeque.EmptyStealNearlyEmpty | include/flock-lib/parlay/internal/work_stealing_deque.h:70-83 | `pop_top` comes back with nothing only if the age has changed since its call began, or if the deque is empty but for a job that the owner is popping at that moment. |
| WorkStealingDeque.ReportedEmptyWasEmpty | include/flock-lib/parlay/internal/work_stealing_deque.h:52-63 | `push_bottom` reports that the deque was empty only if it was. |
| WorkStealingDeque.EmptyNotReported | include/flock-lib/parlay/internal/work_stealing_deque.h:52-63 | A run in which a push finds the deque empty and does not report it. |
| WorkStealingDeque.ReportIsRightWhen | include/flock-lib/parlay/internal/work_stealing_deque.h:52-63 | In every reachable state the report of `push_bottom` agrees with emptiness, in both directions, if and only if `top` is zero or below `bot`. |
| WorkStealingDeque.OwnerWaitFree | include/flock-lib/parlay/internal/work_stealing_deque.h:53-113 | An operation of the owner is over after at most six of its steps, whatever the thieves do. |
| WorkStealingDeque.ThiefWaitFree | include/flock-lib/parlay/internal/work_stealing_deque.h:70-83 | `pop_top` is over after at most three more steps of its thief, whatever the others do. |
| HazptrSafety.NoUseAfterDestroy | include/flock-lib/parlay/internal/concurrency/hazptr_stack.h:58-90 | No step, of `push`, `pop`, `size` or the clean-up, reads or writes a node that has been destroyed, or destroyed and allocated again: it touches the thread's own new node, a node in its own retired list, or a live node that its validated announcement protects. |
| HazptrSafety.DestroyedUnprotected | include/flock-lib/parlay/internal/concurrency/acquire_retire.h:81-154 | A node is destroyed only when no thread's validated announcement protects it, although slots are scanned one by one and addresses are reused. |
| HazptrSafety.StepsAreAtomic | include/flock-lib/parlay/internal/concurrency/hazptr_stack.h:58-82 | Only successful swaps of the head change the stack: a push puts its value on top, a pop takes the top off. |
| HazptrSafety.CallsTakeEffectOnce | include/flock-lib/parlay/internal/concurrency/hazptr_stack.h:58-82 | A call goes from before its effect to after it in its successful swap of the head and in no other step, and never back; it returns from a push, or with a value, only after its effect, and otherwise without one: exactly one swap, or none. |
| HazptrSafety.PopReturnsTop | include/flock-lib/parlay/internal/concurrency/hazptr_stack.h:72-82 | A pop returns the value that was on top when its swap succeeded. |
| HazptrCalls.EmptyPopIsEmpty | include/flock-lib/parlay/internal/concurrency/hazptr_stack.h:74-77 | The step with which a pop comes back with nothing is taken while the stack is empty. |
| HazptrSafety.SizeIsExact | include/flock-lib/parlay/internal/concurrency/hazptr_stack.h:84-90 | `size` returns the number of elements at the moment its announcement was validated. |
| HazptrSafety.HeadKnowsLength | include/flock-lib/parlay/internal/concurrency/hazptr_stack.h:58-66 | The length stored in the head node is the length of the stack. |
| HazptrSafety.EveryNodeAccounted | include/flock-lib/parlay/internal/concurrency/acquire_retire.h:36-70 | Every allocated node is being pushed, on the stack, being popped, or in its popper's retired list and in no other; that list is linked through the nodes' own `next` fields and has no node twice: nothing leaks. |
| HazptrCalls.StepsAreCalls | include/flock-lib/parlay/internal/concurrency/hazptr_stack.h:58-82 | Each step leaves the contents alone, or puts on top the value with which the schedule called `push` on that thread, or takes the top off for a `pop` that the schedule called there. |
| HazptrCalls.CallServed | include/flock-lib/parlay/internal/concurrency/hazptr_stack.h:58-90 | Through all its retries a thread carries out the call that the schedule gave it: a push changes the stack once, a pop returns the one value that it took off or changes nothing, and `size` returns the length seen at its validation. |
| HazptrCalls.CleansTheRest | include/flock-lib/parlay/internal/concurrency/acquire_retire.h:45-70 | After a clean-up only nodes that were found announced in a slot during its scan are left in the retired list; all others are destroyed. |
| HazptrCalls.AloneReturns | include/flock-lib/parlay/internal/concurrency/acquire_retire.h:81-154 | A thread that is left alone comes to the end of its call, clean-up included, within a number of steps bounded by the number of threads and the length of its retired list. |
| McasDeque.StepsAreAtomic | lockfree-mcas/Deque.h:44-125 | Each step leaves the abstract sequence alone, or adds the value with which the schedule called a push on that thread at the side it called, or takes the value off at the side at which it called a pop; multi-word swaps may fail spuriously. |
| McasDeque.CallsTakeEffectOnce | lockfree-mcas/Deque.h:44-125 | Through all its retries a thread carries out the call that the schedule gave it, on its side and with its value; once it has returned, a push has changed the deque exactly once, and a pop exactly once if it returns a value, which is the one it took off, and never if it returns none. |
| McasDeque.EmptyPopIsEmpty | lockfree-mcas/Deque.h:87-125 | The step with which a pop reports an empty deque is taken while the deque is empty. |
| McasDeque.HatsDieTogether | lockfree-mcas/Deque.h:44-125 | Either hat is dead exactly when the deque is empty, and a self-linked node stays dead. |
| McasDeque.AloneReturns | lockfree-mcas/Deque.h:44-125 | Obstruction freedom: wherever the others have stopped, a thread that is left alone returns from its call within nine steps. |
| Queue.StepsAreAtomic | lockfree/Queue.h:39-88 | An item enters, at the back, exactly when the tail swings onto its node, by whichever thread; a successful swap of the head takes the front off, and that pop returns its value; nothing else changes the queue. |
| Queue.FirstInFirstOut | lockfree/Queue.h:39-88 | The values returned so far followed by the contents are the values inserted, in order; `head` and `tail` are the nodes at the positions that separate them, the tail lags the last node by at most one and the head never passes the tail. |
| Queue.PushTakesEffectInside | lockfree/Queue.h:39-63 | A push that has returned has its node behind the tail, one that has not linked its node does not, and no node is linked twice: each push inserts once, between call and return. |
| Queue.ReportedEmptyWasEmpty | lockfree/Queue.h:65-75 | A pop that reports an empty queue, even early while a node is linked behind the tail, read the tail when the queue was empty. |
| Queue.EmptyIsRecorded | lockfree/Queue.h:65-75 | The record that `ReportedEmptyWasEmpty` refers to is whether the contents were empty at the tail read. |
| Queue.CallServed | lockfree/Queue.h:39-89 | Through all its retries a thread carries out the call that the schedule gave it: a push is about its own node, which holds the value of the call, and a pop returns the one value that it took off the front, or none. |
| Queue.InsertedAreCalls | lockfree/Queue.h:39-63 | What has gone into the queue are the values of different calls of `push` in the schedule. |
| Queue.AloneReturns | lockfree/Queue.h:39-89 | Obstruction freedom: wherever the others have stopped, a thread that is left alone returns from its call within 17 steps. |
| SortedList.ListIsSorted | lockfree-flock/SortedList.h:25-104 | In every reachable state the next links lead from the root through distinct nodes in key order to the tail, and every node not marked removed is among them. |
| SortedList.RemovedIsLeaving | lockfree-flock/SortedList.h:79-104 | A node marked removed is still linked only while its remover, holding it and its predecessor, is about to unlink it. |
| SortedList.PrevInvertsNext | lockfree-flock/SortedList.h:55-104 | At neighbours a and b, `prev` of b is a if and only if no thread has just linked a to b, by an insert or a remove, and has yet to write the back link. |
| SortedList.BackLinkLags | lockfree-flock/SortedList.h:55-77 | The exception occurs, with an unlocked predecessor: an insert into the empty list, stopped between its two writes. |
| SortedList.StepsAreAtomic | lockfree-flock/SortedList.h:55-104 | A successful insert adds exactly one occurrence of its key and a successful remove takes exactly one away, each in one step; no other step changes the keys. |
| SortedList.MissedWasAbsent | lockfree-flock/SortedList.h:25-33 | A remove that finds nothing is right: the unlocked walk, which may pass through removed nodes, shows that the key was absent at some moment during the call. |
| SortedList.SinceIsTheCall | lockfree-flock/SortedList.h:79-104 | The bound that `MissedWasAbsent` puts on that moment is the version current when the call began, through all retries; the count that `CallsMakeOneVersion` speaks of is that of the versions of the list that the call's own steps make. |
| SortedList.CallsMakeOneVersion | lockfree-flock/SortedList.h:55-104 | Between its call and its return an insert or remove that succeeds makes exactly one version of the list; a remove that finds nothing makes none. |
| ListProgress.FirstAttemptSucceeds | lockfree-flock/SortedList.h:25-104 | An insert or a remove that begins while no lock is held and is left alone returns after one walk over the list and twelve more steps. |
| HashBucket.NoKeyTwice | lockfree-flock/HashMap.h:68-101 | In every reachable state the links from the bucket's head lead through its nodes to the end, and no key is there twice. |
| HashBucket.NumGuardsSearch | lockfree-flock/HashMap.h:68-101 | If the version number read under the lock is the one read before the search, the bucket has not changed since that read, and the search is still right: node and field found, or absence. |
| HashBucket.AtIsTheRead | lockfree-flock/HashMap.h:68-72 | What `NumGuardsSearch` calls that read is the read of the version number at the start of the attempt. |
| HashBucket.StepsAreAtomic | lockfree-flock/HashMap.h:68-101 | Inserting adds a key that was absent and removing takes away a key that was present, each in one step; no other step changes the key set. |
| HashBucket.CallsMakeOneChange | lockfree-flock/HashMap.h:35-101 | Between its call and its return a remove that succeeds changes the bucket exactly once; an insert once, or not at all if its key was there during the call; a lookup, and a remove that finds nothing, never. |
| HashBucket.MadeCounts | lockfree-flock/HashMap.h:68-101 | The count that `CallsMakeOneChange` speaks of is that of the versions of the bucket that the call's own steps make. |
| HashBucket.AnswerWasRight | lockfree-flock/HashMap.h:35-56 | A lookup, or a remove that finds nothing, takes no lock and answers what was true at some moment during the call. |
| HashBucket.AloneReturns | lockfree-flock/HashMap.h:35-101 | From any moment at which no other thread holds the lock, a thread that is left alone returns from its call within two walks over the nodes ever made and twelve steps. |
| Quicksort.InsertionSort | include/flock-lib/parlay/internal/quicksort.h:62-71 | Sorts the range, stably, and leaves the rest alone, for any strict weak order. |
| Quicksort.Sort5 | include/flock-lib/parlay/internal/quicksort.h:73-83 | Five elements picked by any hash are sorted at the front of a rearranged range. |
| Quicksort.FirstScans | include/flock-lib/parlay/internal/quicksort.h:110-114 | The first two unguarded scans stay in bounds, because an element left behind the pivots stops each. |
| Quicksort.Scan | include/flock-lib/parlay/internal/quicksort.h:134-135 | The scan inside the loop stays in bounds: it runs into the element just placed if into no other. |
| Quicksort.Split3 | include/flock-lib/parlay/internal/quicksort.h:85-147 | The range is rearranged into elements below the first pivot, between the pivots inclusive, and above the second, with both pivots placed; the flag is true exactly when the pivots are equivalent. |
| Quicksort.QuicksortSerial | include/flock-lib/parlay/internal/quicksort.h:149-159 | Terminates with the range sorted and rearranged, also when the middle part is skipped. |
| Quicksort.Sort | include/flock-lib/parlay/internal/quicksort.h:161-179 | So does the version that divides first. |
| Merge.LinearSearch | include/flock-lib/parlay/internal/binary_search.h:12-19 | The first index from which the element is not below v. |
| Merge.BinarySearch | include/flock-lib/parlay/internal/binary_search.h:20-35 | On a sequence whose elements below v come first, the number of them. |
| Merge.MergedSorted | include/flock-lib/parlay/internal/merge.h:20-52 | The sequential merge of sorted sequences is sorted. |
| Merge.MergedStable | include/flock-lib/parlay/internal/merge.h:20-52 | It is a stable rearrangement of the first sequence followed by the second. |
| Merge.SeqMerge | include/flock-lib/parlay/internal/merge.h:20-52 | Writes that merge to the output slice and nothing else. |
| Merge.MergedSplit | include/flock-lib/parlay/internal/merge.h:78-91 | Merging two sequences is merging their first and their second parts, wherever no element would cross. |
| Merge.Divide | include/flock-lib/parlay/internal/merge.h:78-83 | The split that `merge_into` makes is such a place, with something left on both sides. |
| Merge.MergeInto | include/flock-lib/parlay/internal/merge.h:55-92 | For sorted inputs, terminates and writes exactly what the sequential merge writes. |
| MergeSort.OneStableSorting | include/flock-lib/parlay/internal/merge_sort.h:16-20 | A sequence has only one stable sorting, which is a permutation of it: any two stable sorts agree. |
| MergeSort.MergedHalves | include/flock-lib/parlay/internal/merge_sort.h:36-48 | The merge of the stable sortings of two parts is the stable sorting of the whole. |
| MergeSort.SortInto | include/flock-lib/parlay/internal/merge_sort.h:20-50 | Leaves the stable sorting of the slice in the one of the two buffers that `inplace` chooses, and touches neither buffer elsewhere. |
| MergeSort.SortInPlace | include/flock-lib/parlay/internal/merge_sort.h:52-63 | Turns the array into its stable sorting. |
| PivotTree.HeapIndex | include/flock-lib/parlay/internal/bucket_sort.h:49-60 | The heap index of a subtree determines, and is determined by, where it starts among the pivots; all indices stay in the tree. |
| PivotTree.ToBalancedTree | include/flock-lib/parlay/internal/bucket_sort.h:65-77 | Puts every pivot of the range at its heap index, in place in an array used for something else. |
| PivotTree.Descend | include/flock-lib/parlay/internal/bucket_sort.h:110-115 | The descent gives the number of pivots not greater than the element. |
| Radix.RadixStep | include/flock-lib/parlay/internal/bucket_sort.h:24-47 | Every bucket ends up, in input order, as one slice of the output; `counts` ends up as the starts of the buckets. |
| BucketSort.PivotsClassify | include/flock-lib/parlay/internal/bucket_sort.h:105-116 | If the first pivot is below the last, elements of lower buckets are below those of higher ones, and no bucket holds all elements. |
| BucketSort.GetBuckets | include/flock-lib/parlay/internal/bucket_sort.h:84-117 | Reports whether the extreme pivots are equivalent, and otherwise gives every element the number of sampled pivots not greater than it. |
| BucketSort.BucketSmaller | include/flock-lib/parlay/internal/bucket_sort.h:153-163 | Every bucket sorted recursively is strictly smaller than the input. |
| BucketSort.OneBucketMore | include/flock-lib/parlay/internal/bucket_sort.h:155-159 | Putting a sorted bucket behind the sorted lower ones gives the sorting of all of them, stable if each part is. |
| BucketSort.SortInto | include/flock-lib/parlay/internal/bucket_sort.h:136-163 | Terminates with a sorted permutation in the buffer that `inplace` chooses, stable if asked. |
| BucketSort.SortInPlace | include/flock-lib/parlay/internal/bucket_sort.h:165-171 | Sorts the array, stably if asked. |
| BinarySearchTree.BinarySearchTree.Insert | htm-mcas/BinarySearchTree.h:32-71 | Adds one occurrence of the value, and keeps left < node <= right and the tree tidy in memory. |
| BinarySearchTree.BinarySearchTree.Remove | htm-mcas/BinarySearchTree.h:73-137 | Removes exactly one occurrence of the value if there is one and changes no contents otherwise, in the leaf, one-child, two-child and root cases, and keeps the order. |
| BinarySearchTree.BinarySearchTree.Advance | htm-mcas/BinarySearchTree.h:92-134 | One round: a node with two children takes the minimum of its right subtree, which is then what is to be removed there; any other node is passed on the right side. |
| BinarySearchTree.BinarySearchTree.Splice | htm-mcas/BinarySearchTree.h:82-122 | Putting the only child, or nothing, in the place of the node found removes exactly what was still to be removed. |
| BinarySearchTree.BinarySearchTree.Min | htm-mcas/BinarySearchTree.h:139-141 | The least value, or the sentinel if there is none. |
| BinarySearchTree.BinarySearchTree.GetMin | htm-mcas/BinarySearchTree.h:143-154 | The least value of a subtree, found along the left links. |
| BlockAllocator.NotHandedOutTwice | include/flock-lib/parlay/internal/block_allocator.h:193-236 | No block is handed out while it is out already, over all runs of all workers, with tasks that change workers inside `alloc`. |
| BlockAllocator.EveryBlockInOnePlace | include/flock-lib/parlay/internal/block_allocator.h:84-118 | Every block obtained from the system is handed out, or in one list, once. |
| BlockAllocator.AllocHandsOutOne | include/flock-lib/parlay/internal/block_allocator.h:208-236 | An `alloc` that finds a block, or that goes on with the list it has fetched, hands out exactly one block, which was not out. |
| BlockAllocator.FreeTakesBack | include/flock-lib/parlay/internal/block_allocator.h:193-206 | `free` takes back the block it is given and no other, below the split size and at it, and the worker's next `alloc` hands out that block again. |
| BlockAllocator.GetListFetches | include/flock-lib/parlay/internal/block_allocator.h:208-220 | With an empty list, `alloc` fetches one list of `list_length` blocks, the top one of the pool or new ones, and hands out nothing by that. |
| BlockAllocator.ListsAreRight | include/flock-lib/parlay/internal/block_allocator.h:193-236 | A worker's `sz` is the length of its list, which its links go through; with lists of two or more blocks it is at most twice `list_length`; every pooled list has exactly `list_length` blocks. |
| BlockAllocator.SplitIsEven | include/flock-lib/parlay/internal/block_allocator.h:195-206 | When a local list is split, `mid` has exactly `list_length` blocks below it, and exactly those go to the pool. |
| BlockAllocator.OneNeverSplits | include/flock-lib/parlay/internal/block_allocator.h:195-201 | With `list_length` one, `free` puts nothing into the pool and the local list grows each time. |
| BlockAllocator.NumUsedIsExact | include/flock-lib/parlay/internal/block_allocator.h:92-98 | Read while nothing moves, the number reported is that of the blocks out plus those of the lists being fetched: exact if and only if no list is being fetched. |
| BlockAllocator.NumUsedOvercounts | include/flock-lib/parlay/internal/block_allocator.h:92-118 | One worker that has fetched a list and not gone on: no block is out, and the number reported is `list_length`. |

## Left out

- Weak memory orders, fences and inline assembly: all steps interleave; `dcas` and `tcas` (include/mcas/mcas-lock.h) are single steps that may fail spuriously, and Intel TSX is not modelled.
- Wrap-around: the tags of tagged words, the version number of a bucket and the tag in `age` do not wrap, so that the announcements and the panic bit in include/flock-lib/flock/tagged.h:68-106 are not part of this model.
- Descriptor recycling and nested locks: descriptors have fresh identities and critical sections take no locks; the code that keeps results of nested sections in the enclosing log is not part of this model. The sorted list and the hash buckets take the lock as plain mutual exclusion.
- FlockProgress.AloneReturns: about thunks that return within a fixed number of operations, whatever they observe.
- ListProgress.FirstAttemptSucceeds: about calls that begin while no lock is held; the sorted list and the bucket take the lock as plain mutual exclusion, so that a stopped holder is waited for.
- `with_lock` and `try_lock_result` do not model the inheritance of the helped thread's epoch and identity, `wait_lock` or `unlock`.
- Epoch: the skip flags with which a retire is undone, the hooks, nested epochs, `clear` and the clock that decides when to try an update, which is a choice of the schedule.
- Value assignment in the Flock hash map (lockfree-flock/HashMap.h:75) and the value that a lookup returns: the bucket is modelled as a key set.
- HashTable.Hashtable.DeleteVal: sequential only, and for tables with an empty cell; the source warns that overfilling can make its loops run forever.
- HashInsert.TableHoldsInserted: the boolean that `insert` returns, which is about the last element the thread has carried, is not modelled.
- WorkStealingDeque.ThiefWaitFree: the flag that `pop_top` returns beside the job, computed from a `bot` that may be out of date, is not modelled.
- Concurrent deletions from the hash table, `update`, `count` and `entries`.
- HazptrSafety: the destructors, and `clear`, which is pops in a loop.
- McasDeque, Queue and SortedList: destruction of the structure and printing; `count` of the sorted list, which walks without a lock and has no single moment to agree with.
- Backoff, futex waiting, thread spawning, clocks, option parsing, plotting and the benchmark driver.
- Quicksort.Sort, Merge.MergeInto, MergeSort.SortInto and BucketSort.SortInto: the parallel calls are made one after the other on their disjoint ranges, and moved-from slots keep their old contents.
- Merge.SeqMerge: input slices are values, so that an input that overlaps the output, which the source does not allow, cannot be expressed.
- The parallel quicksort `p_quicksort_`, which the source calls unused, and `kth_smallest_copy`.
- BinarySearchTree.BinarySearchTree.Insert: one atomic section, where the source uses two transactions.
- BlockAllocator.NumUsedIsExact: a reading that overlaps other operations is not covered; `reserve` and `clear` are not part of this model.
- The lock-based, pure transactional-memory and remaining lock-free containers, and the other Parlay primitives.
