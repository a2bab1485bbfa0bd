# Verification of the hand-written collections

This project models the collections of the library that are written by hand and proves
properties of the models with Dafny 4.11. `dafny verify dfyconfig.toml` checks all of it.

## What is modelled

**Lock-free list** (`lockfreelist.go`). `LockFreeMachine` is a step machine: any number of
threads share a memory of chain nodes, and every atomic Load, Store or CompareAndSwap of the
program is one step of one thread. A thread has a program point with the locals of the loop it
is in. Nodes are grouped in generations: a Clear closes one, which stays a chain of its own, and
opens the next. Bookkeeping that no step reads records, for every generation, the effects on it
in order. The theorems are about every state of every run: shape and reachability
(`LockFreeShape`, `LockFreeReach`), contents and linearization (`LockFreeContents`,
`LockFreeTiming`, `LockFreeAccounts`, `LockFreeLinearization`), values taken once and the ledger
(`LockFreePointers`, `LockFreeLinearization`), traversals (`LockFreeWalk`), what a removing walk
can miss (`LockFreeMisses`), which node an operation hits and what its answer means under
contention (`LockFreeHits`, `LockFreeAnswers`), when it starts over (`LockFreeRestarts`), the
bound on failed CASes (`LockFreeProgress`), that operations finish (`LockFreeFinish`), and what
an operation does that is left alone from its call to its return (`LockFreeAlone`).
`LockFreeSequential` is the same list as a class with node objects, used by one thread: it
refines a sequence with dead nodes in the chain, and no CAS fails.

**Doubly linked list** (`linkedlist.go`). `LinkedLists` is the class with its node objects.
`LinkedListSort` is the in-place merge sort: while it lasts only the forward chain is valid, and
afterwards every link is. `MergeSorting` has the sort as a function, what it promises and
what it costs.

**Priority queue** (`priorityqueue.go`). `PriorityQueues` counts comparator calls in a ghost
field; `HeapCost` has the arithmetic of heap heights and `Ordering` what sorted means.

**Deque and queue** (`arraydeque.go`, `arrayqueue.go`). Classes over arrays, with ghost counters
for pushes, growth copies, dequeues and compaction moves.

**Copy-on-write list** (`cowlist.go`). `CowOperations` says what each mutator means and which
slots its code writes; `CowListMachine` steps any number of threads at the granularity of locks,
loads, stores and single slots; `CowListSafety` has the theorems.

**Concurrent tree set** (`concurrent_treeset.go`). `TreeSetMachine` models RWMutex with writer
preference and every operation as its sections, one mutex each. `TreeSetDeadlock` proves that
threads cannot get stuck, and that nesting the sections could; `TreeSetAnswers` bounds what an
operation can answer while others write.

**Compute layer of the concurrent hash map** (`concurrent_hashmap.go`). `ComputeMaps` writes
every operation as one use of the backing map's primitive; `PlainMaps` is the plain map of
`hashmap.go` with callbacks that may panic, and the law its operations obey. `MixHash` is the bit mixer.

## Assumptions and conventions

- Comparators are total preorders where order is claimed, equalers and predicates are functions.
- Addresses of nodes, boxes and slices are never reused while the machine lasts, as a garbage
  collector guarantees for anything still referenced.
- In the lock-free machine the private construction of a call's nodes is part of the step that
  begins the call, since nobody else can see them. Size, IsEmpty, First, Last, Get and the
  searches are the same read-only walk as ToSlice and are represented by it. InsertAll, Sort
  and refill are several calls of other operations, as in the source.
- An effect is recorded with the position it actually takes in the live sequence. For an index
  operation under interference that need not be the requested index, which the source
  documents as best effort.
- In the copy-on-write machine a mutator reads all slots of its snapshot before it writes the
  slots of its new slice; both are private or frozen. A reader is any function of the slots.
- The backing hash map's Compute looks the key up, runs the callback and settles as one atomic
  operation; deleting an absent key is a no-op. Every operation leaves the bucket unlocked, the
  ones that end in a panic included.
- InsertAll with no elements and a bad index returns true in the lock-free and the
  copy-on-write list and false in the linked list; the contracts say so for each.
- A retry loop that ends after its first round is written with `decreases !done`, and the ghost
  counter of failed CASes must not change.

## Model

| member | source | states |
|---|---|---|
| `LockFreeShape.MoveShape` | lockfreelist.go:123-477 | one atomic Load, Store or CompareAndSwap of any operation, from every program point, keeps the structural invariant |
| `LockFreeShape.BuildLinked` | lockfreelist.go:257-268 | the private chain AddAll builds is linked in order up to the tail sentinel |
| `LockFreeShape.TurnEffect` | lockfreelist.go:274-359 | whenever a step publishes nodes they are the caller's own private batch, linked to the successor the CAS compared, and the predecessor is head or a node of the chain the walk is on; a swap hits a live published node |
| `LockFreeShape.EffectChains` | lockfreelist.go:119-130 | every effect, including Clear cutting the chain off and an append to a detached predecessor, keeps each generation of nodes one duplicate-free chain ending at tail |
| `LockFreeShape.RunShape` | lockfreelist.go:15-52 | the structural invariant of every reachable state: chains, ownership of private nodes, and what every thread's pred, curr, first and next may be |
| `LockFreeReach.ReachesTail` | lockfreelist.go:48-52 | from head or any published node, following next reaches tail, without passing a node twice |
| `LockFreeReach.ReachesIff` | lockfreelist.go:123-130 | between published nodes, reachability is exactly position in a common chain |
| `LockFreeReach.AttachedIff` | lockfreelist.go:119-130 | a node is reachable from head exactly when no Clear has cut its chain off |
| `LockFreeReach.ReachesForever` | lockfreelist.go:270-288 | once one published node reaches another it does so in every later state of the run |
| `LockFreeReach.DetachedForever` | lockfreelist.go:270-288 | a node a Clear has cut off is never reachable from head again, whatever stale first, next or pred inserts in flight hold |
| `LockFreeReach.NeverNil` | lockfreelist.go:95-103 | in every state, the node a thread is on is never nil and its predecessor is a node or the head sentinel, never tail: the nil tests of the loops never decide |
| `LockFreeContents.RunReplays` | lockfreelist.go:119-130 | in every state of every run, each chain's recorded effects, applied in order to the empty sequence, are all legal and yield that chain's live elements |
| `LockFreePointers.CasSame` | lockfreelist.go:184-221 | a state CAS that finds the pointer it expects finds the same box, so it takes the very value it read |
| `LockFreePointers.TakenOnce` | lockfreelist.go:184-221 | no two effects of a run ever take the same boxed value out of a node |
| `LockFreePointers.DeletedForever` | lockfreelist.go:376-477 | a node once marked deleted stays deleted |
| `LockFreeTiming.PointInCall` | lockfreelist.go:119-122 | the linearization point of an effect, the Clear's own step for effects on a detached chain, lies inside the call that has it |
| `LockFreeTiming.RunTimed` | lockfreelist.go:119-122 | in every run the effects of a chain carry non-decreasing points between the Clear before it and the Clear that cut it off |
| `LockFreeAccounts.EntryMatches` | lockfreelist.go:188-477 | every effect is one its operation may have, and a call about to return reports that effect: the element it returns is the element it took; which node that is, is `LockFreeAnswers.IndexHit` and its neighbours |
| `LockFreeAccounts.RunAccounts` | lockfreelist.go:188-477 | in every run a call that returned had exactly as many effects as its result says: one for success, none for a miss, the count for RemoveFunc; Insert at index 0 has succeeded and at a negative index has not |
| `LockFreeLinearization.Linearizable` | lockfreelist.go:119-130 | in every state of every run there is one sequence of all effects that replays from empty to the live nodes attached to head, with points inside their calls in non-decreasing order and results that report the effects |
| `LockFreeLinearization.RealTime` | lockfreelist.go:119-122 | that sequence respects real time: an effect never precedes the effect of a call that had returned before its own call began |
| `LockFreeLinearization.LandsBeforeClear` | lockfreelist.go:119-122 | nodes put on a detached chain are placed just before the Clear that detached it, that Clear is inside the operation's interval, and what is attached to head does not change |
| `LockFreeLinearization.Ledger` | lockfreelist.go:184-221 | over any run, published values plus values written by Set are, as multisets, live values of all chains plus removed values plus values Set replaced |
| `LockFreeWalk.RunSlices` | lockfreelist.go:132-141 | a traversal visits distinct nodes in chain order and reports each at most once |
| `LockFreeWalk.TraversalComplete` | lockfreelist.go:132-141 | a traversal about to return has reported exactly once every node that was attached at its first load and is still live |
| `LockFreeWalk.ReportsCurrent` | lockfreelist.go:132-141 | every reported value was in its node at some step of the traversal |
| `LockFreeMisses.NothingMissed` | lockfreelist.go:407-477 | a removing walk that comes to its end accounts for every node attached when it began: in some state of the walk the node was dead or its element was not wanted, or, for RemoveFunc only, it was written during the walk |
| `LockFreeHits.RunCounted` | lockfreelist.go:188-404 | in every state of every run, a loop that counts has counted nodes it found live since head.next was last loaded, all before the place it is at, and every other node attached then and before that place was dead in some state since |
| `LockFreeAnswers.IndexHit` | lockfreelist.go:194-221 | Set and RemoveAt hit a live node before which exactly `index` nodes were found live since their last load of head.next, whatever they lost before; any other node attached then and before it was dead in some state since |
| `LockFreeAnswers.InsertHit` | lockfreelist.go:315-345 | Insert above index 0 puts its node right behind the last of exactly `index` nodes found live since its last load of head.next, any other node attached then and before it having been dead in some state since |
| `LockFreeAnswers.FirstHit` | lockfreelist.go:407-439 | RemoveFirst and Remove take a live node that will do, every node attached before it having been dead or unmatched in some state of the walk |
| `LockFreeAnswers.LastHit` | lockfreelist.go:442-464 | RemoveLast takes a live node, every node attached behind it having been dead in some state of the walk |
| `LockFreeAnswers.InsertAtEnds` | lockfreelist.go:304-310 | Insert at index 0 always answers true, however often it loses its race, and at a negative index false |
| `LockFreeAnswers.FromTheEnd` | lockfreelist.go:188-477 | "none" and "false" of an index operation, RemoveFirst, RemoveLast and Remove, the count of RemoveFunc and the slice of ToSlice are answered only by a walk of that call that stood at the tail sentinel |
| `LockFreeAnswers.Recorded` | lockfreelist.go:188-477 | a call that returned is on record with the answer its thread had settled on |
| `LockFreeAnswers.RefusedMeansShort` | lockfreelist.go:304-404 | Insert, Set and RemoveAt refuse an index only if fewer nodes than it needs, of those attached at their last load of head.next, were live in every state of that walk |
| `LockFreeAnswers.MissingMeansDead` | lockfreelist.go:424-464 | RemoveFirst and RemoveLast answer "none" only if every node attached at their last load of head.next was dead when they came to the end |
| `LockFreeAnswers.NotFoundMeansUnmatched` | lockfreelist.go:407-421 | Remove answers false only if each such node was, in some state of the walk, dead or held an element that does not match; one that matched at the end had been written meanwhile |
| `LockFreeAnswers.LeftMeansRejected` | lockfreelist.go:467-477 | when RemoveFunc answers, each such node was at the end of its walk dead, or failed the predicate, or had been written during the walk |
| `LockFreeAnswers.SliceMeansComplete` | lockfreelist.go:132-141 | ToSlice answers values it saw in distinct nodes in chain order, among them every node attached at its load of head.next and live at its end |
| `LockFreeRestarts.FreshWalk` | lockfreelist.go:276-404 | Add, AddAll, Insert, Clear, RemoveAt and RemoveLast resolve their place anew from head after a failed CAS: none has failed since head.next was last loaded |
| `LockFreeRestarts.SingleWalk` | lockfreelist.go:407-477 | RemoveFirst, Remove, RemoveFunc and ToSlice load head.next once in a call |
| `LockFreeRestarts.SetStartsOver` | lockfreelist.go:206-217 | Set loads head.next again only after it has found the node at its index dead |
| `LockFreeRestarts.OneLook` | lockfreelist.go:194-477 | within a walk Set, RemoveAt, RemoveLast, RemoveFunc and ToSlice look at no node twice and never go back, so RemoveFunc tries its CAS on a node at most once |
| `LockFreeProgress.CasOutcome` | lockfreelist.go:274-288 | a CAS fails exactly when the field no longer holds what the thread loaded |
| `LockFreeProgress.FailuresBounded` | lockfreelist.go:18-22 | over any run of T threads failed CASes are at most (T - 1) times successful ones |
| `LockFreeProgress.FailureHasCulprit` | lockfreelist.go:206-216 | a CAS fails only if another thread's successful CAS changed that field between this thread's load of it and the CAS |
| `LockFreeFinish.OwnRank` | lockfreelist.go:18-22 | every step of a thread that is not the last of its call, failed CASes and the successful ones of RemoveFunc included, lowers a bound on the steps it has left |
| `LockFreeFinish.SomeCallFinishes` | lockfreelist.go:18-22 | in any stretch of any run in which no CAS succeeds and the threads take more than 6n + 11 steps each on average, n bounding the chains, some call comes to its return, whichever threads are delayed |
| `LockFreeFinish.AloneFinishes` | lockfreelist.go:18-22 | whatever the others were doing when they stopped, a thread left alone takes at most 6n + 11 steps without returning |
| `LockFreeAlone.AloneSequential` | lockfreelist.go:188-477 | an operation left alone from its call to its return does to the live elements attached to head, and returns, what it does on a sequence, indexes counting live elements only, and none of its CASes fails |
| `LockFreeAlone.TurnGoesOn` | lockfreelist.go:194-220 | each step of such an operation keeps its counters equal to the live elements it has passed, and its CAS finds what it expects |
| `LockFreeAlone.SwapKnows` | lockfreelist.go:382-404 | the state CAS of a walk takes or replaces exactly the element the operation names |
| `LockFreeSequential.ValuesUpdate` | lockfreelist.go:184-221 | writing the state of a live node changes the element whose index is the number of live nodes before it |
| `LockFreeSequential.InsertedAt` | lockfreelist.go:303-346 | a new node after k others puts its element after the live ones among them |
| `LockFreeSequential.LockFreeList.Size` | lockfreelist.go:93-103 | the number of live elements, however many dead nodes are in the chain |
| `LockFreeSequential.LockFreeList.ToSlice` | lockfreelist.go:132-141 | the live elements in order |
| `LockFreeSequential.LockFreeList.Get` | lockfreelist.go:163-182 | the index-th live element, or none outside 0..Size-1 |
| `LockFreeSequential.LockFreeList.Add` | lockfreelist.go:251-255 | appends to the sequence; no CAS fails |
| `LockFreeSequential.LockFreeList.AppendChain` | lockfreelist.go:274-288 | a private chain of any length goes in behind every live element in one CAS, and the retry loop ends after its first round |
| `LockFreeSequential.LockFreeList.AddAll` | lockfreelist.go:290-296 | appends the whole batch; no CAS fails |
| `LockFreeSequential.LockFreeList.InsertAtHead` | lockfreelist.go:348-359 | prepends; the retry loop ends after its first round |
| `LockFreeSequential.LockFreeList.Insert` | lockfreelist.go:303-346 | succeeds exactly for indexes 0 to Size and inserts before the index-th live element; otherwise nothing changes; no CAS fails |
| `LockFreeSequential.LockFreeList.InsertAll` | lockfreelist.go:361-373 | reverse insertion gives the elements in order at index, or is rejected with nothing changed; an empty batch succeeds at any index |
| `LockFreeSequential.LockFreeList.Set` | lockfreelist.go:184-221 | replaces the index-th live element and returns the old one; no CAS fails |
| `LockFreeSequential.LockFreeList.RemoveAt` | lockfreelist.go:375-404 | removes and returns the index-th live element; no CAS fails |
| `LockFreeSequential.LockFreeList.Remove` | lockfreelist.go:406-421 | removes the first equal live element, or leaves the sequence alone if there is none |
| `LockFreeSequential.LockFreeList.RemoveFirst` | lockfreelist.go:423-439 | removes and returns the first live element |
| `LockFreeSequential.LockFreeList.RemoveLast` | lockfreelist.go:441-464 | removes and returns the last live element; the retry loop ends after its first round |
| `LockFreeSequential.LockFreeList.RemoveFunc` | lockfreelist.go:466-477 | keeps exactly the elements not satisfying the predicate, in order, and returns how many went |
| `LockFreeSequential.LockFreeList.Clear` | lockfreelist.go:119-130 | the list becomes empty with one successful CAS |
| `LockFreeSequential.Refill` | lockfreelist.go:616-627 | the contents become the given elements; a receiver without sentinels is rejected |
| `LinkedLists.LinkedList.Clear` | linkedlist.go:52-56 | the empty list, with no node left to touch, ready for any further operation |
| `LinkedLists.LinkedList.Add` | linkedlist.go:152-162 | appends one new node; every other node stays in place and the list fully linked |
| `LinkedLists.LinkedList.AddFirst` | linkedlist.go:178-189 | prepends one new node; every other node stays in place |
| `LinkedLists.LinkedList.NodeAt` | linkedlist.go:92-110 | the i-th node, walked to from the nearer end in at most half as many steps as there are nodes, and nil outside the range |
| `LinkedLists.LinkedList.Set` | linkedlist.go:122-132 | replaces the element in its node and returns the old one |
| `LinkedLists.LinkedList.Insert` | linkedlist.go:191-213 | succeeds exactly for 0 to size and inserts before the index-th element |
| `LinkedLists.LinkedList.InsertAll` | linkedlist.go:215-245 | splices the batch in at index, resolved once; rejects a bad index even for an empty batch |
| `LinkedLists.LinkedList.RemoveNode` | linkedlist.go:247-261 | takes exactly that node out of the chain and keeps head, tail, prev, next and size consistent |
| `LinkedLists.LinkedList.RemoveAt` | linkedlist.go:263-271 | removes and returns the index-th element, or none |
| `LinkedLists.LinkedList.RemoveFirst` | linkedlist.go:284-291 | removes and returns the first element |
| `LinkedLists.LinkedList.RemoveLast` | linkedlist.go:293-300 | removes and returns the last element |
| `LinkedLists.LinkedList.Remove` | linkedlist.go:273-282 | removes the first equal element, or changes nothing if there is none |
| `LinkedLists.LinkedList.RemoveFunc` | linkedlist.go:302-315 | keeps exactly the elements not satisfying the predicate, in order, and counts the others |
| `LinkedLists.LinkedList.Reversed` | linkedlist.go:388-397 | the backward walk over prev is the exact reverse of the forward sequence |
| `LinkedLists.LinkedList.ToSlice` | linkedlist.go:58-65 | the forward walk over next gives the sequence |
| `LinkedLists.LinkedList.IndexOf` | linkedlist.go:322-332 | the first equal index, or -1 if there is none |
| `LinkedLists.LinkedList.LastIndexOf` | linkedlist.go:334-344 | the last equal index, or -1 if there is none |
| `MergeSorting.Middle` | linkedlist.go:442-448 | both halves of a split are non-empty and strictly shorter |
| `MergeSorting.LevelsBound` | linkedlist.go:442-448 | the number of halvings is the logarithm to base 2, rounded up |
| `MergeSorting.SortCallsBound` | linkedlist.go:417-418 | the calls of the halves and of the merges on every level add up to at most n times that number |
| `MergeSorting.SortSorted` | linkedlist.go:437-455 | the merge sort's result is in comparator order |
| `MergeSorting.SortMultiset` | linkedlist.go:437-455 | the result holds the same (node, element) pairs |
| `MergeSorting.SortStable` | linkedlist.go:437-477 | elements that compare equal keep their order |
| `MergeSorting.MergeStable` | linkedlist.go:457-477 | merging keeps the left input's equal elements before the right one's |
| `LinkedListSort.MergeChains` | linkedlist.go:457-477 | relinking through next alone turns two forward chains into the merged one |
| `LinkedListSort.FindMiddle` | linkedlist.go:442-446 | the slow pointer stops at the last node of the first half |
| `LinkedListSort.MergeSortChain` | linkedlist.go:437-455 | relinks a forward chain into its merge sort; it ends, although prev links are meaningless meanwhile |
| `LinkedListSort.Rebuild` | linkedlist.go:425-434 | from a forward chain the loop restores prev, tail and the full doubly linked validity |
| `LinkedListSort.Sort` | linkedlist.go:419-435 | the same node objects, each with its element, in comparator order, equal elements in the order they had, size unchanged, every link restored, and at most n times the rounded-up logarithm of n comparator calls |
| `PriorityQueues.PriorityQueue.SiftUp` | priorityqueue.go:24-35 | restores the heap order after a change at one place, keeps the multiset, and makes at most floor(log2(i + 1)) comparator calls |
| `PriorityQueues.PriorityQueue.SiftDown` | priorityqueue.go:37-56 | restores the heap order below one place, keeps the multiset, and makes at most two comparator calls per level |
| `PriorityQueues.PriorityQueue.Heapify` | priorityqueue.go:58-63 | establishes the heap order over all elements with fewer than 2n comparator calls |
| `PriorityQueues.PriorityQueue.From` | priorityqueue.go:103-115 | a heap of exactly the given elements, in fewer than 2n comparator calls |
| `PriorityQueues.PriorityQueue.Push` | priorityqueue.go:144-148 | adds one element to the heap with at most floor(log2 n) comparator calls for the new size n |
| `PriorityQueues.PriorityQueue.PushAll` | priorityqueue.go:150-165 | adds the batch to the heap whichever strategy is taken; a heapified batch costs fewer than 2n calls, a small one at most floor(log2 n) for each element, n being the new size |
| `PriorityQueues.PriorityQueue.Pop` | priorityqueue.go:167-182 | takes out an element no other precedes, or none when empty, and keeps the heap order |
| `PriorityQueues.PriorityQueue.Peek` | priorityqueue.go:184-191 | an element no other precedes, or none when empty |
| `PriorityQueues.PriorityQueue.Drain` | priorityqueue.go:167-203 | popping until empty gives a sorted permutation, pointwise comparator-equal to every sorted arrangement of the elements, such as ToSortedSlice's |
| `PriorityQueues.RootFirst` | priorityqueue.go:11-15 | in a heap the root precedes every element |
| `PriorityQueues.DownSwap` | priorityqueue.go:37-56 | a round of siftDown moves the one possible violation to the smaller child |
| `PriorityQueues.UpSwap` | priorityqueue.go:24-35 | a round of siftUp moves the one possible violation to the parent |
| `HeapCost.HeightsBound` | priorityqueue.go:58-63 | the heights of all nodes of a heap of n together are at most n - 1 |
| `HeapCost.Log2Bound` | priorityqueue.go:144-148 | the level count used in the bounds is floor(log2 n) |
| `Ordering.SortedAgree` | priorityqueue.go:198-203 | two sorted arrangements of one multiset are comparator-equal position by position |
| `ArrayDeques.Mod` | arraydeque.go:189-197 | mod brings any index into 0..m although % truncates toward zero; one step either side wraps |
| `ArrayDeques.RingAt` | arraydeque.go:184-187 | at(i) is the i-th element, and the slot before tail is the last one |
| `ArrayDeques.RingPushFront` | arraydeque.go:61-69 | writing one slot before head prepends: tail stays (head + size) mod cap and every other slot outside the window zero |
| `ArrayDeques.RingPopBack` | arraydeque.go:103-116 | zeroing the slot before tail drops the last element and nothing else |
| `ArrayDeques.RingSegments` | arraydeque.go:135-144 | the two contiguous segments, one after the other, are the elements |
| `ArrayDeques.ArrayDeque.CopyTo` | arraydeque.go:135-144 | copies the elements front to back and leaves the rest of the destination alone |
| `ArrayDeques.ArrayDeque.Seq` | arraydeque.go:146-155 | element by element through at, the same sequence copyTo gives |
| `ArrayDeques.ArrayDeque.Reversed` | arraydeque.go:157-166 | the elements back to front |
| `ArrayDeques.ArrayDeque.EnsureCapacityForOne` | arraydeque.go:168-182 | leaves room for one more: unchanged if there is room, otherwise capacity 1 or double, same elements from slot 0, each copied once, growth copies paid for by earlier pushes |
| `ArrayDeques.ArrayDeque.PushFront` | arraydeque.go:61-69 | prepends through any wrap or growth; growth copies stay within twice the pushes plus the elements supplied as whole buffers |
| `ArrayDeques.ArrayDeque.PushBack` | arraydeque.go:95-101 | appends through any wrap or growth, with the same bound on copies |
| `ArrayDeques.ArrayDeque.PopFront` | arraydeque.go:71-84 | removes and returns the first element and zeroes its slot |
| `ArrayDeques.ArrayDeque.PopBack` | arraydeque.go:103-116 | removes and returns the last element and zeroes its slot |
| `ArrayDeques.ArrayDeque.PeekBack` | arraydeque.go:118-126 | the last element, or none when empty |
| `ArrayDeques.ArrayDeque.Clear` | arraydeque.go:50-54 | empty, every slot zero, capacity kept |
| `ArrayDeques.ArrayDeque.WithCapacity` | arraydeque.go:26-33 | an empty deque of the given capacity, 0 for a negative one |
| `ArrayDeques.ArrayDeque.From` | arraydeque.go:35-41 | exactly the elements in a full buffer, tail wrapped to 0 |
| `ArrayDeques.ArrayDeque.ReplaceFromSlice` | arraydeque.go:225-233 | exactly the slice's elements in a full buffer |
| `ArrayQueues.ArrayQueue.Bounds` | arrayqueue.go:70-87 | the slice is at most twice the live elements, and compaction has moved at most as many elements as were dequeued |
| `ArrayQueues.ArrayQueue.EnqueueAll` | arrayqueue.go:64-67 | appends the batch, in place or in a larger array, consumed slots still zero |
| `ArrayQueues.ArrayQueue.Enqueue` | arrayqueue.go:59-62 | appends one element |
| `ArrayQueues.ArrayQueue.Dequeue` | arrayqueue.go:69-87 | removes and returns the first element in order of arrival, through both compaction branches, keeping 2*head <= len(data) and the accounts |
| `ArrayQueues.ArrayQueue.Compact` | arrayqueue.go:108-136 | drops the consumed prefix: a smaller array exactly when live < cap/4 and cap > 64, else in place with the vacated tail zeroed; moves exactly the live elements |
| `ArrayQueues.ArrayQueue.Clear` | arrayqueue.go:47-52 | empty, every slot of the backing array zero |
| `ArrayQueues.ArrayQueue.Peek` | arrayqueue.go:89-96 | the first element, or none when empty |
| `CowOperations.MeansExact` | cowlist.go:102-294 | the function and an independent relation say the same of every mutator: the old element is answered, putting it back or taking the new ones out gives the old list, and a flag is true exactly when there is something to do or the index is good |
| `CowOperations.SlotsMean` | cowlist.go:102-294 | the slots each mutator copies and writes into its new slice, and its answer, are in that relation to the slice it read |
| `CowOperations.SkipMeans` | cowlist.go:196-198 | an empty AddAll or InsertAll that returns without the lock answers what the operation means, true for InsertAll |
| `CowOperations.RefusalMeans` | cowlist.go:107-111 | an operation that returns without storing means no change and that answer |
| `CowListSafety.MoveInv` | cowlist.go:47-294 | one lock, load, slot read, slot write, store or unlock of any call, from every program point, keeps the invariant and only extends the history |
| `CowListSafety.RunInv` | cowlist.go:15-28 | the invariant of every reachable state: published slices frozen, the log composed in lock order, and what each thread has read and written so far |
| `CowListSafety.PublishedForever` | cowlist.go:47-50 | a slice once published is never written again in the run |
| `CowListSafety.NoLostUpdate` | cowlist.go:419-426 | every step that changes the pointer replaces the slice it finds by what one operation makes of that very slice |
| `CowListSafety.Sequential` | cowlist.go:60-65 | at every point the contents are the mutators applied one after the other in the order they took the lock, each with the answer its meaning gives on the list before and after it |
| `CowListSafety.MutualExclusion` | cowlist.go:25-28 | at most one thread is between Lock and Unlock |
| `CowListSafety.NeverStuck` | cowlist.go:103-106 | whenever a call is unfinished some thread can take a step |
| `CowListSafety.CallInterval` | cowlist.go:47-53 | every returned call, skipped ones included, is about one state of the list, reached between the step that began it and the step that ended it, and its answer is what the operation means on that state and the one after it |
| `CowListSafety.RealTime` | cowlist.go:21-24 | a call that began after another returned is about a state with that call's effect in it |
| `TreeSetAnswers.WorkOk` | treeset.go:213-341 | the work of any section, on whatever its set holds at that instant, leaves a partial result or an answer within the bounds |
| `TreeSetDeadlock.RunInv` | concurrent_treeset.go:205-216 | in every reachable state each mutex lists exactly the threads that read it and the writer announced or in it |
| `TreeSetDeadlock.NoHoldAndWait` | concurrent_treeset.go:205-216 | no thread ever waits for a set's mutex while holding one, its own or another's |
| `TreeSetDeadlock.NeverDeadlocked` | concurrent_treeset.go:205-264 | in every run of any threads over any sets, whenever a call is unfinished some thread can take a step, a set combined with itself while writers queue included |
| `TreeSetDeadlock.WriterAlone` | concurrent_treeset.go:102-131 | a writer inside a set excludes every other thread |
| `TreeSetDeadlock.WorksInside` | concurrent_treeset.go:102-174 | a thread about to work on a set holds that set's mutex |
| `TreeSetDeadlock.ChangesGuarded` | concurrent_treeset.go:102-174 | a set changes only by a step of the writer that has entered its mutex, with no reader in |
| `TreeSetDeadlock.NestingDeadlocks` | concurrent_treeset.go:207-211 | if an operation kept the mutex of one section into the next, six steps of a subset test of a set with itself and an Add would reach a state in which both calls are unfinished and no step is possible |
| `TreeSetAnswers.RunInv` | concurrent_treeset.go:218-264 | partial results of every walk stay between what its sets never lost and what they ever held during the call |
| `TreeSetAnswers.Answered` | concurrent_treeset.go:218-274 | every answer under concurrent writers is right for bounds taken over the call: elements the sets held throughout, and elements they ever held |
| `TreeSetAnswers.QuietAnswer` | treeset.go:213-341 | if the sets involved did not change during the call, the answer is exactly the set-theoretic one |
| `TreeSetAnswers.Atomic` | concurrent_treeset.go:15-21 | Add, Remove, Contains and Size each happen at one step of their own between their beginning and their end, with the effect and the answer the set at that step gives |
| `TreeSetAnswers.RemovesOnce` | concurrent_treeset.go:149-174 | RemoveFunc takes out, in one step, only elements satisfying the predicate, among them every one that was in the set all the time, and returns how many it found there |
| `TreeSetAnswers.Exact` | treeset.go:267-324 | for unchanging sets the bounds pin the answer, sizes compared first or not, down to subset, superset, proper and equality |
| `PlainMaps.AbsentUntouched` | hashmap.go:115-123 | operations on a present key leave a map without the key as it is |
| `PlainMaps.OneKey` | hashmap.go:57-252 | an operation on one key leaves every other entry alone, and one whose callback panics leaves them all |
| `PlainMaps.LawExact` | hashmap.go:57-252 | the operations satisfy, and are determined by, a law about the entry before, the entry after and the answer: Put answers what Get gives before and Get gives the new value after, RemoveIf and ReplaceIf act exactly when eq(old, x) is true, remapping callbacks get (key, old, true) or (key, zero, false) and what they give is both entry and answer |
| `PlainMaps.ReplaceEachMeans` | concurrent_hashmap.go:451-481 | ReplaceAll replaces every visited entry, or exactly those visited before the first callback that panics |
| `ComputeMaps.ConcurrentHashMap.Put` | concurrent_hashmap.go:98-112 | sets the value and answers the entry there was, by the law and as the plain map does |
| `ComputeMaps.ConcurrentHashMap.PutIfAbsent` | concurrent_hashmap.go:114-119 | stores only if absent, by the law and as the plain map does |
| `ComputeMaps.ConcurrentHashMap.RemoveIf` | concurrent_hashmap.go:161-193 | removes exactly when eq of the old value and the given one is true, by the law; absent keys are not inserted and a panic changes nothing |
| `ComputeMaps.ConcurrentHashMap.Compute` | concurrent_hashmap.go:254-286 | calls back with the old value and true or with zero and false, and keeps, replaces or removes, by the law; a panic leaves an existing value and inserts nothing |
| `ComputeMaps.ConcurrentHashMap.LoadOrTryCompute` | concurrent_hashmap.go:297-318 | computes and stores for an absent key only; a panic stores nothing |
| `ComputeMaps.ConcurrentHashMap.ComputeIfAbsent` | concurrent_hashmap.go:288-295 | by the law and as the plain map; a panic stores nothing |
| `ComputeMaps.ConcurrentHashMap.ComputeIfPresent` | concurrent_hashmap.go:320-358 | by the law and as the plain map; an absent key is not inserted and a panic changes nothing |
| `ComputeMaps.ConcurrentHashMap.Merge` | concurrent_hashmap.go:360-397 | calls back with the old value and the given one, stores and answers what that gives, by the law; a panic changes nothing |
| `ComputeMaps.ConcurrentHashMap.Replace` | concurrent_hashmap.go:399-416 | by the law and as the plain map; an absent key is not inserted |
| `ComputeMaps.ConcurrentHashMap.ReplaceIf` | concurrent_hashmap.go:418-449 | replaces exactly when eq of the current value and the expected one is true, by the law; an absent key is not inserted and a panic changes nothing |
| `ComputeMaps.ConcurrentHashMap.ReplaceAll` | concurrent_hashmap.go:451-481 | entry by entry up to the first panic; a key gone by its turn is passed over, not inserted |
| `ComputeMaps.ConcurrentHashMap.PerformAll` | concurrent_hashmap.go:98-481 | any series of operations gives the answers and the contents the plain map gives |
| `MixHash.XorBits` | concurrent_hashmap.go:55-62 | the xor of the model works bit by bit |
| `MixHash.ShiftDivides` | concurrent_hashmap.go:55-62 | the shift of the model divides by the power of two |
| `MixHash.XorShiftTwice` | concurrent_hashmap.go:56-60 | h ^ h>>33 is its own inverse on 64-bit values |
| `MixHash.TimesInverse` | concurrent_hashmap.go:57-59 | multiplying by an odd constant modulo 2^64 is undone by its inverse |
| `MixHash.UnmixMix` | concurrent_hashmap.go:53-62 | the explicit inverse undoes mixHash |
| `MixHash.MixUnmix` | concurrent_hashmap.go:53-62 | mixHash undoes the explicit inverse, so every value is taken |
| `MixHash.SeededDistinct` | concurrent_hashmap.go:48-50 | under one table seed two hashes mix to the same value exactly when they are equal |
| `MixHash.SeededOnto` | concurrent_hashmap.go:48-50 | under one table seed every 64-bit value is the image of some hash |

## Left out

- Linearizability of index-based and emptiness-reporting lock-free operations with respect to the requested index: the source documents them as best effort.
- JSON and gob encoding, `String`, iterator plumbing and early-exit callbacks: external formats and forwarding.
- The internals of btree, xsync, skipmap and skipset, and with them the tree and skip-list maps and sets: the code is not in this repository; in the tree-set machine a tree is a set value and the comparator's equivalence is equality.
- `arraylist.go`, `arraystack.go`, `hashset.go` and `synclist.go`: thin layers over slices, maps or one mutex that would add only easy members.
- slices.SortFunc is any function that returns a sorted permutation: ToSortedSlice is represented by every sorted arrangement in the contract of Drain, and cowList's Sort by an arbitrary arrangement function.
- The growth policy of append: the new backing array has any sufficient capacity.
- ToSortedSlice, ToSlice and Clear of the priority queue, and the zeroing of its vacated slot: the heap is a sequence, whose slots beyond the length do not exist.
- First, Last, SubList, Clone, Filter, Find and similar queries of the lists: walks like those modelled.
- Clear, AddAll, RemoveAll, range and rank operations of the tree set: one section each, like Add, Remove and Contains.
- Fairness: that some thread can always step does not say that a given thread eventually does.
- The panic value and panic(nil): an operation that panics is reported as such, after its bucket has been unlocked.
- maphash, the choice of hasher and the seed: a hash and a seed are arbitrary 64-bit values.
- Concurrent interleavings of the hash map's ReplaceAll: a key that vanished between the visit and its Compute is an absent key in the visiting order.
