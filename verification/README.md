# RCSW in Dafny

A model of the reusable C software library RCSW, and proofs about the parts of it that are hardest
to get right:

1. **Search trees** (`src/ds/`). A mutable red-black tree with parent pointers, a sentinel above the
   real root and one shared, mutable `nil`; the interval tree and the order statistics tree built on
   it. `KeyOrder.dfy`, `TreeShape.dfy`, `RbShape.dfy`, `Bstree.dfy`, `BstreeRuns.dfy`, `Inttree.dfy`, `Ostree.dfy`,
   `Height.dfy`.
2. **Concurrency** (`src/multithread/`, `src/swbus/`). A fair reader-writer lock, a producer-consumer
   queue, a reference-counted memory pool, and the publish-subscribe bus made of all three, for any
   number of threads in any interleaving. `Threads.dfy`, `Rdwrlock*.dfy`, `Rbuffer.dfy`,
   `Pcqueue*.dfy`, `Mpool*.dfy`, `Swbus*.dfy`.
3. **Sorting** (`src/algorithm/sort.c`, `src/multithread/omp_radix_sort.c`). Two mergesorts that relink
   lists in place, two quicksorts, one with an explicit stack, and a parallel radix sort.
   `Stable.dfy`, `Mergesort.dfy`, `MergesortIter.dfy`, `Quicksort.dfy`, `Radix*.dfy`.
4. **Matrix chains, permutations, checksums** (`src/algorithm/mcm_opt.c`, `src/utils/`). `McmOpt.dfy`,
   `Permute.dfy`, `Crc.dfy`.

`dafny verify dfyconfig.toml` checks everything.

## How the model is built

*Trees.* Nodes are heap objects with the fields of the C structures, and the methods write those
fields as the C functions do. A ghost map says what each node holds; `Holds` says that these nodes form
exactly a given tree, seen with attention on one subtree `t` in its context `c`. What a method does to
the heap is stated about `c` and `t`, and what that means for colours, order and augmented fields is
proved about these values. `BTree.Valid` is the structure: parents and children agree, colour rules, equal black
heights, black root and `nil`, size, and right counts or maxima as long as `sound` holds, which a removal
ends. `BTree.Ordered` is the key order. Keys are compared by the callback the tree was made with, which is
any function; where a result needs it to order the keys, `OrderOn` says so. Keys that it finds
equal are one key here.

*Threads.* Each semaphore or mutex operation, and each access to shared data under a mutex, is one
step of a transition system; a thread is a control point, and the predicate `Step` of each module follows the
C functions line by line. Invariants are sums over the control points of
all threads. The bus is a system whose steps are steps of its lock, pools and queues, so their
proved invariants are used as they are.
What the callers get is stated apart from the steps: the modules ending in `Calls` give each of the four as an
object whose operations happen at single moments and prove that every run is a run of that object. That calls on the
lock, the queue and the pool get through when nobody is in the way is proved beside it, and for the bus, when a
thread can take a step.

*Parallel loops.* A parallel loop of the radix sorter is a loop that lets any unfinished thread take its next
step; the result is proved for every choice.

*Machine integers.* Unbounded except where the width matters: the key comparison of interval trees,
costs in matrix chains (64 bits, with an initial value of INT_MAX), checksums (bit vectors), the
place value of the radix sorter and the length cast in the bit-by-bit checksum.

## Where the code differs from its documentation

- `include/rcsw/multithread/rdwrlock.h:25` promises fairness to everyone. A timed writer ignores the
  result of its wait for a place in line (`src/multithread/rdwrlock.c:47`). After a timeout it can overtake the
  thread that has the place, and it gives back a place it never had (`src/multithread/rdwrlock.c:55`), so that
  from then on two threads can have the one place and any thread can overtake. `Rdwrlock.OvertakesExactlyWhen` says
  when a thread can, `Rdwrlock.OvertakenAfterTimeout` is a run with both, and `Rdwrlock.NoOvertaking` covers all
  runs without such a timeout.
- `include/rcsw/utils/checksum.h:184` says that the table must be built by a call first;
  `crc32_ethl` builds it itself (`src/utils/checksum.c:205-207`), and `Crc.Table.Ethl` shows that this suffices.
- `crc32_eth` compares a signed counter with the length cast to an `int`; `Crc.AgreeExactlyWhen`
  gives the lengths for which it agrees with the table.
- `inttree_cmp_key` promises an order of 32-bit keys and subtracts. `KeyOrder.CmpKeyOrders` gives the pairs for
  which the difference is right, and `Inttree.InsertAllThenSearch` and `Inttree.SearchMisses` the low ends for which the
  overlap search is.

## Model

| member | source | states |
|---|---|---|
| TreeShape.PlugHolds | src/ds/bstree_node.c:255-330 | Looking at a tree through any of its subtrees is the same as looking at the whole: the heap holds subtree and context exactly when it holds the plugged tree below the sentinel. This is what lets each local rewrite of links be read as a statement about the whole tree. |
| TreeShape.RotatedHolds | src/ds/bstree_node.c:255-275 | The link writes of a rotation, read at the level of the whole heap, turn the represented tree into the rotated tree: parents and children agree again everywhere, no node is lost or shared, and the context around the pair is untouched. |
| RbShape.RotatedInorder | src/ds/bstree_node.c:255-330 | A rotation to either side keeps the in-order sequence of nodes. |
| RbShape.RotationSteps | src/ds/bstree_node.c:284-290 | A whole rotation (links, then the lowered node's field, then the raised node's) keeps the representation and leaves every augmented field right if it was right before. |
| Bstree.BTree.Rotate | src/ds/bstree_node.c:255-330 | Either rotation takes a heap holding tree t to one holding the rotated tree, with colours and the augmented fields kept right; called on `nil` it changes nothing but `nil`'s own parent link. |
| Bstree.BTree.constructor | src/ds/bstree.c:87-101 | A new tree satisfies the full invariant and stores nothing; an interval tree has its own comparison of keys, any other the one it is given. |
| Bstree.BTree.Descend | src/ds/bstree.c:120-133 | The search loop ends at a node the comparison finds equal, or at the one hole every comparison on the way leads to. |
| Bstree.BTree.Query | src/ds/bstree.c:220-232 | The node found compares equal and is in the tree; if the comparison orders the keys, none is found exactly when no node has the key. |
| Bstree.BTree.LinkLeaf | src/ds/bstree.c:138-144 | The new leaf is hung into the hole; the heap then holds the old tree with a leaf plugged in, and no augmented field of an old node changes. |
| Bstree.BTree.HighFixup | src/ds/inttree.c:70-79 | After the climb of an insertion every node but the real root has as `max_high` the greatest high end of its subtree, though the loop never refreshes the root. After a removal the climb may start at `nil`; it ends and keeps the tree. |
| Bstree.BTree.CountFixup | src/ds/ostree_node.c:29-44 | After the climb of an insertion every node's count is the size of its subtree, up to and including the real root. The climb of a removal, which may begin at the sentinel, ends and keeps the tree. |
| RbShape.UncleStep | src/ds/rbtree.c:24-84 | Red parent, red uncle: recolouring keeps order, black heights and all augmented fields, moves the one possible violation two levels up, and comes closer to the root. |
| RbShape.OuterStep | src/ds/rbtree.c:24-84 | Red parent, black uncle, outer child: recolouring and turning the grandparent removes the violation and keeps order, black heights and augmented fields. |
| Bstree.BTree.InsertFixup | src/ds/rbtree.c:24-84 | The loop terminates with no red node below a red parent, the same in-order sequence, the same nodes, a black `nil`, and augmented fields still right. |
| Bstree.BTree.Insert | src/ds/bstree.c:114-182 | With any comparison, the tree stays red-black, with agreeing links, a black root and a black `nil`; counts or maxima stay right if they were; a failure changes nothing and a success adds exactly the new pair. If the comparison orders the keys, the tree stays a search tree and the insertion fails exactly when the key is already there. The runtime checks at the end never fire. |
| Bstree.BTree.InsertPlace | src/ds/bstree.c:114-182 | The same, and where the node goes: between the nodes before and after the hole the comparison leads to; below a black parent no other node is moved or recoloured but the root. |
| Bstree.BTree.NodeBlackHeight | src/ds/rbtree.c:143-156 | The recursion, which recognises `nil` by its links to itself, counts the black nodes of the leftmost path. |
| Bstree.BTree.CheckRules | src/ds/bstree.c:326-333 | The three runtime checks succeed exactly when `nil` is black and both subtrees of the real root have the same black height; so they never fire on a proper tree. |
| RbShape.PlugRedBlack | src/ds/rbtree.c:24-141 | A red-black subtree of the right black height in a red-black context makes a red-black tree. |
| RbShape.UnplugRedBlack | src/ds/rbtree.c:24-141 | The converse: every subtree of a red-black tree is one, and the context around it takes its black height. |
| Bstree.BTree.RedSibling | src/ds/rbtree.c:86-141 | A red sibling is recoloured and turned so that the short subtree gets a black sibling, with order kept. Past the real root the same lines paint `nil` and turn it about itself, changing no node. |
| Bstree.BTree.Climb | src/ds/rbtree.c:86-141 | A black sibling with black children turns red and the shortage moves up; at the real root this paints `nil` red and makes the sentinel the current node. |
| Bstree.BTree.FarNephew | src/ds/rbtree.c:86-141 | A black sibling with a red far child ends the repair: the whole tree is red-black again, with the same order. Past the root the same lines only repaint `nil` black. |
| Bstree.BTree.DeleteStep | src/ds/rbtree.c:86-141 | One turn of the loop, which never asks whether the root has been reached, either gets closer to its end and keeps the order, or ends with a repaired tree and a black `nil`; this includes the turn at the sentinel where `nil` plays every part. |
| Bstree.BTree.DeleteFixup | src/ds/rbtree.c:86-141 | The loop terminates from every tree that is one black node short at one place; the result is red-black with a black root and a black `nil` and has the same in-order sequence. |
| Bstree.BTree.Successor | src/ds/bstree_node.c:332-350 | The node found is the next one in order, or `nil` after the last; below a right child it is the one without a left child. |
| RbShape.SplicedHolds | src/ds/bstree.c:278-291 | Cutting out a node with a missing child leaves the heap holding the same tree with that node replaced by its only child. |
| RbShape.ReplacedHolds | src/ds/bstree.c:313-324 | A node that was cut out takes over the victim's links and colour; the heap then holds the same tree with the victim's place taken. |
| RbShape.DeleteOrder | src/ds/bstree.c:270-324 | Cutting out the successor and then seating it in the victim's place leaves the order of the other nodes as it was, without the victim. |
| Bstree.BTree.Delete | src/ds/bstree.c:262-340 | On any kind of tree exactly the victim goes, the other nodes keep their order, links, colours, black heights, root and `nil` are in order again, and the runtime checks never fire. A search tree stays one and loses exactly the victim's pair. |
| Bstree.BTree.Remove | src/ds/bstree.c:251-260 | On any kind of tree: a failure changes nothing, a success removes one node that compares equal. If the comparison orders the keys, it fails exactly when the key is absent, and otherwise exactly that key and its datablock are gone. |
| BstreeRuns.InsertAll | src/ds/bstree.c:114-182 | After any sequence of insertions on any kind of tree whose comparison orders their keys, the invariant holds with right counts or maxima, and the tree stores every key with the first datablock given for it, and nothing else. |
| BstreeRuns.Run | src/ds/bstree.c:114-340 | After any sequence of insertions and removals on any kind of tree whose comparison orders their keys, it is a red-black search tree that stores exactly the dictionary these operations describe. |
| Height.BlackHeightBoundsLevels | src/ds/rbtree.c:143-156 | No path of a red-black tree is longer than twice its black height, plus one if the top is red. |
| Height.LevelsLogarithmic | src/ds/bstree_node.c:352-364 | The height h of a red-black tree with n nodes satisfies 2^h <= (n + 1)^2, that is h <= 2 log2(n + 1). |
| Height.NoLongerPath | src/ds/bstree_node.c:352-364 | No path down has more nodes than the height. |
| Height.LongestPath | src/ds/bstree_node.c:352-364 | Some path down has as many. |
| Height.TreeHeight | src/ds/bstree_node.c:352-364 | The height the code computes is the number of nodes of a path down that no other exceeds, and within that bound for every tree that operations can build. |
| Inttree.OverlapMeansCommonPoint | src/ds/inttree.c:35-43 | The comparison of two proper intervals holds exactly when they share a point. |
| Inttree.ValueIsMax | src/ds/inttree_node.c:19-24 | What `max_high` stands for bounds every high end of the subtree, and some node attains it. |
| Inttree.GoLeft | src/ds/inttree.c:115-117 | When low ends ascend, the left maximum reaches the wanted interval and the root does not overlap it, an overlap exists in the subtree exactly when one exists on the left. |
| Inttree.GoRight | src/ds/inttree.c:118-120 | Otherwise an overlap exists exactly when one exists on the right. |
| Inttree.OverlapSearch | src/ds/inttree.c:91-121 | The recursion ends where the maxima of left children lead, and at no node exactly when that path ends. |
| Inttree.FoundExact | src/ds/inttree.c:91-121 | If low ends ascend, that path ends at an overlapping interval exactly when the subtree has one. |
| Inttree.FoundAmongTwo | src/ds/inttree.c:91-121 | Among two intervals it does so whatever their order. |
| Inttree.Search | src/ds/inttree.c:91-121 | From the real root, whose own `max_high` may be stale: what is returned is stored and overlaps, and if low ends ascend, something is returned exactly when some stored interval overlaps. |
| Inttree.InsertAllThenSearch | src/ds/inttree.c:123-130 | After any sequence of insertions of proper intervals whose low ends are safe, that is, at most two different ones or no two further apart than a 32-bit integer, the search returns a stored overlapping interval exactly when some stored interval overlaps. |
| Inttree.SearchMisses | src/ds/inttree.c:53-130 | For any low ends that are not safe, three insertions with such low ends and a search that finds nothing although a stored interval overlaps. |
| Inttree.MissThird | src/ds/inttree.c:53-130 | The three-interval run itself, for any three low ends that the wrapped comparison puts out of order. |
| KeyOrder.CmpKeyOrders | src/ds/inttree.c:53-57 | The 32-bit difference orders two keys as integers exactly when the difference is itself a 32-bit integer. |
| KeyOrder.CmpKeyClose | src/ds/inttree.c:53-57 | On keys no two of which are further apart than that, the comparison orders them as integers. |
| Ostree.CountIsSize | src/ds/ostree_node.c:19-27 | The count a subtree should have is its number of nodes. |
| Ostree.Select | src/ds/ostree.c:46-68 | The result is the node at place i of the subtree's in-order sequence, and none when there is no such place, negative i included. |
| Ostree.Rank | src/ds/ostree.c:70-83 | The result is the number of nodes of the whole tree before the given one. |
| Ostree.SmallerKeys | src/ds/ostree.c:46-83 | In a sequence in order the node at place i is the one with exactly i smaller keys. |
| Ostree.SelectThenRank | src/ds/ostree.c:46-83 | Selection succeeds exactly for 0 <= i < size, returns the node with exactly i smaller keys, and ranking that node gives i back. |
| Ostree.RankThenSelect | src/ds/ostree.c:46-83 | Ranking any node of the tree and selecting that place gives the node back. |
| Rdwrlock.StepInv | src/multithread/rdwrlock.c:27-121 | Every step of every thread, timed or not, keeps the account of the three semaphores: places in line, the right to use the reader count, and the resource, held by one writer or on behalf of all readers. |
| Rdwrlock.Exclusion | src/multithread/rdwrlock.c:27-121 | In every reachable state of any number of threads a writer inside is alone, with timed requests and the unchecked wait for a place in line included. |
| Rdwrlock.ReadersCounted | src/multithread/rdwrlock.c:59-121 | In every reachable state `n_readers` is the number of readers that hold the resource, and `access` and `read` stay binary. |
| Rdwrlock.EnabledSteps | src/multithread/rdwrlock.c:27-121 | A thread, timed or not, can go on exactly when the semaphore it waits for is up; it can go on without, or be refused, exactly at the three timed waits. |
| Rdwrlock.NoDeadlock | src/multithread/rdwrlock.c:27-121 | Whenever some thread is inside an operation or holds the resource, some such thread can move. |
| Rdwrlock.NoOvertaking | src/multithread/rdwrlock.c:31-121 | On every run in which no writer's wait for a place in line has timed out, one thread at a time has the place, and no other enters meanwhile. |
| Rdwrlock.OvertakesExactlyWhen | src/multithread/rdwrlock.c:31-121 | In any state that keeps the account, another thread can enter while one has its place in line in exactly two cases: it is a timed writer whose own wait for a place timed out, and the resource is free; or a place has been given back that nobody had, and it is a second thread with a place, at the point where the resource is taken. |
| Rdwrlock.OvertakenAfterTimeout | src/multithread/rdwrlock.c:42-57 | A run with both cases: a timed-out writer enters while another thread has the place; it leaves; then an untimed writer enters while that thread still has it. |
| Rdwrlock.BoundedWait | src/multithread/rdwrlock.c:31-121 | On every run in which no writer's wait for a place has timed out, a thread keeps its place in line for at most a number of steps that depends only on where the threads stand when it gets it. |
| RdwrlockCalls.RunRefines | src/multithread/rdwrlock.c:27-121 | Every run is, for its callers, a run of a lock that lets a thread in at one moment, in the way it asked for and only when nobody is in its way, and that refuses timed requests only. |
| RdwrlockCalls.WriterIn | src/multithread/rdwrlock.c:31-57 | From every state with a place in line and the resource free, the own steps of a writer, timed or not, lead to `Writing`, with the resource taken and the place given back. |
| RdwrlockCalls.ReaderIn | src/multithread/rdwrlock.c:75-121 | The own steps of a reader, timed or not, lead to `Reading`: with the resource taken if there are no readers, and without it if there are. |
| RdwrlockCalls.TimedReaderTakes | src/multithread/rdwrlock.c:107-110 | A timed reader that waits for the resource can take it exactly when it is free. |
| RdwrlockCalls.WriterOut | src/multithread/rdwrlock.c:27-29 | Leaving, a writer gives the resource back. |
| RdwrlockCalls.ReaderOut | src/multithread/rdwrlock.c:59-73 | Leaving, a reader gives the resource back if it is the last, and leaves it taken otherwise. |
| Rbuffer.Buffer.constructor | src/ds/rbuffer.c:31-63 | A new buffer is empty and has the given room. |
| Rbuffer.Buffer.Add | src/ds/rbuffer.c:77-100 | As a FIFO the ring is a bounded queue: a full one refuses and is unchanged, otherwise the element comes last. Otherwise a full ring forgets its oldest element. |
| Rbuffer.Buffer.Remove | src/ds/rbuffer.c:120-131 | The oldest element is returned and removed; an empty buffer has none and is unchanged. |
| Rbuffer.Buffer.Front | src/ds/rbuffer.c:115-118 | The oldest element, if any. |
| Rbuffer.Buffer.Clear | src/ds/rbuffer.c:157-165 | The buffer is empty. |
| Pcqueue.StepInv | src/multithread/pcqueue.c:71-162 | Every step of push, pop, peek and their timed forms keeps the account of both semaphores and of threads in flight. |
| Pcqueue.FifoNeverFails | src/multithread/pcqueue.c:71-162 | A pusher at the FIFO always finds room; a popper or peeker always finds the oldest element not yet popped. |
| Pcqueue.Conservation | src/multithread/pcqueue.c:71-162 | In every interleaving the semaphores and the threads in flight sum to the capacity, no FIFO operation fails, and what was popped is a prefix of what was pushed. |
| PcqueueCalls.RunRefines | src/multithread/pcqueue.c:71-162 | Every run is, for its callers, a run of a bounded queue on which each push, pop and peek happens at one moment, with the element given and the answer handed over; only timed waits fail. |
| PcqueueCalls.OldestHandedOut | src/multithread/pcqueue.c:71-162 | In every reachable state the element a pop or peek hands to its caller is the oldest one pushed and not yet popped: the k-th pop returns the k-th push. |
| PcqueueCalls.ProceedsExactlyWhen | src/multithread/pcqueue.c:71-162 | A thread, timed or not, can go on exactly when the token or the mutex it waits for is there; only timed pops and peeks can give up. |
| PcqueueCalls.PushAlone | src/multithread/pcqueue.c:71-85 | Undisturbed, a push into a queue with a free slot ends with the element last and the token moved. |
| PcqueueCalls.PopAlone | src/multithread/pcqueue.c:87-126 | Undisturbed, a pop, timed or not, from a queue with an element ends with the first element handed over and gone. |
| PcqueueCalls.PeekAlone | src/multithread/pcqueue.c:128-162 | Undisturbed, a peek, timed or not, hands over the first element and changes nothing. |
| Mpool.TakeFinds | src/multithread/mpool.c:120-150 | A requester past the semaphore finds a free chunk that nobody uses and becomes its only user. |
| Mpool.DropFrees | src/multithread/mpool.c:190-234 | A release gives the chunk back exactly when its last reference goes, and keeps the two lists a partition of the pool. |
| Mpool.StepInv | src/multithread/mpool.c:120-277 | Every step of request, timed request, release and the reference operations keeps the partition, unused free chunks and the semaphore's account. |
| Mpool.Conservation | src/multithread/mpool.c:120-277 | In every interleaving free and allocated chunks partition the pool, the semaphore and the threads in flight count the free ones, and a requester past the semaphore gets a chunk with count 1. |
| MpoolCalls.RunRefines | src/multithread/mpool.c:120-277 | Every run is, for its callers, a run of a pool on which each request, release and change of references happens at one moment: a request gets the first free chunk as its only user, a release takes one user away and frees a chunk without users, a change adds what was asked. |
| MpoolCalls.ProceedsExactlyWhen | src/multithread/mpool.c:120-277 | A thread, timed or not, can go on exactly when the token or the mutex it waits for is there; only timed requests can give up. |
| MpoolCalls.RequestAlone | src/multithread/mpool.c:120-188 | Undisturbed, a request, timed or not, gets the first free chunk with a count of 1. |
| MpoolCalls.ReleaseAlone | src/multithread/mpool.c:190-234 | Undisturbed, a release lowers the count by one, or frees the chunk as the last free one and posts the semaphore. |
| MpoolCalls.ChangeAlone | src/multithread/mpool.c:236-277 | Undisturbed, adding or removing a reference changes the count of that chunk by just that, and nothing else. |
| SwbusCounts.BusKeepsChunks | src/swbus/swbus.c:232-464 | What the pools demand of their callers holds on the bus: a chunk whose references are changed or released is allocated. |
| SwbusCounts.CountsKept | src/swbus/swbus.c:24-55 | Each step changes the reference count of a chunk by exactly as much as it changes the outstanding reservations and the counted queue entries for it. |
| SwbusRuns.StepInv | src/swbus/swbus.c:24-464 | Every step of every publisher, subscriber and consumer, down to single steps of the lock, the pools and the queues, keeps the invariant of the bus. |
| SwbusRuns.ReferenceCounts | src/swbus/swbus.c:24-464 | In every reachable state the reference count of a chunk is its outstanding reservations plus the queue entries counted and not yet released; it is free exactly when that is zero and allocated exactly when it is not. |
| SwbusRuns.NeededNeverFree | src/swbus/swbus.c:232-305 | No chunk is in the free list while an entry of a receive queue still needs it. |
| SwbusRuns.ConsumerSafe | src/swbus/swbus.c:397-464 | The chunk of the entry a consumer has waited for stays allocated until the consumer pops it. |
| SwbusRuns.LastReleaseFrees | src/swbus/swbus.c:442-464 | A release frees the chunk exactly when its count was 1: the last pop frees it, and no other does. |
| SwbusOrder.OrderKept | src/swbus/swbus.c:248-303 | Every step keeps each queue's history equal to the global publish order filtered by its subscriptions, the publication in progress included. |
| SwbusRuns.GlobalOrder | src/swbus/swbus.c:248-303 | Each receive queue has been sent the publications in their one global order, filtered by its subscriptions at the time; that is what was popped from it followed by what is in it. |
| SwbusRuns.SameRelativeOrder | src/swbus/swbus.c:248-303 | In every reachable state, also while a publication or a change of subscriptions is in progress, any two receive queues have been sent their common packets in the same relative order; the last may still be to come while it is being published. |
| SwbusCalls.RunRefines | src/swbus/swbus.c:159-464 | Every run is, for the application, a run of one log of publications that each receive queue reads from its own place on: each reservation, publication, wait, pop and change of subscriptions does at one moment what it was asked to, and only timed waits fail. |
| SwbusCalls.ReservationFits | src/swbus/swbus.c:196-230 | In every reachable state a chunk reserved for `size` bytes is of a pool with chunks that big, and every pool before it was too small or full when this call looked at it. |
| SwbusCalls.GivesUpOnlyWhen | src/swbus/swbus.c:196-230 | A reservation fails only if every pool was too small or full when this call looked at it. |
| SwbusCalls.ChangeApplies | src/swbus/swbus.c:335-395 | In every reachable state unsubscribing removes exactly that subscription, and subscribing adds it if there is room; the list stays in order of PID and queue. |
| SwbusCalls.SentOnlyIfSubscribed | src/swbus/swbus.c:248-303 | In every reachable state each entry a queue has been sent is a publication to whose PID it was subscribed then. |
| SwbusCalls.ReadsInOrder | src/swbus/swbus.c:397-464 | What a consumer is handed is the next publication for its queue, in the one order of all. |
| SwbusProgress.StepsExactlyWhen | src/swbus/swbus.c:196-464 | A thread on the bus can take a step exactly when the mutex, the semaphore or the lock it waits for is there, or its wait may time out. |
| Stable.Unique | src/algorithm/sort.c:165-351 | Two sorted rearrangements in which equal elements keep the same order are the same sequence. |
| Stable.MergeStable | src/algorithm/sort.c:165-226 | Merging stable results of two halves, preferring the first on ties, is a stable result of the whole. |
| Stable.OnlyMsort | src/algorithm/sort.c:165-226 | Whatever is a stable sorted rearrangement is the one the recursive merge computes. |
| Mergesort.Halve | src/algorithm/sort.c:165-226 | The slow and the fast pointer stop at the middle. |
| Mergesort.MergesortRec | src/algorithm/sort.c:165-226 | The given nodes are relinked into the one stable sorted list: each node once, `next` through all of them to null, `prev` its inverse if the list is double and has at least two nodes, and `prev` untouched otherwise. |
| MergesortIter.PassClass | src/algorithm/sort.c:228-351 | A pass over sorted blocks moves no element past one that compares equal. |
| MergesortIter.OneMerge | src/algorithm/sort.c:228-351 | A pass makes one merge exactly when the list is not empty and at most two blocks long, which is when the loop stops. |
| MergesortIter.OnePass | src/algorithm/sort.c:228-351 | A pass relinks the nodes into the list with neighbouring blocks merged, ends it with null, and counts its merges. |
| MergesortIter.MergesortIter | src/algorithm/sort.c:228-351 | On any list that is not empty the loop over the passes ends, and the nodes come in the same order as from the recursive version. |
| Quicksort.Partition | src/algorithm/sort.c:50-92 | Afterwards nothing before the returned index is greater than the pivot there and everything after it is; only the range has been rearranged, and no index leaves it. |
| Quicksort.QsortRec | src/algorithm/sort.c:98-108 | The range is sorted, its elements are the same, and nothing else has changed. |
| Quicksort.StackSuffices | src/algorithm/sort.c:123-160 | Pending ranges that do not overlap and are two long or longer take at most one stack slot for each element. |
| Quicksort.SettledStep | src/algorithm/sort.c:136-161 | Partitioning the top range and keeping both of its sides of two or more leaves any two elements in order or together in a pending range. |
| Quicksort.QsortIter | src/algorithm/sort.c:112-162 | On two or more elements the loop ends, never writes beyond its stack of one slot for each element, and leaves a sorted rearrangement, the elements past the maximum index untouched. |
| RadixOrder.GatheredStable | src/multithread/omp_radix_sort.c:154-216 | Gathering the elements symbol by symbol is the stable sort by the current symbol. |
| RadixOrder.GatheredSortedMod | src/multithread/omp_radix_sort.c:144-146 | If the lower places are in order, gathering by the next symbol puts the places up to it in order. |
| RadixBins.RangesDisjoint | src/multithread/omp_radix_sort.c:179-216 | The ranges the bins of different threads and symbols are written to are disjoint. |
| RadixBins.RangesCover | src/multithread/omp_radix_sort.c:179-216 | Together they cover every index. |
| RadixBins.WholeGathered | src/multithread/omp_radix_sort.c:154-216 | The bins, symbol by symbol and thread by thread, are the elements gathered symbol by symbol. |
| RadixBins.BinsSuffice | src/multithread/omp_radix_sort.c:57-58 | Every element has a row of bins exactly when the number of threads divides the number of elements. |
| RadixSort.Sorter.Distribute | src/multithread/omp_radix_sort.c:167-174 | However the threads interleave, each bin ends up with its thread's elements of its symbol in order, and no bin overflows. |
| RadixSort.Sorter.PrefixSums | src/multithread/omp_radix_sort.c:176-197 | The sum for a thread and symbol is the number of elements in all bins before it, by symbol first and thread second. |
| RadixSort.Sorter.Collect | src/multithread/omp_radix_sort.c:201-213 | However the threads interleave, the data becomes the bins one after the other. |
| RadixSort.Sorter.Step | src/multithread/omp_radix_sort.c:154-216 | One step is the stable sort by the current symbol, whatever the order of the threads. |
| RadixSort.Sorter.Largest | src/algorithm/algorithm.c:23-33 | The greatest element, or 0 if there is none above. |
| RadixSort.Sorter.Exec | src/multithread/omp_radix_sort.c:131-149 | In a base of at least 2, while the place value stays an `int`, the result is a sorted rearrangement. |
| McmOpt.OptLeast | src/algorithm/mcm_opt.c:121-172 | No parenthesization of a chain costs less than the dynamic programming recurrence says. |
| McmOpt.OptReached | src/algorithm/mcm_opt.c:121-172 | Some parenthesization costs exactly that. |
| McmOpt.CostMul | src/algorithm/mcm_opt.c:162 | The cost counts scalar multiplications, one for each row, column and place in between of every product; a product of two chains takes as many as its three dimensions multiply to. |
| McmOpt.CappedCost | src/algorithm/mcm_opt.c:121-172 | The cost capped at its initial value is a lower bound, and is reached exactly when the least cost does not exceed that value. |
| McmOpt.Optimizer.constructor | src/algorithm/mcm_opt.c:92-112 | Both tables start as zeroes, with a row and a column for each dimension. |
| McmOpt.Optimizer.BestSplit | src/algorithm/mcm_opt.c:121-172 | The innermost loop makes one more table entry final: its cost, and its route unless the cost was capped; no other entry changes. |
| McmOpt.Optimizer.Optimize | src/algorithm/mcm_opt.c:121-172 | The result is at most the number of scalar multiplications of every parenthesization, and is that of one exactly when the least number is no more than INT_MAX. |
| McmOpt.Optimizer.RouteIsBest | src/algorithm/mcm_opt.c:121-172 | The recorded route leads to a parenthesization of least cost exactly when that cost is below INT_MAX. |
| McmOpt.ReportedOnce | src/algorithm/mcm_opt.c:67-87 | The report of a product of two or more matrices names each of its matrices once and no other. |
| McmOpt.ReportedAsComputed | src/algorithm/mcm_opt.c:67-87 | Matrices are reported as operands of the products in the order these can be computed, left before right. |
| McmOpt.Optimizer.ReportParens | src/algorithm/mcm_opt.c:67-87 | The recursion appends the report of the recorded tree to what is there and moves the count on by as much. |
| McmOpt.Optimizer.Report | src/algorithm/mcm_opt.c:174-180 | For two matrices or more, with a least cost below INT_MAX, the ordering holds each of 1..n exactly once. |
| Permute.PermsCount | src/utils/utils.c:90-113 | From index `start` on the callback is called as often as the factorial of the number of remaining elements. |
| Permute.PermsComplete | src/utils/utils.c:90-113 | Every rearrangement of the remaining elements is among the calls. |
| Permute.PermsDistinct | src/utils/utils.c:90-113 | On distinct elements no two calls see the same array. |
| Permute.Swap | src/utils/utils.c:115-119 | The two elements change places, also when both indices are the same. |
| Permute.PermuteFrom | src/utils/utils.c:90-113 | The calls are the permutations from `start` on in this order, and the array is left as it was. |
| Permute.AllPermutations | src/utils/utils.c:90-113 | From index 0 on distinct elements: n! calls, every permutation exactly once and nothing else, and the array is left as it was. |
| Crc.Rev8Mirrors | include/rcsw/utils/utils.h:53-56 | The reversal by multiplications mirrors the bits of every byte. |
| Crc.ReversedPolynomial | include/rcsw/utils/utils.h:58-61 | The reversed polynomial is 0xEDB88320, the mirror image of 0x04C11DB7. |
| Crc.Shift8Linear | src/utils/checksum.c:234-237 | Eight turns of the inner loop are linear over exclusive or. |
| Crc.TableStep | src/utils/checksum.c:210-212 | Eight turns on the register with a byte added are the register moved down a byte plus eight turns on its low byte with that byte added: the identity behind the table. |
| Crc.RemainderConcat | src/utils/checksum.c:231-239 | The remainder after two buffers is the remainder after the second, started from that after the first. |
| Crc.RemainderStandard | src/utils/checksum.c:216-241 | The register is the mirror image of the one in IEEE 802.3 clause 3.2.9, which shifts the other way with the polynomial unreversed. |
| Crc.Eth | src/utils/checksum.c:216-241 | The complemented remainder of the bytes the loop looks at, whose number is the length cast to an `int`; an error value for no bytes. |
| Crc.Table.Init | src/utils/checksum.c:183-198 | Afterwards the table holds, for every byte, what eight turns make of it; the loop over a wrapping byte ends after the last. |
| Crc.Table.Ethl | src/utils/checksum.c:200-214 | The complemented remainder of the whole buffer, whether or not the table had been built before; an error value for no bytes. |
| Crc.BrownIsEntry | src/utils/checksum.c:31-75 | Every entry of the precomputed table is what eight turns make of its index. |
| Crc.Brown | src/utils/checksum.c:171-181 | The remainder of the whole buffer from the complement of the given start, not complemented; an error value for no bytes. |
| Crc.AllAgree | src/utils/checksum.c:171-241 | On every non-empty buffer the lazily built table gives the check of IEEE 802.3, the precomputed table started from 0 gives its complement, and the bit-by-bit form agrees while the length is an `int`. |
| Crc.AgreeExactlyWhen | src/utils/checksum.c:231 | Table and bit-by-bit form agree on all buffers of a length exactly when that length is an `int`. |

## Left out

- Bstree.BTree.Delete: whether counts and maxima are right is not modelled after a deletion, which need not repair them (`src/ds/bstree.c:296-324`); the writes to these fields are.
- Plain binary search trees without the red-black flag, traversals, printing, and copying a deleted element out.
- The mirrored left and right branches of the tree code are one branch, taken on a side.
- Rdwrlock.BoundedWait: a bound on steps, not on time; readers' timeouts count as steps.
- Rbuffer.Buffer.Clear: does not model the zeroing of the element memory.
- Mpool.Conservation: callers release, and change references of, allocated chunks only; a chunk is its index, so the pointer arithmetic of `mpool_ref_query` is not modelled.
- SwbusRuns.ReferenceCounts: synchronous mode only, with one consumer for each queue that waits and then pops, and entries whose pool the application has not cleared. With RCSW_SWBUS_ASYNC a push comes before its reference.
- SwbusRuns.StepInv: queues exist from the start; `swbus_rxq_init`, `swbus_init` and destruction are not modelled.
- Progress of the bus: a publisher can block on a full queue while it holds both locks, so it is said when a thread can step, and no liveness is claimed.
- RadixSort.Sorter.Exec: requires that no place value exceeds INT_MAX before the loop ends; beyond that the C code overflows a signed integer.
- RadixSort.Sorter.Step: bins are sequences with the bounded-queue operations that `Rbuffer.Buffer` refines, in a two-dimensional array instead of a flattened one; the parallel flush is one assignment.
- Quicksort.QsortIter: a single element is excluded; the code would push two bounds on a stack of one slot. Elements are integers with any total preorder.
- MergesortIter.MergesortIter: the empty list is excluded; on it no pass makes a merge and the code's loop does not end.
- MergesortIter.OnePass: block sizes and counts of merges are unbounded; as `int`s they suffice for lists of up to 2^31 nodes.
- McmOpt.Optimizer.Optimize: requires that no cost of a split wraps around 64 bits.
- McmOpt.Optimizer.Report: requires a least cost below INT_MAX, because at INT_MAX or above the route was never written.
- The bytes of a packet: an entry names its chunk, and the copy into it (`src/swbus/swbus.c:177`) is not modelled.
- Allocation failures, caller-provided memory, NULL arguments, logging, return codes of semaphore errors other than timeouts.
- `util_reflect32` and the other checksums: easy beside what is here.
- `edit_dist`, `lcs`, `radix_counting_sort`, `csmatrix_vmult`, `rawfifo`, `hashmap`, heaps, darrays, string and time functions, number formatting.
- MPI, processes, affinity, the grind and minimon tools: input, output and foreign calls.
