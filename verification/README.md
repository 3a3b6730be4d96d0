# A verified model of the thread-local allocator

This project models the hard core of the allocator in Dafny and proves what it relies on. All parts follow the
code's own form: what the code changes in place is a class whose methods are proved against a specification; what it
computes is a function with lemmas about it.

`dafny verify dfyconfig.toml` checks everything.

## What is modelled

**The B-tree map** (`NodeStore`, `Rebalance`, `Growth`, `Ranks`, `Insertion`, `Removal`, `NodeCounts`, `SplitOff`,
`Borders`, `BulkPush`, `MergeIter`, `Search`, `IntoIter`, `NodeArrays`, `NodeLayout`, `BTreeMap`). The node memory
is a map from addresses to node records; a node has its pairs, its edges, its height and its parent link with the
index. The class `BTreeMap.SelfAllocatedBTreeMap` has the source's fields (root, length, the counters of node sizes)
and that memory, and its methods do what the source's do, node by node and link by link. Beside the memory the class
keeps, as ghost state, the in-order sequence `all` and for each node the range of `all` that its subtree holds (its
span). The pair or leaf edge at index `i` of a node then has a definite place in the sequence, its rank, and this is
how handles are traced: a handle denotes the same thing before and after a repair exactly if its rank is the same.
`Ranks.InOrder` is the independent definition of the contents, by recursive descent through the edges, and
`Ranks.InOrderSpan` proves that the spans agree with it. A valid map (`Valid`) has strictly ascending keys, uniform
depth, 5 to 11 pairs in every node but the root, right parent links and indices, no unreachable node, a length that
is the number of pairs, and counters that equal the live leaves and live internal nodes.

*How nodes lie in memory* is the matter of `NodeArrays`: the arrays of keys, values and edges that are shifted in
place, proved against operations on sequences. `NodeLayout` proves that records which hold the nodes of a memory
hold, after each of these operations, the nodes of the memory that the map's own operation leads to.

**Bootstrap** (`Region`, `Chunks`, `Bootstrap`, `Exhaustion`, `Carving`, `Ownership`, `HandleState`, `Vectors`,
`Buffers`, `SelfVec`, `ChunkManager`, `Handover`). `Region` has the geometry of regions, chunks and their metadata,
`Carving` the division of a chunk into slots, and `Ownership` the records that lead from an address to its owner.
`Bootstrap.StateChain` is the chain of states that carves slots out of regions without touching the tables; ghost
state records the role of every chunk, the slots handed out and, for each state, the chunk units that are in no
list. What the system answers when it is asked for a region is an argument, and a request fails exactly if the chain
has nothing left and that is a refusal. `HandleState.Committer` is the loop of reservation passes and commits;
`Vectors` proves for which sizes what it assumes of their vectors is so. `SelfVec.SelfAllocatedVec` is the vector
that may be edited by the very allocation that grows it: what goes on meanwhile is an argument, and what it comes to
in the end a function of it; `Buffers` has how large a buffer is made. `ChunkManager.Manager` counts what is left of
each region and releases it, and `Handover` proves that a state of the chain is what it expects.

**The cross-thread return protocol** (`ReturnProtocol`) is a state machine: any number of threads free, allocate,
push by compare-and-swap, take their list by swap, and drain it, one atomic step at a time and in any order. Handing
a pointer to its table can make a thread take its list again in the middle of a drain, so a thread has any number of
activations, each with a list of its own to drain. That the inner one ends first is not demanded, which makes the
runs of the code some of those covered. Whatever is said there is said of every state of every run: nothing
committed is ever lost, nothing is in two places, and what has been done and what is left to do make eight steps for
each pointer freed on a foreign thread. And every run can be continued, by draining alone and provided each thread
has an activation, to a state in which everything committed is with a user or back with its owner.

**The release test** (`Release`): the sorted table that counts the allocator's own objects by size, and the test
that compares it with what looks used.

**Size classes** (`SizeTables`, `SizeClasses`, `ShippedTables`): the bucket function, what any tables that fit the
buckets guarantee for rounding, and the proof, entry by entry, that the tables in the source fit.

## What does not hold as one might expect

Each of these is proved with its exact condition; the code is modelled as it is.

- *At most one chunk of a size has free slots.* A commit needs this of the chunks of each vector, since a pass reserves
  room chunk by chunk (`HandleState.RoomForEachIsNotEnough` is what goes wrong otherwise). `Bootstrap.StateChain.AllocSize`
  keeps it exactly if it is not asked for an object of a state's own size at a moment when the chain has to grow for
  it (`MustGrow`): then the new state takes a chunk for itself, and the caller gets a second one
  (`Exhaustion.TwoChunksForStates` is a run that comes to this). Nothing but the chain itself asks for that size, and
  `HandleState` assumes so of the reservations.
- *A vector has the objects of one size.* The size of a state is not rounded to a class size
  (thread_local_self_alloc_impl.rs:190), so its chunks go to the vector of the class size 14848
  (`Vectors.StateIsNoClass`). Sizes that are asked for have vectors of their own exactly if no two of them are rounded
  to the same size; with class sizes and one state size, exactly if that class size is not asked for
  (`Vectors.ClassesAndState`). `HandleState.Committer` requires it.
- *No chunk is lost.* When a common chunk is wanted and a region has to be added for it, the large chunk that was
  taken for dividing drops out of all lists (thread_local_self_alloc_impl.rs:295-299). The contract of `AllocSize` states
  the units out of lists exactly: eight in this case, none otherwise (`Exhaustion.LargeChunkLost` is a run).
- *Metadata of a large chunk.* The eight records serve the whole chunk exactly if they are written from an address
  in its first common width (`Region.LargeChunkResolves`). `handle_state` passes the start; `alloc_large_slow`
  (thread_local_allocator.rs:558-587) passes the last slot, which is further on for every large size
  (`Carving.LastSlotMisses`).
- *A vector that has room can be pushed to.* If nested edits make the room while an allocation for it is refused, the
  reservation fails all the same (`SelfVec.RefusedDespiteRoom`). It fails only if an allocation was refused.
- *An idle allocator is released.* The number of objects is computed from all chunks together and can exceed the
  number of slots. The test is never passed too early, but is passed exactly if, besides, the remainders of the chunks
  add up to less than one object (`Release.TestExact`; `Release.IdleButNotReleased` is a size for which they do not).
  With an extra-large entry the code reports success without releasing anything.

## Assumptions

- Keys and values are integers; keys are compared by the integer order. Node addresses are natural numbers, and
  a fresh one is always available except where the source handles a refusal: the first leaf of a map, a region, and
  a vector's buffer. Where the source panics on a refused node, allocation succeeds here. Node sizes are those of
  word-sized keys and values (192 and 288 bytes); only that they differ matters.
- Integers are unbounded. Lengths of nodes are bounded by the capacity; that the lists of a state fit their fixed
  buffers is `Chunks.ListsFit`. The counters and the `u32` lengths of vectors are taken not to wrap.
- `stateSize`, the size of a state, is a parameter in the range of large sizes. The sizes a chain is asked for are a
  parameter too; `HandleState` demands of them that no two share a vector.
- After a state is read out of the chain for committing, `first_state` still points at the consumed head in the
  source; the chain is a sequence here.
- Atomic operations are sequentially consistent steps. A thread that frees a foreign pointer has a node slot in its
  table.
- The chunk tables and the non-local manager exist before a commit begins. What a reservation that has to
  allocate does to the tables and the chain is arbitrary, but for allocations from the chain.
- The tables of common and of large objects are one table here, numbered one after the other.
- The cells of vectors are a power of two of bytes, eight or more. Then a vector's buffer has as many cells as the least
  power of two that is enough, also after its bytes were rounded to a size class (`Buffers.BufferCells`).

## Model

| member | source | states |
|---|---|---|
| `NodeStore.LaidSplit` | src/self_allocated_structs/btree/node.rs:21-32 | a child whose range is cut in two around a pair, and the new right part put after that pair, leave the parent's pairs and children laid out over the same range |
| `NodeStore.LaidApart` | src/self_allocated_structs/btree/node.rs:21-32 | the ranges of two children of a node never meet, the left one's ends first |
| `Ranks.SameRank` | src/self_allocated_structs/btree/node.rs:21-32 | at each height of a tree at most one node's range, ends included, holds a given rank; so a leaf edge is determined by its rank |
| `Ranks.ParentSpan` | src/self_allocated_structs/btree/node.rs:51-57 | the parent link of a node leads to the edge that holds the node, one level up, in whose range the node's range lies |
| `Ranks.InOrderSpan` | src/self_allocated_structs/btree/node.rs:21-32 | the recursive walk of a subtree yields exactly the range of the sequence that the bookkeeping gives the subtree; this ties the invariant to the plain definition of in-order contents |
| `Rebalance.MergeWf` | src/self_allocated_structs/btree/node.rs:1464-1544 | merging two siblings around a parent's pair keeps every parent link and index right and the in-order sequence as it was |
| `Rebalance.RebalanceWf` | src/self_allocated_structs/btree/node.rs:1622-1746 | moving any number of pairs and edges between siblings through the parent's pair, in either direction, keeps links, indices and the in-order sequence |
| `Rebalance.RebalanceTarget` | src/self_allocated_structs/btree/node.rs:1622-1746 | moving pairs and edges first and correcting links by the two loops afterwards ends in the specified memory |
| `NodeStore.SetLinksNext` | src/self_allocated_structs/btree/node.rs:599-609 | correcting one more child's link extends the corrected range by that child and touches no other node |
| `BTreeMap.SelfAllocatedBTreeMap.CorrectChildrensParentLinks` | src/self_allocated_structs/btree/node.rs:599-609 | the loop sets the links of exactly the children in the range, to this node and their own index |
| `BTreeMap.SelfAllocatedBTreeMap.DoMerge` | src/self_allocated_structs/btree/node.rs:1464-1544 | the right child is emptied into the left one with the parent's pair between them, later siblings move down one index, the right node is freed and the node counters follow |
| `BTreeMap.SelfAllocatedBTreeMap.MergeNodes` | src/self_allocated_structs/btree/node.rs:1464-1544 | the same, without the counters |
| `BTreeMap.SelfAllocatedBTreeMap.BulkStealLeft` | src/self_allocated_structs/btree/node.rs:1622-1682 | `count` pairs, and as many edges, go from the left child through the parent to the right child; every moved child is linked anew |
| `BTreeMap.SelfAllocatedBTreeMap.BulkStealRight` | src/self_allocated_structs/btree/node.rs:1685-1746 | the mirror image |
| `BTreeMap.SelfAllocatedBTreeMap.StealRightPairs` | src/self_allocated_structs/btree/node.rs:1685-1746 | its pairs and edges before any link is corrected |
| `NodeArrays.CopyWithin` | src/self_allocated_structs/btree/node.rs:1948-1966 | an overlapping copy inside one array moves the old contents and leaves the rest |
| `NodeArrays.SliceInsert` | src/self_allocated_structs/btree/node.rs:1916-1930 | in place: the used cells become the old ones with the value inserted; the cells behind do not change |
| `NodeArrays.SliceRemove` | src/self_allocated_structs/btree/node.rs:1933-1945 | in place: the value returned is the one at the index and the used cells become the old ones without it |
| `NodeArrays.SliceShl` | src/self_allocated_structs/btree/node.rs:1948-1956 | the tail of the slice comes to its front |
| `NodeArrays.SliceShr` | src/self_allocated_structs/btree/node.rs:1959-1966 | the front of the slice comes to its end |
| `NodeArrays.MoveToSlice` | src/self_allocated_structs/btree/node.rs:1969-1974 | the cells are copied to the other array, whose other cells stay |
| `NodeArrays.StealLeft` | src/self_allocated_structs/btree/node.rs:1638-1662 | shift right, move the suffix and swap the parent's cell: parent, left and right cells afterwards in terms of those before |
| `NodeArrays.StealLeftEdges` | src/self_allocated_structs/btree/node.rs:1664-1676 | the edges that go with it |
| `NodeArrays.StealRight` | src/self_allocated_structs/btree/node.rs:1703-1724 | the mirror image on cells |
| `NodeArrays.StealRightEdges` | src/self_allocated_structs/btree/node.rs:1726-1742 | the mirror image on edges |
| `NodeArrays.MergeCells` | src/self_allocated_structs/btree/node.rs:1488-1503 | the parent's cell and all right cells follow the left ones, and the parent closes its gap |
| `NodeArrays.ZipJoin` | src/self_allocated_structs/btree/node.rs:1484-1502 | joining keys and joining values joins the pairs; with the cut below this carries the array results over to sequences of pairs |
| `NodeArrays.ZipCut` | src/self_allocated_structs/btree/node.rs:1278-1297 | cutting keys and values at the same places cuts the pairs |
| `NodeArrays.NodeRecord.constructor` | src/self_allocated_structs/btree/node.rs:69-110 | a new record of no pairs |
| `NodeArrays.NodeRecord.OverChild` | src/self_allocated_structs/btree/node.rs:258-270 | a new internal record has its one edge |
| `NodeArrays.NodeRecord.LeafInsertFit` | src/self_allocated_structs/btree/node.rs:988-1003 | a leaf record with room: keys and values with the pair inserted, length up by one |
| `NodeArrays.NodeRecord.LeafRemove` | src/self_allocated_structs/btree/node.rs:1328-1338 | a leaf record: the pair at the index is returned and gone |
| `NodeArrays.NodeRecord.InternalInsertFit` | src/self_allocated_structs/btree/node.rs:1063-1077 | an internal record: the pair at the index and the edge right of it are inserted |
| `NodeArrays.SplitData` | src/self_allocated_structs/btree/node.rs:1278-1378 | the record keeps what is left of the pair, the new one gets what is right of it, edges included, and the pair is returned |
| `NodeArrays.MoveSuffixData` | src/self_allocated_structs/btree/node.rs:1805-1845 | the same at an edge, for `split_off`: no pair stays out, and the right record keeps its first edge |
| `NodeArrays.BulkStealLeftData` | src/self_allocated_structs/btree/node.rs:1622-1682 | the whole steal on records: keys, values and edges of all three nodes |
| `NodeArrays.BulkStealRightData` | src/self_allocated_structs/btree/node.rs:1685-1746 | the mirror image |
| `NodeArrays.MergeData` | src/self_allocated_structs/btree/node.rs:1464-1544 | the whole merge on records: keys, values and edges of parent and left child |
| `NodeLayout.LeafInsert` | src/self_allocated_structs/btree/node.rs:988-1003 | done to arrays that hold a leaf, in-place insertion leaves arrays that hold the leaf with the pair |
| `NodeLayout.LeafRemove` | src/self_allocated_structs/btree/node.rs:1328-1338 | the same for removal; the pair returned is the one at the index |
| `NodeLayout.InternalInsert` | src/self_allocated_structs/btree/node.rs:1063-1077 | the same for a pair and an edge in an internal node: the arrays hold what the node memory has after the insertion of the map |
| `NodeLayout.Split` | src/self_allocated_structs/btree/node.rs:1278-1378 | the same for a split: both nodes' arrays hold the two nodes that the map's split makes |
| `NodeLayout.MoveSuffix` | src/self_allocated_structs/btree/node.rs:1805-1845 | the same for moving a suffix |
| `NodeLayout.BulkStealLeft` | src/self_allocated_structs/btree/node.rs:1622-1682 | the same for a steal of any number from the left: the arrays of parent and both children hold the nodes that share out the same pairs and edges with so many more on the right |
| `NodeLayout.SharedCut` | src/self_allocated_structs/btree/node.rs:1622-1746 | there is one way only to share out pairs and edges like that |
| `NodeLayout.Shares` | src/self_allocated_structs/btree/node.rs:1622-1746 | and it is what the map's rebalanced memory has |
| `NodeLayout.BulkStealRight` | src/self_allocated_structs/btree/node.rs:1685-1746 | the mirror image |
| `NodeLayout.Merge` | src/self_allocated_structs/btree/node.rs:1464-1544 | the same for a merge |
| `NodeLayout.ZipBoth` | src/self_allocated_structs/btree/node.rs:1464-1544 | the keys and the values of two siblings with the parent's between them make the pairs of both |
| `NodeLayout.ZipShared` | src/self_allocated_structs/btree/node.rs:1622-1746 | cut anywhere, with the cut one going to the parent, they make the shared-out pairs |
| `Insertion.Splitpoint` | src/self_allocated_structs/btree/node.rs:973-982 | with the new pair inserted both halves have at least five pairs; they are even before exactly if it goes next to the middle pair, and otherwise it goes into the smaller one; the insertion index is the old one in the half it goes to |
| `Growth.SplitPointers` | src/self_allocated_structs/btree/node.rs:1278-1378 | splitting a node into itself and a new right one keeps all links; moved children are linked to the new node |
| `Growth.SplitOrder` | src/self_allocated_structs/btree/node.rs:1278-1378 | and keeps the order |
| `Growth.AttachOrder` | src/self_allocated_structs/btree/node.rs:1063-1108 | inserting a pair and the subtree right of it keeps the order, if that subtree's range follows |
| `Growth.PushLevelOrder` | src/self_allocated_structs/btree/node.rs:644-666 | so does a new root over the old one |
| `Growth.PopLevelWf` | src/self_allocated_structs/btree/node.rs:674-704 | and the removal of a root with a single child |
| `BTreeMap.SelfAllocatedBTreeMap.Split` | src/self_allocated_structs/btree/node.rs:1310-1378 | splits a node at a pair; the new node's address was not in use |
| `BTreeMap.SelfAllocatedBTreeMap.InsertFit` | src/self_allocated_structs/btree/node.rs:1063-1077 | a pair and the edge right of it, later children re-indexed |
| `BTreeMap.SelfAllocatedBTreeMap.PushInternalLevel` | src/self_allocated_structs/btree/node.rs:644-666 | a new root whose only child is the old one |
| `BTreeMap.SelfAllocatedBTreeMap.PopInternalLevel` | src/self_allocated_structs/btree/node.rs:674-704 | the only child becomes the root and the old root is freed |
| `BTreeMap.SelfAllocatedBTreeMap.InsertFitLeaf` | src/self_allocated_structs/btree/node.rs:988-1003 | with room in the leaf: the sequence gets the pair at the rank of the edge, the tree stays valid and the handle is the pair's |
| `BTreeMap.SelfAllocatedBTreeMap.InsertSplitLeaf` | src/self_allocated_structs/btree/node.rs:1012-1042 | into a full leaf: as before, but the tree is valid only up to the pair and the right half that the caller has to insert one level up |
| `BTreeMap.SelfAllocatedBTreeMap.InsertFitInternal` | src/self_allocated_structs/btree/node.rs:1081-1092 | the raised pair and right half are taken in: the tree is valid |
| `BTreeMap.SelfAllocatedBTreeMap.InsertSplitInternal` | src/self_allocated_structs/btree/node.rs:1093-1108 | the node is full: it is split in turn and the next pair and half are raised |
| `BTreeMap.SelfAllocatedBTreeMap.RaiseToRoot` | src/self_allocated_structs/btree/node.rs:1121-1161 | whatever chain of splits it takes, up to a new root, the tree is valid at the end and the handle still denotes the inserted pair |
| `BTreeMap.SelfAllocatedBTreeMap.SplitRoot` | src/self_allocated_structs/btree/entry.rs:321-336 | the two halves of the old root under a new one |
| `BTreeMap.SelfAllocatedBTreeMap.InsertRecursing` | src/self_allocated_structs/btree/node.rs:1121-1161 | insertion at a leaf edge: the sequence is the old one with the pair at that rank, the tree is valid, the result denotes the pair |
| `Removal.MergeFixing` | src/self_allocated_structs/btree/fix.rs:12-57 | merging a node that is one pair short with a sibling leaves a tree in which at most the parent is short |
| `Removal.StealFixed` | src/self_allocated_structs/btree/fix.rs:12-57 | stealing into it leaves a valid tree |
| `Removal.PopFixed` | src/self_allocated_structs/btree/entry.rs:527-544 | an emptied root gives way to its only child and the tree is valid |
| `BTreeMap.SelfAllocatedBTreeMap.FixNodeThroughParent` | src/self_allocated_structs/btree/fix.rs:12-57 | one node too short: it is stocked up by a merge or a steal, or its parent is the one too short now, or the root is empty; pairs in leaves keep their leaf handles |
| `BTreeMap.SelfAllocatedBTreeMap.FixNodeAndAffectedAncestors` | src/self_allocated_structs/btree/fix.rs:69-82 | the repair goes up as far as needed: afterwards the tree is valid, or false is returned and only the root is empty |
| `BTreeMap.SelfAllocatedBTreeMap.RefillFromLeft` | src/self_allocated_structs/btree/remove.rs:36-52 | a leaf one short and its left sibling: after merge or steal the hole's edge, wherever it is now, has the same rank |
| `BTreeMap.SelfAllocatedBTreeMap.RefillFromRight` | src/self_allocated_structs/btree/remove.rs:36-59 | the mirror image, where the handle does not move |
| `BTreeMap.SelfAllocatedBTreeMap.TakeFromLeaf` | src/self_allocated_structs/btree/remove.rs:31-33 | the pair of that rank is out of the sequence, at most this leaf is short |
| `BTreeMap.SelfAllocatedBTreeMap.RemoveLeafKv` | src/self_allocated_structs/btree/remove.rs:27-79 | removing from a leaf: the pair is the one at its rank, the sequence is the old one without it, the tree is valid or only its root is empty, and the returned leaf edge has the removed pair's rank |
| `BTreeMap.SelfAllocatedBTreeMap.NextKv` | src/self_allocated_structs/btree/navigate.rs:389-405 | the pair right of a leaf edge is the one with the edge's rank, in the leaf or in an ancestor |
| `BTreeMap.SelfAllocatedBTreeMap.ReplaceKv` | src/self_allocated_structs/btree/node.rs:1241-1245 | one pair of the sequence is replaced and the old one returned; the tree stays as valid as it was |
| `BTreeMap.SelfAllocatedBTreeMap.RemoveInternalKv` | src/self_allocated_structs/btree/remove.rs:82-106 | the predecessor is removed from its leaf and put in place of the pair, which may have moved meanwhile: the sequence is the old one without exactly the pair asked for |
| `BTreeMap.SelfAllocatedBTreeMap.RemoveKvTracking` | src/self_allocated_structs/btree/remove.rs:12-23 | the same for a handle in either kind of node |
| `Ranks.InsertAsMap` | src/self_allocated_structs/btree/entry.rs:304-355 | inserting a pair whose key no pair has adds exactly that key to the map the sequence stands for, wherever it is put |
| `Ranks.RemoveAsMap` | src/self_allocated_structs/btree/entry.rs:527-544 | taking a pair out takes exactly its key out of the map |
| `Ranks.ReplaceAsMap` | src/self_allocated_structs/btree/entry.rs:496-498 | changing a pair's value changes exactly its key's |
| `Ranks.AsMapKey` | src/self_allocated_structs/btree/map.rs:351-371 | a key is in the map exactly if a pair of the sequence has it |
| `BTreeMap.SelfAllocatedBTreeMap.constructor` | src/self_allocated_structs/btree/map.rs:275-281 | an empty map without a node |
| `BTreeMap.SelfAllocatedBTreeMap.FindEntry` | src/self_allocated_structs/btree/map.rs:423-440 | occupied exactly if the key is in the map; otherwise the leaf edge between the smaller and the greater keys |
| `BTreeMap.SelfAllocatedBTreeMap.VacantInsert` | src/self_allocated_structs/btree/entry.rs:304-355 | the map gets the key with the value and the handle shows the pair; only the very first leaf can be refused, and then nothing changes |
| `BTreeMap.SelfAllocatedBTreeMap.FirstLeaf` | src/self_allocated_structs/btree/entry.rs:311-318 | the first pair of an empty map |
| `BTreeMap.SelfAllocatedBTreeMap.OccupiedRemoveKv` | src/self_allocated_structs/btree/entry.rs:527-544 | the pair at the handle is returned and its key alone is gone, root pop included |
| `BTreeMap.SelfAllocatedBTreeMap.RemoveEntry` | src/self_allocated_structs/btree/map.rs:351-371 | says whether the key was there, returns its pair, and the map is the old one without the key |
| `BTreeMap.SelfAllocatedBTreeMap.OccupiedInsert` | src/self_allocated_structs/btree/entry.rs:496-498 | the old value is returned and the key has the new one |
| `BTreeMap.SelfAllocatedBTreeMap.Clear` | src/self_allocated_structs/btree/map.rs:320-334 | the map is empty and every node of the old tree was freed exactly once |
| `BTreeMap.SelfAllocatedBTreeMap.FirstLeafEdge` | src/self_allocated_structs/btree/navigate.rs:652-661 | the leaf reached begins where the subtree does |
| `BTreeMap.SelfAllocatedBTreeMap.LastLeafEdge` | src/self_allocated_structs/btree/navigate.rs:665-674 | the leaf reached ends where the subtree does |
| `BTreeMap.SelfAllocatedBTreeMap.NextLeafEdge` | src/self_allocated_structs/btree/navigate.rs:733-741 | the leaf edge right of a pair has the next rank |
| `NodeCounts.SelfAllocatedMemory.Inc` | src/self_allocated_structs/btree/map.rs:43-63 | one more of that size, and the other size untouched |
| `NodeCounts.SelfAllocatedMemory.Dec` | src/self_allocated_structs/btree/map.rs:65-74 | one fewer |
| `NodeCounts.CountedAlloc` | src/self_allocated_structs/btree/map.rs:36-63 | if the table counts the live leaves and internal nodes, it does so after an allocation that it was told of |
| `NodeCounts.CountedFree` | src/self_allocated_structs/btree/map.rs:65-74 | and after a free, for which the count is never zero |
| `NodeCounts.MergeCounted` | src/self_allocated_structs/btree/node.rs:1464-1544 | a merge frees exactly the node it takes off the table |
| `NodeCounts.PopLevelCounted` | src/self_allocated_structs/btree/node.rs:674-704 | and so does a root pop |
| `SplitOff.SuffixPointers` | src/self_allocated_structs/btree/node.rs:1805-1845 | moving a suffix to an empty node of a new spine keeps all links |
| `SplitOff.CutOrder` | src/self_allocated_structs/btree/node.rs:1805-1845 | one level cut at the key: the left node and the right node have what belongs left and right of the cut |
| `SplitOff.CutLevel` | src/self_allocated_structs/btree/split.rs:49-65 | the loop's step: the cut goes one level down on both sides |
| `SplitOff.CountBelowDivides` | src/self_allocated_structs/btree/split.rs:34-71 | the number of pairs below the key is where the ascending sequence divides |
| `SplitOff.CutFound` | src/self_allocated_structs/btree/split.rs:49-56 | the edge that the search for the key ends at in a node holds the place of the cut |
| `SplitOff.CutTrees` | src/self_allocated_structs/btree/split.rs:34-71 | after the last level there are two trees with disjoint nodes, all nodes of the map, of the two parts of the sequence |
| `SplitOff.CutBorders` | src/self_allocated_structs/btree/split.rs:34-71 | only nodes on the right border of the left tree and on the left border of the right tree can be short |
| `SplitOff.PillarRaise` | src/self_allocated_structs/btree/split.rs:74-89 | one more empty level above a pillar of empty nodes |
| `BTreeMap.SelfAllocatedBTreeMap.NewPillar` | src/self_allocated_structs/btree/split.rs:74-89 | a tree of empty nodes of the given height |
| `BTreeMap.SelfAllocatedBTreeMap.MoveSuffix` | src/self_allocated_structs/btree/node.rs:1805-1845 | the pairs and edges right of an edge go to the other node and their children are linked to it |
| `BTreeMap.SelfAllocatedBTreeMap.CutOneLevel` | src/self_allocated_structs/btree/split.rs:49-65 | one round of the loop |
| `BTreeMap.SelfAllocatedBTreeMap.CutLevels` | src/self_allocated_structs/btree/split.rs:49-65 | the loop down to the leaves |
| `BTreeMap.SelfAllocatedBTreeMap.SplitOff` | src/self_allocated_structs/btree/split.rs:34-71 | two valid trees of all the map's nodes, whose in-order walks are the pairs below the key and those not below it |
| `Borders.BorderMerge` | src/self_allocated_structs/btree/fix.rs:182-226 | merging on the border keeps every other node long enough, and the merged node is above the minimum |
| `Borders.BorderSteal` | src/self_allocated_structs/btree/fix.rs:182-226 | so does stealing one more than the minimum needs |
| `Borders.BorderDone` | src/self_allocated_structs/btree/fix.rs:101-113 | a border whose every node is long enough makes the tree valid |
| `BTreeMap.SelfAllocatedBTreeMap.FixTop` | src/self_allocated_structs/btree/fix.rs:87-98 | empty root levels are popped; the tree covers what it did |
| `BTreeMap.SelfAllocatedBTreeMap.FixRightChild` | src/self_allocated_structs/btree/fix.rs:207-226 | one level down the right border, to a child with more than the minimum, without a short node left behind |
| `BTreeMap.SelfAllocatedBTreeMap.FixLeftChild` | src/self_allocated_structs/btree/fix.rs:182-204 | the mirror image |
| `BTreeMap.SelfAllocatedBTreeMap.FixRightBorder` | src/self_allocated_structs/btree/fix.rs:101-113 | however short or empty the nodes on the right border were, the tree is valid, covers what it did, and other trees in the memory are as they were |
| `BTreeMap.SelfAllocatedBTreeMap.FixLeftBorder` | src/self_allocated_structs/btree/fix.rs:116-128 | the mirror image |
| `BulkPush.BTreePushing` | src/self_allocated_structs/btree/append.rs:15-41 | any B-tree meets what `bulk_push` keeps: what leaves the right border from now on is full, and what is on it from the beginning is long enough |
| `BulkPush.EmptyRootPushing` | src/self_allocated_structs/btree/append.rs:19-38 | so does an empty leaf |
| `BulkPush.PushLeaf` | src/self_allocated_structs/btree/append.rs:50-58 | a pair at the end of the last leaf keeps it |
| `BulkPush.ExtendPushing` | src/self_allocated_structs/btree/append.rs:59-96 | so does a pair at an open node with an empty tree right of it |
| `BulkPush.StockingStart` | src/self_allocated_structs/btree/fix.rs:133-140 | what is left of a short border node has at least ten pairs to give |
| `BulkPush.StockingSteal` | src/self_allocated_structs/btree/fix.rs:141-148 | a steal from such a neighbour leaves both at five or more |
| `BulkPush.StockingDone` | src/self_allocated_structs/btree/fix.rs:133-148 | at the leaves the tree is valid |
| `BTreeMap.SelfAllocatedBTreeMap.FindOpen` | src/self_allocated_structs/btree/append.rs:59-81 | from a full last leaf up to the first node with room, or a new root |
| `BTreeMap.SelfAllocatedBTreeMap.PushOpen` | src/self_allocated_structs/btree/append.rs:83-96 | the pair and an empty subtree of the right height go to it |
| `BTreeMap.SelfAllocatedBTreeMap.BulkPushOne` | src/self_allocated_structs/btree/append.rs:48-99 | one round: the sequence is the old one with the pair at the end |
| `BTreeMap.SelfAllocatedBTreeMap.FixRightBorderOfPlentiful` | src/self_allocated_structs/btree/fix.rs:133-148 | the steals make the tree valid without changing the sequence; no node is freed or added |
| `BTreeMap.SelfAllocatedBTreeMap.BulkPush` | src/self_allocated_structs/btree/append.rs:41-107 | the pairs follow the old ones in order, the tree is valid and the length is counted |
| `BTreeMap.SelfAllocatedBTreeMap.AppendFromSortedIters` | src/self_allocated_structs/btree/append.rs:9-36 | the union of two ascending sources follows the pairs of a tree with lesser keys, and the map gets their keys, the right one winning where both have a key |
| `BTreeMap.SelfAllocatedBTreeMap.AppendToRoot` | src/self_allocated_structs/btree/append.rs:15-36 | the same for any map with a root |
| `BTreeMap.SelfAllocatedBTreeMap.AppendToNewRoot` | src/self_allocated_structs/btree/append.rs:9-36 | the map is the union if there was none |
| `MergeIter.AppendedAsMap` | src/self_allocated_structs/btree/append.rs:15-36 | pairs followed by a union with greater keys ascend, and as a map are overridden by the left and then the right source |
| `MergeIter.MergeIterInner.Nexts` | src/self_allocated_structs/btree/merge_iter.rs:54-85 | the least remaining pair, from both sources if both have its key; what is left of each source, the peeked pair included |
| `MergeIter.MergeIterInner.Next` | src/self_allocated_structs/btree/append.rs:119-124 | the next pair of the union |
| `MergeIter.MergeIterInner.Collect` | src/self_allocated_structs/btree/append.rs:113-124 | drained, it yields the union |
| `MergeIter.UnionAscending` | src/self_allocated_structs/btree/merge_iter.rs:54-85 | the union of ascending sources is strictly ascending |
| `MergeIter.UnionPairs` | src/self_allocated_structs/btree/append.rs:119-124 | it has exactly the pairs of the right source and those of the left whose key the right does not have |
| `MergeIter.UnionAsMap` | src/self_allocated_structs/btree/append.rs:119-124 | as a map it is the left one overridden by the right one |
| `Search.FindKeyIndex` | src/self_allocated_structs/btree/search.rs:211-229 | everything before the index is smaller, and the result says whether the pair there has the key |
| `Search.SearchTree` | src/self_allocated_structs/btree/search.rs:49-80 | the pair with the key, with its rank, or the leaf edge at whose rank every pair before is smaller and every pair after greater |
| `Search.FindLowerBoundIndex` | src/self_allocated_structs/btree/search.rs:234-256 | the edge splits the node's keys at the bound, and the bound to go on with cuts every key that can be below the edge as the old one did |
| `Search.FindUpperBoundIndex` | src/self_allocated_structs/btree/search.rs:261-282 | the mirror image |
| `Search.EdgeRanks` | src/self_allocated_structs/btree/search.rs:83-149 | the ranks below an edge are those between the pairs beside it |
| `Search.FindBothIndices` | src/self_allocated_structs/btree/search.rs:112-123 | both edges in one node; they differ only if a pair in between is in the range |
| `Search.SearchTreeForBifurcation` | src/self_allocated_structs/btree/search.rs:83-149 | no fork exactly if the range is empty; otherwise the node where the bounds part |
| `Search.LowerBoundEdge` | src/self_allocated_structs/btree/search.rs:156-167 | one step down with a lower bound |
| `Search.UpperBoundEdge` | src/self_allocated_structs/btree/search.rs:170-181 | one step down with an upper bound |
| `Search.DescendBoth` | src/self_allocated_structs/btree/navigate.rs:287-306 | both sides reach leaf edges of the range's first and last rank |
| `Search.RangeRanks` | src/self_allocated_structs/btree/navigate.rs:273-307 | ranks that delimit exactly the keys in the range exist for any legal bounds |
| `Search.FindLeafEdgesSpanningRange` | src/self_allocated_structs/btree/navigate.rs:273-307 | panics exactly for bounds no caller may ask for; gives none exactly if no key is in the range; otherwise leaf edges whose ranks delimit exactly the keys in the range |
| `IntoIter.IntoIter.constructor` | src/self_allocated_structs/btree/map.rs:283-305 | a lazy range over the whole tree, nothing freed |
| `IntoIter.IntoIter.DeallocateAndAscend` | src/self_allocated_structs/btree/node.rs:438-464 | frees one node, counted, and gives its parent edge |
| `IntoIter.IntoIter.AscendFront` | src/self_allocated_structs/btree/navigate.rs:468-499 | going up at the front frees exactly the nodes that have nothing right of the edge any more |
| `IntoIter.IntoIter.AscendBack` | src/self_allocated_structs/btree/navigate.rs:502-526 | the mirror image |
| `IntoIter.IntoIter.DeallocatingNextUnchecked` | src/self_allocated_structs/btree/navigate.rs:613-624 | the front pair is the next of the sequence |
| `IntoIter.IntoIter.DeallocatingNextBackUnchecked` | src/self_allocated_structs/btree/navigate.rs:636-645 | the back pair is the last of what is left |
| `IntoIter.IntoIter.DeallocatingEnd` | src/self_allocated_structs/btree/navigate.rs:529-541 | where front and back have met, the pile of nodes up to the root is freed |
| `IntoIter.IntoIter.DyingNext` | src/self_allocated_structs/btree/map.rs:560-574 | in any interleaving with the other end: the next pair in order, and the memory holds exactly the nodes with an edge between front and back; when nothing is left, every node was freed, each once |
| `IntoIter.IntoIter.DyingNextBack` | src/self_allocated_structs/btree/map.rs:576-588 | the mirror image |
| `IntoIter.IntoIter.Drop` | src/self_allocated_structs/btree/map.rs:548-555 | dropping the iterator, however far it came, frees every node that was left, each once |
| `IntoIter.DropTree` | src/self_allocated_structs/btree/map.rs:283-305 | the same from the start, for a whole tree |
| `IntoIter.FrontStep` | src/self_allocated_structs/btree/navigate.rs:468-499 | freeing the node whose last edge is the front's leads to a parent edge of the same rank |
| `IntoIter.PileStep` | src/self_allocated_structs/btree/navigate.rs:529-541 | freeing one node of the last pile leads to the next, or was the root |
| `Region.ParseRegion` | src/region.rs:127-152 | the cursor yields the seven common and the 63 large chunks at their places |
| `Region.ChunksTile` | src/region.rs:127-152 | after the metadata chunk every address of a region is in exactly one chunk, and no chunk reaches outside |
| `Region.RegionAndUnit` | src/region.rs:155-175 | clearing the low bits of any address in a region gives its start, and the division its chunk's number |
| `Region.MetadataSlots` | src/region.rs:161-175 | records lie in the metadata chunk; two addresses share one exactly if they are in the same common width; different records do not overlap |
| `Region.Metadata.InitMetadataForCommonChunk` | src/region.rs:177-196 | from any address of the chunk: every address of it resolves to the record, and records of addresses elsewhere are as they were |
| `Region.Metadata.InitMetadataForLargeChunk` | src/region.rs:198-221 | the eight records from the one of the address given, and no other |
| `Region.LargeChunkResolves` | src/region.rs:198-221 | over fresh records, the whole large chunk resolves to the record exactly if the address given is in the chunk's first common width: from its start it does, from a later slot it does not |
| `Region.WrittenResolves` | src/region.rs:198-221 | records written from a chunk's start on serve the whole chunk |
| `Region.OthersKept` | src/region.rs:198-221 | and no address outside the width written |
| `Carving.Carve` | src/thread_local_allocator/thread_local_allocator.rs:454-471 | stepping through a chunk yields its slots in order, all but the last, and the last one inside the chunk |
| `Carving.AllocCommonSlow` | src/thread_local_allocator/thread_local_allocator.rs:454-490 | the metadata written from the last slot of a common chunk serves the whole chunk |
| `Carving.AllocLargeSlow` | src/thread_local_allocator/thread_local_allocator.rs:558-591 | for a large chunk it is written from the last slot |
| `Carving.LastSlotFar` | src/thread_local_allocator/thread_local_allocator.rs:558-574 | which is more than a common width past the start for every large size |
| `Carving.LastSlotMisses` | src/thread_local_allocator/thread_local_allocator.rs:558-587 | so for every large size the chunk does not resolve, its start has no record, and the next chunk's first record is overwritten |
| `Ownership.InitMetadata` | src/thread_local_allocator/thread_local_self_alloc_impl.rs:771-775 | every address of the used chunk leads to its owner and vector, all others to what they did |
| `Ownership.InitAllMetadata` | src/thread_local_allocator/thread_local_self_alloc_impl.rs:757-824 | the same for a list of used chunks, none of which spoils another's records |
| `Ownership.AllStillLead` | src/thread_local_allocator/thread_local_self_alloc_impl.rs:801-805 | nor do large chunks spoil those of common ones |
| `Ownership.UsedChunksFit` | src/thread_local_allocator/thread_local_self_alloc_impl.rs:757-824 | in every state of the chain the used chunks start where records are kept and do not overlap |
| `Region.WrittenAt` | src/region.rs:210-220 | which records the loop wrote |
| `Region.SplitLargeChunkToCommon` | src/sizes/large.rs:62-74 | the eight common chunks of a large one |
| `Chunks.SlotsApart` | src/thread_local_allocator/thread_local_self_alloc_impl.rs:305-401 | slots handed out of any chunks of the chain do not overlap |
| `Chunks.SlotInChunk` | src/thread_local_allocator/thread_local_self_alloc_impl.rs:305-401 | and lie in their chunk |
| `Chunks.ListsFit` | src/thread_local_allocator/thread_local_self_alloc_impl.rs:305-340 | used and free common chunks, and eight units for each large one, never exceed what a region has, so unchecked pushes have room |
| `Chunks.NewChunks` | src/thread_local_allocator/thread_local_self_alloc_impl.rs:67-108 | the chunks of a fresh state do not overlap and lie in its region |
| `Chunks.TakeFreeCore` | src/thread_local_allocator/thread_local_self_alloc_impl.rs:225-302 | popping a free chunk keeps the chain's invariant: every chunk in one list at most, no overlap, the slots given out are those not counted free |
| `Chunks.PutInUseCore` | src/thread_local_allocator/thread_local_self_alloc_impl.rs:305-340 | so does putting a chunk into use and handing out its last slot, which nobody had |
| `Chunks.TakeSlotCore` | src/thread_local_allocator/thread_local_self_alloc_impl.rs:347-401 | and handing out one more slot of a used chunk |
| `Chunks.RefillCore` | src/thread_local_allocator/thread_local_self_alloc_impl.rs:277-292 | and dividing a large chunk into a state's free common ones |
| `Chunks.AddStateCore` | src/thread_local_allocator/thread_local_self_alloc_impl.rs:187-222 | and adding a state for a new region |
| `Chunks.DropFirst` | src/thread_local_allocator/thread_local_self_alloc_impl.rs:826-836 | and taking the first state off the chain |
| `Bootstrap.StateChain.constructor` | src/thread_local_allocator/thread_local_self_alloc_impl.rs:67-108 | one state, for a fresh region |
| `Bootstrap.StateChain.AllocNewState` | src/thread_local_allocator/thread_local_self_alloc_impl.rs:187-222 | a state goes to the end of a chain whose last state has no large chunk left, and is in a slot of the chain or of its own region that was given to nobody else |
| `Bootstrap.StateChain.HostItself` | src/thread_local_allocator/thread_local_self_alloc_impl.rs:211-219 | a fresh state can always serve its own allocation |
| `Bootstrap.StateChain.GetFreeLargeChunk` | src/thread_local_allocator/thread_local_self_alloc_impl.rs:225-252 | fails exactly if the last state has no large chunk and the system refuses a region; one is added exactly if it has none |
| `Bootstrap.StateChain.GetFreeCommonChunk` | src/thread_local_allocator/thread_local_self_alloc_impl.rs:264-302 | the same for a common chunk; when a region was added for it, the units out of lists tell that the large chunk taken for dividing is in none |
| `Bootstrap.StateChain.TakeCommon` | src/thread_local_allocator/thread_local_self_alloc_impl.rs:266-272 | the first state from a place on that has a free common chunk gives its last one; none exactly if no state has |
| `Bootstrap.StateChain.DivideLargeChunk` | src/thread_local_allocator/thread_local_self_alloc_impl.rs:274-302 | the part after the last state was found without a common chunk |
| `Bootstrap.StateChain.Refill` | src/thread_local_allocator/thread_local_self_alloc_impl.rs:277-292 | the large chunk's pieces become the state's free common chunks |
| `Bootstrap.StateChain.PushUsed` | src/thread_local_allocator/thread_local_self_alloc_impl.rs:305-340 | the slot given is new and in the chunk; at most one chunk of the size has free slots exactly if none had |
| `Bootstrap.StateChain.TryAllocSize` | src/thread_local_allocator/thread_local_self_alloc_impl.rs:347-401 | a free slot anywhere in the chain, not given before; none exactly if no chunk of this size has one |
| `Bootstrap.StateChain.TakeSlotAt` | src/thread_local_allocator/thread_local_self_alloc_impl.rs:347-401 | the last free slot of one used chunk |
| `Bootstrap.StateChain.AllocSizeSlow` | src/thread_local_allocator/thread_local_self_alloc_impl.rs:305-340 | with no free slot of this size: a slot of a new chunk; none exactly if nothing is left and the system refuses |
| `Bootstrap.StateChain.AllocSize` | src/thread_local_allocator/thread_local_self_alloc_impl.rs:404-416 | a slot that was never given, of the size asked for; none exactly if the chain has nothing left and the system refuses a region; a region is added exactly if the chain has nothing left and the system gives one; at most one chunk of each size has free slots afterwards exactly if it is not an object of a state's own size for which the chain had to grow; exactly then too, for a common size, a large chunk drops out of the lists |
| `Bootstrap.StateChain.FromNewState` | src/thread_local_allocator/thread_local_self_alloc_impl.rs:240-251 | with no large chunk left: one from a new state, or none exactly if the system refuses |
| `Exhaustion.TakeAllLarge` | src/thread_local_allocator/thread_local_self_alloc_impl.rs:225-252 | from a fresh region 63 large chunks can be taken, and no region is added |
| `Exhaustion.TakeAll` | src/thread_local_allocator/thread_local_self_alloc_impl.rs:264-302 | and then seven common ones |
| `Exhaustion.FirstRequest` | src/thread_local_allocator/thread_local_self_alloc_impl.rs:404-416 | from a fresh region the first request of any size is served, with a slot of that region, and the system is not asked |
| `Exhaustion.SlotInRegion` | src/thread_local_allocator/thread_local_self_alloc_impl.rs:305-340 | a slot handed out lies in its state's region, past the metadata |
| `Exhaustion.TwoChunksForStates` | src/thread_local_allocator/thread_local_self_alloc_impl.rs:187-222 | when these are taken and the system gives another region, a request for a state's size leaves two chunks of that size with free slots |
| `Exhaustion.LargeChunkLost` | src/thread_local_allocator/thread_local_self_alloc_impl.rs:274-302 | and when all are taken, a request for a common object leaves a large chunk of the new region in no list, though nobody has a chunk of it |
| `Bootstrap.PutInUseChain` | src/thread_local_allocator/thread_local_self_alloc_impl.rs:305-340 | a chunk put into use for a size of which no chunk had free slots keeps the chain valid and adds exactly its last slot to those given |
| `Bootstrap.AddedIff` | src/thread_local_allocator/thread_local_self_alloc_impl.rs:305-340 | a chunk put into use keeps the number at one exactly if no chunk of the size had free slots |
| `Bootstrap.StateChain.TakeFirst` | src/thread_local_allocator/thread_local_self_alloc_impl.rs:826-836 | the first state leaves and the rest is a valid chain |
| `Bootstrap.AtMostOneAdded` | src/thread_local_allocator/thread_local_self_alloc_impl.rs:305-340 | a new chunk for a size of which no chunk had free slots keeps the number at one |
| `Bootstrap.AtMostOneKept` | src/thread_local_allocator/thread_local_self_alloc_impl.rs:347-401 | chunks that only lose slots keep it |
| `Bootstrap.FreshRegion` | src/region.rs:22-44 | an aligned block that is not mapped exists; this is all that is assumed of the system |
| `HandleState.OneChunkOnly` | src/thread_local_allocator/thread_local_self_alloc_impl.rs:674-735 | with at most one chunk of a vector having free slots, the vector's free slots are one chunk's |
| `HandleState.RoomSuffices` | src/thread_local_allocator/thread_local_self_alloc_impl.rs:674-756 | then room for each chunk alone, which is what a pass checks, is room for all, which is what a commit needs |
| `HandleState.RoomForEachIsNotEnough` | src/thread_local_allocator/thread_local_self_alloc_impl.rs:674-756 | without it, for two chunks of one vector, of the same size or not, a pass can find room for each while the commit's second push would fail |
| `HandleState.ChainOneFree` | src/thread_local_allocator/thread_local_self_alloc_impl.rs:347-401 | the chain's invariant gives exactly that for each state's lists, if no two sizes asked for share a vector |
| `HandleState.FreeSlotsUntouched` | src/thread_local_allocator/thread_local_self_alloc_impl.rs:757-824 | of a used chunk exactly the slots not below the free count were handed out, and a slot that a commit pushes overlaps none of them |
| `HandleState.ChainLeftOver` | src/thread_local_allocator/thread_local_self_alloc_impl.rs:757-824 | the same for every used chunk of a state |
| `HandleState.Committer.Reserve` | src/self_allocated_structs/self_vec.rs:170-195 | allocates exactly if there is no room, and then there is; otherwise nothing changed |
| `HandleState.Committer.ReserveObjects` | src/thread_local_allocator/thread_local_self_alloc_impl.rs:677-717 | the walk over the used chunks allocates exactly if there is no room for one of them |
| `HandleState.Committer.ReserveChunks` | src/thread_local_allocator/thread_local_self_alloc_impl.rs:719-745 | the walk over the counted chunks allocates exactly if there is no room for those of one size |
| `HandleState.Committer.ReserveUsed` | src/thread_local_allocator/thread_local_self_alloc_impl.rs:677-745 | both for both kinds of chunks |
| `HandleState.Committer.PrepareToHandleState` | src/thread_local_allocator/chunk_manager.rs:124-190 | the chunk manager's part allocates exactly if its views or its lists have no room |
| `HandleState.ChunkRoomSuffices` | src/thread_local_allocator/thread_local_self_alloc_impl.rs:719-745 | which is room for each vector if sizes do not share vectors |
| `HandleState.RoomAtCommit` | src/thread_local_allocator/thread_local_self_alloc_impl.rs:674-756 | so that what a quiet pass has checked is what the commit needs |
| `HandleState.Committer.Pass` | src/thread_local_allocator/thread_local_self_alloc_impl.rs:674-753 | a pass allocates exactly if something the commit will push has no room; otherwise it leaves everything as it was |
| `HandleState.Committer.HandleState` | src/thread_local_allocator/thread_local_self_alloc_impl.rs:672-842 | every commit made gives the tables exactly what had been handed to nobody; the regions of the chain are committed in order, and when it is done, all of them; the slots given back are those of the states read, in order; if the first pass finds room, it commits; and if there is room for all states, as many passes as states are enough, and exactly the ninth successor makes it too many states |
| `HandleState.Committer.Round` | src/thread_local_allocator/thread_local_self_alloc_impl.rs:674-832 | a pass, and one commit exactly if there was room for all of it |
| `HandleState.Committer.Turn` | src/thread_local_allocator/thread_local_self_alloc_impl.rs:674-836 | a round, and after a commit the next state, the end, or too many states |
| `HandleState.Committer.Turns` | src/thread_local_allocator/thread_local_self_alloc_impl.rs:672-842 | the loop of these |
| `HandleState.RoomForFirst` | src/thread_local_allocator/thread_local_self_alloc_impl.rs:674-756 | room for what all states will push is room for the first |
| `HandleState.RoomForRest` | src/thread_local_allocator/thread_local_self_alloc_impl.rs:757-832 | and after its commit room for the rest |
| `HandleState.Committer.WriteMetadata` | src/thread_local_allocator/thread_local_self_alloc_impl.rs:757-824 | every address of a used chunk of the first state leads to the owner and the chunk's vector, and all other records are as they were |
| `HandleState.Committer.CommitFirst` | src/thread_local_allocator/thread_local_self_alloc_impl.rs:757-832 | one commit: the slots pushed are the never handed out ones, in order, after a quiet pass, and the chunks' records are written |
| `HandleState.Committer.CommitSlots` | src/thread_local_allocator/thread_local_self_alloc_impl.rs:763-771 | the free slots of one used chunk go to its vector; no push fails |
| `HandleState.Committer.CommitUsed` | src/thread_local_allocator/thread_local_self_alloc_impl.rs:757-820 | all used chunks of a list; no push fails |
| `HandleState.Committer.TryPush` | src/self_allocated_structs/self_vec.rs:198-208 | fails exactly if there is no room |
| `HandleState.Committer.TryExtendFromSlice` | src/self_allocated_structs/self_vec.rs:260-272 | fails exactly if there is not room for all |
| `HandleState.Committer.ManagerHandleState` | src/thread_local_allocator/chunk_manager.rs:192-231 | the region's view and the free chunks are appended; no push fails |
| `Vectors.VectorIff` | src/thread_local_allocator/thread_local_self_alloc_impl.rs:681-707 | two sizes, common or large, share a vector exactly if they are rounded to the same size |
| `Vectors.OwnVectorsIff` | src/thread_local_allocator/thread_local_self_alloc_impl.rs:681-707 | sizes have vectors of their own exactly if no two of them are rounded to the same size |
| `Vectors.ClassesAndState` | src/thread_local_allocator/thread_local_self_alloc_impl.rs:187-219 | class sizes and the size of a state, which is not rounded, do exactly if that is a class size, too, or its class size is not asked for |
| `Vectors.StateIsNoClass` | src/thread_local_allocator/thread_local_self_alloc_impl.rs:190-191 | with the tables shipped a state's size is no class size and shares the vector of 14848 |
| `Vectors.CellsForAllClasses` | src/thread_local_allocator/thread_local_allocator.rs:81-89 | class sizes are no more than vectors, so the counter table has a cell for each |
| `Handover.StateLists` | src/thread_local_allocator/chunk_manager.rs:192-231 | the free chunks of every state of a chain are of its own region and share no units: what the chunk manager asks of a committed state |
| `Handover.UsedUnlisted` | src/thread_local_allocator/thread_local_self_alloc_impl.rs:757-824 | and its used chunks are of its region and none of them |
| `Handover.TakeOver` | src/thread_local_allocator/chunk_manager.rs:192-231 | the chunk manager takes over the first state: all units of the region are counted, the free chunks are listed, and the used ones are chunks handed out |
| `SelfVec.SelfAllocatedVec.constructor` | src/self_allocated_structs/self_vec.rs:18-20 | empty, without a buffer |
| `SelfVec.SelfAllocatedVec.Reserve` | src/self_allocated_structs/self_vec.rs:170-183 | the vector it leads to and its result are exactly what the nested edits come to in the state reached by each of them; a capacity is zero or a power of two; on success it covers the length it has then and the request, and grown without nested edits it is less than twice that |
| `SelfVec.SelfAllocatedVec.ReserveSlow` | src/self_allocated_structs/self_vec.rs:90-166 | the same for the loop: exactly the attempts that it makes, which end once nothing more goes on |
| `SelfVec.SelfAllocatedVec.GrowFrom` | src/self_allocated_structs/self_vec.rs:100-166 | the loop itself |
| `Buffers.NextPowerOfTwo` | src/self_allocated_structs/self_vec.rs:53-56 | a power of two that is enough and less than twice as much |
| `Buffers.LeastPower` | src/self_allocated_structs/self_vec.rs:53-56 | the least one |
| `Buffers.BufferCells` | src/self_allocated_structs/self_vec.rs:48-57 | bytes rounded to a power of two and then to a size class are those of as many cells as the least power of two that is enough, for cells of a power of two of bytes |
| `SelfVec.SelfAllocatedVec.Attempt` | src/self_allocated_structs/self_vec.rs:104-165 | one attempt: retried exactly if elements turned up beyond the new capacity, failed exactly if refused otherwise; what was allocated in vain or replaced is freed, and the edits meanwhile happen to the vector as it is by then |
| `SelfVec.SelfAllocatedVec.Push` | src/self_allocated_structs/self_vec.rs:211-227 | the element comes after whatever was edited while the vector grew, comes exactly if the room was reserved, and is then the last |
| `SelfVec.SelfAllocatedVec.Run` | src/self_allocated_structs/self_vec.rs:104-155 | nested edits are applied one after the other, all of them |
| `SelfVec.SelfAllocatedVec.Move` | src/self_allocated_structs/self_vec.rs:124-152 | contents and history are the same in the new buffer |
| `SelfVec.SelfAllocatedVec.TryPush` | src/self_allocated_structs/self_vec.rs:198-208 | pushes exactly if there is room |
| `SelfVec.SelfAllocatedVec.Pop` | src/self_allocated_structs/self_vec.rs:248-258 | the last element, if there is one |
| `SelfVec.SelfAllocatedVec.SwapRemove` | src/self_allocated_structs/self_vec.rs:294-304 | the element is returned and the last one takes its place |
| `SelfVec.ReservedSound` | src/self_allocated_structs/self_vec.rs:90-183 | a reservation keeps contents and history together, undoes nothing, never takes room away, and leaves the room asked for if it succeeds |
| `SelfVec.PlainReserve` | src/self_allocated_structs/self_vec.rs:90-183 | with nothing going on meanwhile: nothing changes if there is room, and otherwise the capacity becomes the least power of two that is enough, and there is no other change |
| `SelfVec.PlainEdits` | src/self_allocated_structs/self_vec.rs:90-258 | edits whose reservations are granted and undisturbed come to what the same edits of a plain sequence come to |
| `SelfVec.FailsOnlyIfRefused` | src/self_allocated_structs/self_vec.rs:122-124 | it fails only if there was no room and an allocation was refused |
| `SelfVec.RefusedDespiteRoom` | src/self_allocated_structs/self_vec.rs:110-124 | and then it does even if nested edits have made the room meanwhile: an input for that |
| `SelfVec.NoPushLost` | src/self_allocated_structs/self_vec.rs:90-227 | edits whose own growth is not refused: every push among them comes to be, in their order |
| `SelfVec.PushedInAttempt` | src/self_allocated_structs/self_vec.rs:103-155 | what is pushed in an attempt, while memory is allocated and while it is freed, comes to be in order |
| `SelfVec.PushedWhileGrowing` | src/self_allocated_structs/self_vec.rs:90-166 | so does everything pushed in all attempts of growing |
| `ChunkManager.ChunkUnits` | src/thread_local_allocator/chunk_manager.rs:233-275 | a chunk is one unit or eight, all of its own region |
| `ChunkManager.FreedCounted` | src/thread_local_allocator/chunk_manager.rs:233-275 | taking a freed chunk's width off its region's count is no underflow and leaves every count equal to the region's live units |
| `ChunkManager.EmptyGone` | src/thread_local_allocator/chunk_manager.rs:247-252 | after the swap-remove of an empty region's view, exactly that view is gone and all counts are right |
| `ChunkManager.RegionAdded` | src/thread_local_allocator/chunk_manager.rs:216-222 | a new region counts all its units, none of which was live |
| `ChunkManager.ViewIffLive` | src/thread_local_allocator/chunk_manager.rs:233-275 | a region has a view exactly as long as it has a unit not yet freed |
| `ChunkManager.Manager.constructor` | src/thread_local_allocator/chunk_manager.rs:28-35 | no region, nothing live |
| `ChunkManager.Manager.FreeChunk` | src/thread_local_allocator/chunk_manager.rs:233-275 | the chunk's units are not live any more; the region is released exactly if none of it is left, and the other views are as they were |
| `ChunkManager.Manager.TakeOff` | src/thread_local_allocator/chunk_manager.rs:244-252 | the counter's part of it |
| `ChunkManager.Manager.FreeHeld` | src/thread_local_allocator/chunk_manager.rs:233-275 | the same for a chunk that was handed out |
| `ChunkManager.Manager.TryGetCommonChunk` | src/thread_local_allocator/chunk_manager.rs:108-110 | the last free common chunk, live and in no list any more |
| `ChunkManager.Manager.TryGetLargeChunk` | src/thread_local_allocator/chunk_manager.rs:61-63 | the same for a large one |
| `ChunkManager.Manager.GetCommonFromLarge` | src/thread_local_allocator/chunk_manager.rs:78-106 | with a large chunk in hand: the common one that turned up meanwhile, and the large one goes back; or its eighth piece, and the other seven follow whatever came to the list while it grew; without room for them none, and then the large chunk is live but in no list |
| `ChunkManager.Manager.Happen` | src/thread_local_allocator/chunk_manager.rs:192-285 | a commit, a chunk taken or a chunk freed, while other chunks are in hand: these stay live and in no list |
| `ChunkManager.Manager.Meanwhile` | src/thread_local_allocator/chunk_manager.rs:96-106 | any number of those, one after the other |
| `ChunkManager.PiecesListed` | src/thread_local_allocator/chunk_manager.rs:94-105 | seven pieces of a large chunk join the lists in its place, and the eighth shares units with none |
| `ChunkManager.Manager.HandleState` | src/thread_local_allocator/chunk_manager.rs:192-231 | a committed region: all its units are live, its chunks in the lists share none |
| `ChunkManager.Manager.FreeUnusedMemory` | src/thread_local_allocator/chunk_manager.rs:277-285 | exactly the units of the listed chunks are freed, and exactly the regions of which nothing is left then are released, each once |
| `ChunkManager.Manager.FreeCommonList` | src/thread_local_allocator/chunk_manager.rs:277-280 | the part for common chunks |
| `ChunkManager.Manager.FreeLargeList` | src/thread_local_allocator/chunk_manager.rs:281-284 | and for large ones |
| `ChunkManager.Manager.FreeAllMemory` | src/thread_local_allocator/chunk_manager.rs:287-311 | every region that there is is released, each once, and nothing is left |
| `ChunkManager.ReleasedOne` | src/thread_local_allocator/chunk_manager.rs:247-252 | a freed chunk releases its region exactly if it was the last of it |
| `ChunkManager.ReleasedTwice` | src/thread_local_allocator/chunk_manager.rs:277-285 | two stretches of freeing that each release exactly what they emptied do so together |
| `Release.UsedObjects.BinarySearch` | src/thread_local_allocator/numbers_of_used_objects_with_size.rs:18-41 | the entry of the size, or where it belongs |
| `Release.UsedObjects.FindSize` | src/thread_local_allocator/numbers_of_used_objects_with_size.rs:49-58 | the exact count of the size |
| `Release.UsedObjects.WriteUsedNumberAndSize` | src/thread_local_allocator/numbers_of_used_objects_with_size.rs:62-88 | the count of the size goes up by the number, no other does, and the table stays sorted |
| `Release.UsedObjects.ShiftRight` | src/thread_local_allocator/numbers_of_used_objects_with_size.rs:76-84 | in place: the entries from the index on move by one |
| `Release.UsedObjects.WriteWithin` | src/thread_local_allocator/numbers_of_used_objects_with_size.rs:62-88 | the same for one of a set of sizes that the table has a cell for each of |
| `Release.UsedObjects.WriteSizes` | src/thread_local_allocator/thread_local_allocator.rs:162-192 | after counting one object for each size of a list every size has its exact total |
| `Release.UsedObjects.WriteAll` | src/thread_local_allocator/thread_local_allocator.rs:194-196 | the same for sizes with numbers |
| `Release.CellsEnough` | src/thread_local_allocator/numbers_of_used_objects_with_size.rs:76 | a sorted table has a cell left for every size that is not in it yet |
| `Release.AllocatedForSelf` | src/thread_local_allocator/thread_local_allocator.rs:150-199 | the table has for every size exactly the number of the allocator's own objects: boxes, buffers of vectors and nodes of its map |
| `Release.SortedCount` | src/thread_local_allocator/numbers_of_used_objects_with_size.rs:18-41 | in a sorted table one entry holds all of a size |
| `Release.Overcount` | src/thread_local_allocator/info_for_size.rs:137-141 | the computed number of objects is the real one plus what the chunks' remainders add up to, so never too small |
| `Release.TestExact` | src/thread_local_allocator/thread_local_allocator.rs:799-810 | the test passes exactly if no object is with a user or in flight and the remainders add up to less than one object |
| `Release.IdleButNotReleased` | src/thread_local_allocator/info_for_size.rs:137-141 | two idle chunks of 24-byte objects for which it never passes |
| `Release.TryFreeAllMemory` | src/thread_local_allocator/thread_local_allocator.rs:789-834 | with its own objects counted part by part: not yet exactly if for some size an object is with a user or in flight or the remainders add up to an object; released only with no object out, and only without extra-large entries |
| `ReturnProtocol.FreeForeignInv` | src/non_local_ptr_manager/lock_free_manager.rs:89-105 | freeing a foreign pointer keeps the invariant |
| `ReturnProtocol.CasInv` | src/non_local_ptr_manager/lock_free_manager.rs:38-54 | so does any round of the compare-and-swap loop, successful, failed or spurious |
| `ReturnProtocol.TakeListInv` | src/non_local_ptr_manager/lock_free_manager.rs:107-116 | and the swap that takes the whole list, also while the thread is still half way through a list it took before |
| `ReturnProtocol.ReadInv` | src/non_local_ptr_manager/lock_free_manager.rs:117-134 | and reading the next node of a taken list, which may come home |
| `ReturnProtocol.DeliverInv` | src/non_local_ptr_manager/lock_free_manager.rs:134-158 | and delivering the pointer that was read and turning its node around |
| `ReturnProtocol.NextInv` | src/non_local_ptr_manager/lock_free_manager.rs:38-160 | every step of any thread keeps the invariant |
| `ReturnProtocol.RunInv` | src/non_local_ptr_manager/lock_free_manager.rs:38-160 | it holds throughout every run of any number of threads, each of which may drain any number of lists at a time |
| `ReturnProtocol.NextSomewhere` | src/non_local_ptr_manager/lock_free_manager.rs:38-160 | no step makes a pointer or loses one, but for the slots it commits |
| `ReturnProtocol.NothingLost` | src/non_local_ptr_manager/lock_free_manager.rs:38-160 | in every state of every run the slots with users, in tables, in messages and as nodes are exactly those that were ever committed |
| `ReturnProtocol.DeliveredToOwner` | src/non_local_ptr_manager/lock_free_manager.rs:119-134 | a delivery puts what was read into its owner's table, where it was not, and it is on its way no more |
| `ReturnProtocol.NeverStuck` | src/non_local_ptr_manager/lock_free_manager.rs:38-160 | an activation that has begun to push or to drain can always go on |
| `ReturnProtocol.OnTheWay` | src/non_local_ptr_manager/lock_free_manager.rs:89-160 | only freeing sends a pointer or a node on its way, and only a delivery takes it off |
| `ReturnProtocol.ArrivesIff` | src/non_local_ptr_manager/lock_free_manager.rs:119-134 | a pointer gets from a message to its owner's table, and a node comes home, exactly by a delivery |
| `ReturnProtocol.DeliveredOnce` | src/non_local_ptr_manager/lock_free_manager.rs:89-160 | in every state of every run a pointer got to its owner's table as often as it was freed, less one while it is on its way, and a node came home as often as it was sent, less one while it is in transit |
| `ReturnProtocol.OnePlaceOnly` | src/thread_local_allocator/thread_local_allocator.rs:671-720 | a pointer is with a user, in its owner's table, in one message, or a message's node: never two of these |
| `ReturnProtocol.SelfAddressedIff` | src/non_local_ptr_manager/lock_free_manager.rs:117-158 | a message names its own node exactly if the list belongs to the node's owner, and otherwise names a pointer of the list's owner |
| `ReturnProtocol.ReadOwnNodes` | src/non_local_ptr_manager/lock_free_manager.rs:117-158 | the node read next is in no list, in nobody's hand and in no table |
| `ReturnProtocol.ReadStillStands` | src/non_local_ptr_manager/lock_free_manager.rs:117-158 | what was read of a node is still what the node has when the drain gets back to it, whatever drains went on in between |
| `ReturnProtocol.NoPingPong` | src/non_local_ptr_manager/lock_free_manager.rs:117-158 | twice the outgoing plus the returning messages goes down by one with each message handled and up only by freeing |
| `ReturnProtocol.QuietMeansDelivered` | src/non_local_ptr_manager/lock_free_manager.rs:89-160 | with all idle and all lists empty, every slot ever committed is with a user or in its owner's table, and what was freed has arrived as often as it was freed |
| `ReturnProtocol.StepsCount` | src/non_local_ptr_manager/lock_free_manager.rs:38-160 | what is left to do goes down by exactly one with each push, read and delivery and by the length of a list that is taken, stays with a failed compare-and-swap, and goes up by eight with a pointer freed on a foreign thread |
| `ReturnProtocol.EightEach` | src/non_local_ptr_manager/lock_free_manager.rs:38-160 | in every state of every run what was done and what is left make eight for each pointer so freed |
| `ReturnProtocol.Ahead` | src/non_local_ptr_manager/lock_free_manager.rs:38-160 | unless all is quiet, some step gets further; a compare-and-swap fails without a spurious failure only if the head had changed |
| `ReturnProtocol.Finish` | src/non_local_ptr_manager/lock_free_manager.rs:107-160 | from any state that a run can reach, draining comes to an end at which all is quiet, if each thread can do something |
| `ReturnProtocol.AllCanComeHome` | src/non_local_ptr_manager/lock_free_manager.rs:89-160 | so every run can be continued, by draining alone, to a state in which every slot committed is in its owner's table, but for those that users have already |
| `SizeClasses.HighBit` | src/sizes/large.rs:49 | the highest bit set |
| `SizeClasses.BucketOfSize` | src/sizes/large.rs:49-53 | every size above 16 is in the bucket of its id, and rounding up to the bucket's end loses less than a sixteenth of it |
| `SizeClasses.BucketIff` | src/sizes/large.rs:49-53 | a size has an id exactly if it is above the bucket's lower end and not above its upper end |
| `SizeClasses.BucketsMeet` | src/sizes/large.rs:49-53 | buckets follow one another without a gap |
| `SizeClasses.IdMonotone` | src/sizes/large.rs:49-53 | a larger size never has a smaller id |
| `SizeClasses.LargeHasRealId` | src/sizes/large.rs:364 | the id of every large size is in the tables |
| `SizeClasses.EntryCovers` | src/sizes/large.rs:207-228 | the size given for a bucket holds every size in it and is no more than the largest |
| `SizeClasses.EntriesAscend` | src/sizes/large.rs:207-258 | sizes ascend with ids, and buckets share a vector exactly if they share a size |
| `SizeClasses.ShortcutAgrees` | src/sizes/large.rs:326-366 | for powers of two the shortcut gives what the tables give, and its index is in its table |
| `SizeClasses.ShortcutTable` | src/sizes/large.rs:341-354 | the constant loop's table |
| `SizeClasses.PowerId` | src/sizes/large.rs:341-353 | the id of a power of two is the last of a row |
| `SizeClasses.RecommendedCovers` | src/sizes/size_class.rs:24-36 | no less than asked for, and of the same class |
| `SizeClasses.RecommendedMonotone` | src/sizes/size_class.rs:24-36 | monotone |
| `SizeClasses.RecommendedIdempotent` | src/sizes/size_class.rs:24-36 | idempotent |
| `SizeClasses.RecommendedIsLeast` | src/sizes/size_class.rs:24-36 | the least class size that is no less than the size |
| `SizeClasses.PowersAreGiven` | src/self_allocated_structs/self_vec.rs:53-56 | powers of two from eight on are class sizes |
| `SizeClasses.LargeVectorIff` | src/sizes/large.rs:275-280 | two large sizes share a vector of free objects exactly if they are given the same size |
| `SizeClasses.CommonVectorIff` | src/sizes/common.rs:20-22 | the same for common sizes, and the index is in the table |
| `SizeTables.Winner` | src/sizes/large.rs:207-228 | a bucket's size is the end of a bucket at or after it, whose size it is too |
| `SizeTables.Covers` | src/sizes/large.rs:207-228 | so it is no less than the bucket's end |
| `SizeTables.Ascend` | src/sizes/large.rs:207-258 | sizes do not fall, and vectors change exactly where sizes do |
| `SizeTables.CollectRealSizes` | src/sizes/large.rs:239-258 | the constant loop that collects the sizes by vector |
| `SizeTables.VectorOfBucket` | src/sizes/large.rs:229-258 | a bucket's objects are kept in the vector whose size is the bucket's |
| `ShippedTables.ShippedFit` | src/sizes/large.rs:207-238 | the tables as they are have everything that is asked of tables above |
| `ShippedTables.VectorOfId` | src/sizes/large.rs:239-258 | there are 88 sizes, and each id's vector has the id's size |

## Left out

- HandleState.Committer.HandleState: does not bound the number of passes, which the source does not either; a parameter does, and the result says whether it was enough. The slots of the states read are returned as a list; what freeing them does to the tables is left out.
- SelfVec.SelfAllocatedVec.ReserveSlow: the freed buffers are not modelled as memory that could be handed out again.
- BTreeMap.SelfAllocatedBTreeMap.BulkPush: takes the pairs as a sequence instead of an iterator that may panic half way.
- ReturnProtocol.AllCanComeHome: states that a run can be finished, not that it will be: a compare-and-swap may fail any number of times, and no thread has to look at its list.
- Parent links are not part of the array records; the map's methods correct them in the node memory.
- Iterators that only read the map, the iterator that drops duplicates, entry helpers such as `or_insert`, and the recount of lengths for `split_off`: easy beside what is here.
- `alloc_extra_large` and the map of extra-large allocations, memory limits, boxes, `VecInOs`, statistics, thread-local storage and destructors, NUMA, and the buddy allocator stub: plumbing, or not visible.
- The operating system: a region is an aligned block not mapped before, or a refusal.
- The test-only generator of the size tables, which is shifted by one against the tables that are shipped; the tables are modelled.
